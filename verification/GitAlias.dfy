/** Aliases as the git guard sees them: internal/guard's aliasWords, SplitGit, checkGit and expandAlias.
    What git answers for an alias is an oracle, the same for the same question. */
module GitAlias {
  import opened Text

  // ----- splitting an alias into words -----

  datatype Lexer = Lexer(cur: string, inWord: bool, quote: Option<char>, esc: bool)

  const START := Lexer("", false, None, false)

  function Feed(l: Lexer, c: char): Lexer {
    if l.esc then l.(cur := l.cur + [c], esc := false)
    else if c == '\\' && l.quote != Some('\'') then l.(esc := true, inWord := true)
    else if l.quote.Some? then (if Some(c) == l.quote then l.(quote := None) else l.(cur := l.cur + [c]))
    else if c == '"' || c == '\'' then l.(quote := Some(c), inWord := true)
    else if c == ' ' || c == '\t' || c == '\n' then (if l.inWord then START else l)
    else l.(cur := l.cur + [c], inWord := true)
  }

  /** The word a character ends, if it ends one. */
  function Emits(l: Lexer, c: char): seq<string> {
    if !l.esc && l.quote.None? && (c == ' ' || c == '\t' || c == '\n') && l.inWord then [l.cur] else []
  }

  function Words(l: Lexer, s: string): seq<string>
    decreases |s|
  {
    if s == "" then (if l.inWord then [l.cur] else [])
    else Emits(l, s[0]) + Words(Feed(l, s[0]), s[1..])
  }

  method AliasWords(s: string) returns (out: seq<string>)
    ensures out == Words(START, s)
  {
    var cur, inWord, esc := "", false, false;
    var quote: Option<char> := None;
    out := [];
    assert s[0..] == s;
    for i := 0 to |s|
      invariant out + Words(Lexer(cur, inWord, quote, esc), s[i..]) == Words(START, s)
      invariant !inWord ==> cur == "" && !esc && quote == None
    {
      var c := s[i];
      ghost var l, before := Lexer(cur, inWord, quote, esc), out;
      if esc {
        cur := cur + [c];
        esc := false;
      } else if c == '\\' && quote != Some('\'') {
        esc := true;
        inWord := true;
      } else if quote.Some? {
        if quote == Some(c) { quote := None; } else { cur := cur + [c]; }
      } else if c == '"' || c == '\'' {
        quote, inWord := Some(c), true;
      } else if c == ' ' || c == '\t' || c == '\n' {
        if inWord {
          out := out + [cur];
          cur := "";
          inWord := false;
        }
      } else {
        cur := cur + [c];
        inWord := true;
      }
      OneChar(l, s, i, before, out, Lexer(cur, inWord, quote, esc));
    }
    assert s[|s|..] == "";
    if inWord { out := out + [cur]; } else { assert out + [] == out; }
  }

  lemma OneChar(l: Lexer, s: string, i: nat, before: seq<string>, out: seq<string>, l': Lexer)
    requires i < |s| && l' == Feed(l, s[i]) && out == before + Emits(l, s[i])
    ensures before + Words(l, s[i..]) == out + Words(l', s[i + 1..])
  {
    assert s[i..][1..] == s[i + 1..];
    var a, b := Emits(l, s[i]), Words(l', s[i + 1..]);
    assert before + (a + b) == before + a + b;
  }

  /** A word in single quotes, as the program itself quotes for a shell. */
  function Escaped(w: string): string {
    if w == "" then "" else (if w[0] == '\'' then "'\\''" else [w[0]]) + Escaped(w[1..])
  }

  function Quoted(w: string): string { "'" + (Escaped(w) + "'") }

  function QuotedAll(ws: seq<string>): seq<string> {
    if ws == [] then [] else [Quoted(ws[0])] + QuotedAll(ws[1..])
  }

  lemma WordsCons(l: Lexer, c: char, s: string)
    ensures Words(l, [c] + s) == Emits(l, c) + Words(Feed(l, c), s)
  {
    assert ([c] + s)[1..] == s;
  }

  /** Inside single quotes an escaped word is taken over letter by letter. */
  lemma {:induction false} EscapedFeeds(cur: string, w: string, rest: string)
    ensures Words(Lexer(cur, true, Some('\''), false), Escaped(w) + rest)
            == Words(Lexer(cur + w, true, Some('\''), false), rest)
    decreases |w|
  {
    if w == "" {
      assert "" + rest == rest && cur + "" == cur;
    } else {
      var more := Escaped(w[1..]) + rest;
      assert cur + w == cur + [w[0]] + w[1..];
      if w[0] == '\'' {
        assert Escaped(w) + rest == ['\''] + (['\\'] + (['\''] + (['\''] + more)));
        QuoteInside(cur, more);
      } else {
        assert Escaped(w) + rest == [w[0]] + more;
        WordsCons(Lexer(cur, true, Some('\''), false), w[0], more);
      }
      EscapedFeeds(cur + [w[0]], w[1..], rest);
    }
  }

  lemma QuoteInside(cur: string, more: string)
    ensures Words(Lexer(cur, true, Some('\''), false), ['\''] + (['\\'] + (['\''] + (['\''] + more))))
            == Words(Lexer(cur + "'", true, Some('\''), false), more)
  {
    WordsCons(Lexer(cur, true, Some('\''), false), '\'', ['\\'] + (['\''] + (['\''] + more)));
    WordsCons(Lexer(cur, true, None, false), '\\', ['\''] + (['\''] + more));
    WordsCons(Lexer(cur, true, None, true), '\'', ['\''] + more);
    WordsCons(Lexer(cur + "'", true, None, false), '\'', more);
  }

  lemma QuotedFeeds(w: string, rest: string)
    ensures Words(START, Quoted(w) + rest) == Words(Lexer(w, true, None, false), rest)
  {
    assert Quoted(w) + rest == ['\''] + (Escaped(w) + (['\''] + rest));
    WordsCons(START, '\'', Escaped(w) + (['\''] + rest));
    EscapedFeeds("", w, ['\''] + rest);
    assert "" + w == w;
    WordsCons(Lexer(w, true, Some('\''), false), '\'', rest);
  }

  /** Splitting undoes quoting, for every list of words: empty ones, quotes, backslashes, spaces and
      line breaks included. */
  lemma {:induction false} WordsUndoQuoting(ws: seq<string>)
    ensures Words(START, Join(QuotedAll(ws), ' ')) == ws
    decreases |ws|
  {
    if |ws| == 1 {
      assert Join(QuotedAll(ws), ' ') == Quoted(ws[0]) + "";
      QuotedFeeds(ws[0], "");
    } else if |ws| > 1 {
      var rest := Join(QuotedAll(ws[1..]), ' ');
      assert QuotedAll(ws)[1..] == QuotedAll(ws[1..]);
      assert Join(QuotedAll(ws), ' ') == Quoted(ws[0]) + ([' '] + rest);
      QuotedFeeds(ws[0], [' '] + rest);
      WordsCons(Lexer(ws[0], true, None, false), ' ', rest);
      WordsUndoQuoting(ws[1..]);
    }
  }

  // ----- every way of writing words -----

  predicate Blank(c: char) { c in {' ', '\t', '\n'} }

  /** A stretch of a word: a bare character, one behind a backslash, or a text in quotes. */
  datatype Piece = Bare(c: char) | Slashed(c: char) | Single(text: string) | Double(text: string)

  predicate Writable(p: Piece) {
    match p
    case Bare(c) => !Blank(c) && c !in {'\\', '\'', '"'}
    case Single(t) => '\'' !in t
    case _ => true
  }

  /** Inside double quotes a backslash goes before a quote and before itself. */
  function Guarded(t: string): string {
    if t == "" then "" else (if t[0] in {'"', '\\'} then ['\\', t[0]] else [t[0]]) + Guarded(t[1..])
  }

  function WrittenPiece(p: Piece): string {
    match p
    case Bare(c) => [c]
    case Slashed(c) => ['\\', c]
    case Single(t) => ['\''] + (t + ['\''])
    case Double(t) => ['"'] + (Guarded(t) + ['"'])
  }

  function MeantPiece(p: Piece): string {
    match p
    case Bare(c) => [c]
    case Slashed(c) => [c]
    case Single(t) => t
    case Double(t) => t
  }

  function WrittenWord(w: seq<Piece>): string { if w == [] then "" else WrittenPiece(w[0]) + WrittenWord(w[1..]) }

  function MeantWord(w: seq<Piece>): string { if w == [] then "" else MeantPiece(w[0]) + MeantWord(w[1..]) }

  /** A word and the blanks after it. */
  datatype Spelled = Spelled(word: seq<Piece>, gap: string)

  predicate Blanks(s: string) { forall i | 0 <= i < |s| :: Blank(s[i]) }

  predicate Spellable(ws: seq<Spelled>) {
    && (forall w | w in ws :: w.word != [] && Blanks(w.gap) && forall p | p in w.word :: Writable(p))
    && (forall i | 0 <= i < |ws| - 1 :: ws[i].gap != "")
  }

  function WrittenAll(ws: seq<Spelled>): string {
    if ws == [] then "" else WrittenWord(ws[0].word) + (ws[0].gap + WrittenAll(ws[1..]))
  }

  function MeantAll(ws: seq<Spelled>): seq<string> {
    if ws == [] then [] else [MeantWord(ws[0].word)] + MeantAll(ws[1..])
  }

  /** In a word, outside of quotes, with that much of it read. */
  function In(cur: string): Lexer { Lexer(cur, true, None, false) }

  lemma {:induction false} SingleFeeds(cur: string, t: string, rest: string)
    requires '\'' !in t
    ensures Words(Lexer(cur, true, Some('\''), false), t + (['\''] + rest)) == Words(In(cur + t), rest)
    decreases |t|
  {
    if t == "" {
      assert t + (['\''] + rest) == ['\''] + rest && cur + t == cur;
      WordsCons(Lexer(cur, true, Some('\''), false), '\'', rest);
    } else {
      assert t + (['\''] + rest) == [t[0]] + (t[1..] + (['\''] + rest)) && cur + t == cur + [t[0]] + t[1..];
      WordsCons(Lexer(cur, true, Some('\''), false), t[0], t[1..] + (['\''] + rest));
      SingleFeeds(cur + [t[0]], t[1..], rest);
    }
  }

  lemma GuardedFeeds(cur: string, c: char, more: string)
    ensures Words(Lexer(cur, true, Some('"'), false), (if c in {'"', '\\'} then ['\\', c] else [c]) + more)
            == Words(Lexer(cur + [c], true, Some('"'), false), more)
  {
    var l := Lexer(cur, true, Some('"'), false);
    if c in {'"', '\\'} {
      assert ['\\', c] + more == ['\\'] + ([c] + more);
      WordsCons(l, '\\', [c] + more);
      WordsCons(Lexer(cur, true, Some('"'), true), c, more);
    } else {
      WordsCons(l, c, more);
    }
  }

  lemma {:induction false} DoubleFeeds(cur: string, t: string, rest: string)
    ensures Words(Lexer(cur, true, Some('"'), false), Guarded(t) + (['"'] + rest)) == Words(In(cur + t), rest)
    decreases |t|
  {
    if t == "" {
      assert Guarded(t) + (['"'] + rest) == ['"'] + rest && cur + t == cur;
      WordsCons(Lexer(cur, true, Some('"'), false), '"', rest);
    } else {
      var c, more := t[0], Guarded(t[1..]) + (['"'] + rest);
      Regroup(if c in {'"', '\\'} then ['\\', c] else [c], Guarded(t[1..]), ['"'] + rest);
      assert cur + t == cur + [c] + t[1..];
      GuardedFeeds(cur, c, more);
      DoubleFeeds(cur + [c], t[1..], rest);
    }
  }

  lemma Regroup(a: string, b: string, c: string)
    ensures a + b + c == a + (b + c)
  {
  }

  lemma SlashedFeeds(cur: string, inWord: bool, c: char, rest: string)
    ensures Words(Lexer(cur, inWord, None, false), ['\\', c] + rest) == Words(In(cur + [c]), rest)
  {
    assert ['\\', c] + rest == ['\\'] + ([c] + rest);
    WordsCons(Lexer(cur, inWord, None, false), '\\', [c] + rest);
    WordsCons(Lexer(cur, true, None, true), c, rest);
  }

  lemma QuotedPieceFeeds(cur: string, inWord: bool, q: char, inside: string, rest: string)
    requires q == '\'' || q == '"'
    ensures Words(Lexer(cur, inWord, None, false), [q] + (inside + [q]) + rest)
            == Words(Lexer(cur, true, Some(q), false), inside + ([q] + rest))
  {
    Regroup([q], inside + [q], rest);
    Regroup(inside, [q], rest);
    WordsCons(Lexer(cur, inWord, None, false), q, inside + ([q] + rest));
  }

  /** A piece adds what it means to the word, whether one had begun or not. */
  lemma PieceFeeds(cur: string, inWord: bool, p: Piece, rest: string)
    requires Writable(p)
    ensures Words(Lexer(cur, inWord, None, false), WrittenPiece(p) + rest) == Words(In(cur + MeantPiece(p)), rest)
  {
    match p
    case Bare(c) => WordsCons(Lexer(cur, inWord, None, false), c, rest);
    case Slashed(c) => SlashedFeeds(cur, inWord, c, rest);
    case Single(t) =>
      QuotedPieceFeeds(cur, inWord, '\'', t, rest);
      SingleFeeds(cur, t, rest);
    case Double(t) =>
      QuotedPieceFeeds(cur, inWord, '"', Guarded(t), rest);
      DoubleFeeds(cur, t, rest);
  }

  lemma {:induction false} WordFeeds(cur: string, inWord: bool, w: seq<Piece>, rest: string)
    requires (forall p | p in w :: Writable(p)) && (inWord || w != [])
    ensures Words(Lexer(cur, inWord, None, false), WrittenWord(w) + rest) == Words(In(cur + MeantWord(w)), rest)
    decreases |w|
  {
    if w == [] {
      assert WrittenWord(w) + rest == rest && cur + MeantWord(w) == cur;
    } else {
      var p, more := w[0], WrittenWord(w[1..]) + rest;
      assert p in w && forall q | q in w[1..] :: q in w;
      Regroup(WrittenPiece(p), WrittenWord(w[1..]), rest);
      Regroup(cur, MeantPiece(p), MeantWord(w[1..]));
      PieceFeeds(cur, inWord, p, more);
      WordFeeds(cur + MeantPiece(p), true, w[1..], rest);
    }
  }

  lemma {:induction false} GapPasses(gap: string, rest: string)
    requires Blanks(gap)
    ensures Words(START, gap + rest) == Words(START, rest)
    decreases |gap|
  {
    if gap == "" {
      assert gap + rest == rest;
    } else {
      assert gap + rest == [gap[0]] + (gap[1..] + rest);
      WordsCons(START, gap[0], gap[1..] + rest);
      GapPasses(gap[1..], rest);
    }
  }

  lemma GapEnds(cur: string, gap: string, rest: string)
    requires Blanks(gap) && gap != ""
    ensures Words(In(cur), gap + rest) == [cur] + Words(START, rest)
  {
    assert gap + rest == [gap[0]] + (gap[1..] + rest);
    WordsCons(In(cur), gap[0], gap[1..] + rest);
    GapPasses(gap[1..], rest);
  }

  /** However a list of words is written, bare, behind backslashes, in either quotes, or pieced together of
      those, and whatever blanks stand between, before and after: splitting gives back the words. */
  lemma {:induction false} WordsUndoWriting(lead: string, ws: seq<Spelled>)
    requires Blanks(lead) && Spellable(ws)
    ensures Words(START, lead + WrittenAll(ws)) == MeantAll(ws)
    decreases |ws|
  {
    GapPasses(lead, WrittenAll(ws));
    if ws != [] {
      var w, rest := ws[0], WrittenAll(ws[1..]);
      assert w in ws && forall x | x in ws[1..] :: x in ws;
      WordFeeds("", false, w.word, w.gap + rest);
      assert "" + MeantWord(w.word) == MeantWord(w.word);
      if w.gap == "" {
        assert ws[1..] == [] && w.gap + rest == "";
      } else {
        GapEnds(MeantWord(w.word), w.gap, rest);
        WordsUndoWriting("", ws[1..]);
        assert "" + rest == rest;
      }
    }
  }

  // ----- the command behind an alias -----

  type Args = seq<string>

  datatype Split = Split(globals: Args, sub: string, rest: Args)

  /** git's own options that take the next word. */
  predicate TakesNext(a: string) {
    a == "-C" || a == "-c" || a == "--git-dir" || a == "--work-tree" || a == "--namespace" || a == "--exec-path"
  }

  function SplitFrom(args: Args, i: nat): Split
    decreases |args| - i
  {
    if i >= |args| then Split(args, "", [])
    else if !("-" <= args[i]) then Split(args[..i], args[i], args[i + 1..])
    else SplitFrom(args, if TakesNext(args[i]) then i + 2 else i + 1)
  }

  method SplitGit(args: Args) returns (s: Split)
    ensures s == SplitFrom(args, 0) && Rejoins(args, s)
  {
    SplitIff(args, SplitFrom(args, 0));
    var i := 0;
    while i < |args|
      invariant SplitFrom(args, i) == SplitFrom(args, 0)
    {
      if !("-" <= args[i]) {
        return Split(args[..i], args[i], args[i + 1..]);
      }
      i := if TakesNext(args[i]) then i + 2 else i + 1;
    }
    return Split(args, "", []);
  }

  /** git's own options with a word of their own. */
  predicate HasValue(a: string) { a in {"-C", "-c", "--git-dir", "--work-tree", "--namespace", "--exec-path"} }

  /** Options only, each that takes the next word with one; `open` when such a word is still due. */
  predicate Globals(a: Args, open: bool) {
    if a == [] then !open
    else if open then Globals(a[1..], false)
    else "-" <= a[0] && Globals(a[1..], HasValue(a[0]))
  }

  /** Options only, the last one still waiting for its word. */
  predicate Dangling(a: Args) { a != [] && Globals(a[..|a| - 1], false) && HasValue(a[|a| - 1]) }

  /** What a split has to be: the options, the first word that is neither an option nor an option's, and
      what follows it; or the options alone. */
  predicate Rejoins(args: Args, s: Split) {
    || (args == s.globals + [s.sub] + s.rest && Globals(s.globals, false) && !("-" <= s.sub))
    || (s == Split(args, "", []) && (Globals(args, false) || Dangling(args)))
  }

  lemma {:induction false} GlobalsConcat(a: Args, b: Args, open: bool)
    requires Globals(a, open) && Globals(b, false)
    ensures Globals(a + b, open)
    decreases |a|
  {
    if a == [] {
      assert a + b == b;
    } else {
      assert (a + b)[1..] == a[1..] + b;
      GlobalsConcat(a[1..], b, if open then false else TakesNext(a[0]));
    }
  }

  lemma GlobalsNext(args: Args, i: nat)
    requires i < |args| && Globals(args[..i], false) && "-" <= args[i]
    ensures !TakesNext(args[i]) ==> Globals(args[..i + 1], false)
    ensures TakesNext(args[i]) && i + 1 < |args| ==> Globals(args[..i + 2], false)
    ensures TakesNext(args[i]) && i + 1 == |args| ==> Dangling(args)
  {
    var a := args[i];
    if !TakesNext(a) {
      assert [a][1..] == [] && Globals([a], false);
      GlobalsConcat(args[..i], [a], false);
      assert args[..i + 1] == args[..i] + [a];
    } else if i + 1 < |args| {
      var b := [a, args[i + 1]];
      assert b[1..][1..] == [] && Globals(b[1..], true) && Globals(b, false);
      GlobalsConcat(args[..i], b, false);
      assert args[..i + 2] == args[..i] + b;
    }
  }

  lemma {:induction false} SplitFromRejoins(args: Args, i: nat)
    requires i <= |args| + 1 && (if i <= |args| then Globals(args[..i], false) else Dangling(args))
    ensures Rejoins(args, SplitFrom(args, i))
    decreases |args| + 1 - i
  {
    if i < |args| {
      if "-" <= args[i] {
        GlobalsNext(args, i);
        SplitFromRejoins(args, if TakesNext(args[i]) then i + 2 else i + 1);
      } else {
        assert args == args[..i] + [args[i]] + args[i + 1..];
      }
    } else if i == |args| {
      assert args[..i] == args;
    }
  }

  /** Options from i on are passed over. */
  lemma {:induction false} SplitPasses(args: Args, i: nat, n: nat)
    requires i <= n <= |args| && Globals(args[i..n], false)
    ensures SplitFrom(args, i) == SplitFrom(args, n)
    decreases n - i
  {
    if i < n {
      var g := args[i..n];
      assert g[0] == args[i] && g[1..] == args[i + 1..n];
      if TakesNext(args[i]) {
        assert g[1..] != [] && g[1..][1..] == args[i + 2..n];
        SplitPasses(args, i + 2, n);
      } else {
        SplitPasses(args, i + 1, n);
      }
    }
  }

  lemma SplitAtSub(args: Args, n: nat)
    requires n < |args| && Globals(args[..n], false) && !("-" <= args[n])
    ensures SplitFrom(args, 0) == Split(args[..n], args[n], args[n + 1..])
  {
    assert args[0..n] == args[..n];
    SplitPasses(args, 0, n);
  }

  lemma SplitWithoutSub(args: Args)
    requires Globals(args, false) || Dangling(args)
    ensures SplitFrom(args, 0) == Split(args, "", [])
  {
    var n := if Globals(args, false) then |args| else |args| - 1;
    assert args[0..n] == if Globals(args, false) then args else args[..n];
    SplitPasses(args, 0, n);
    if n < |args| { OptionFirst(args[n]); }
  }

  lemma OptionFirst(a: string)
    ensures TakesNext(a) ==> "-" <= a
  {
  }

  lemma PartsOf(args: Args, s: Split)
    requires args == s.globals + [s.sub] + s.rest
    ensures var n := |s.globals|; n < |args| && args[..n] == s.globals && args[n] == s.sub && args[n + 1..] == s.rest
  {
  }

  /** SplitGit's result is the one split of the arguments in which they rejoin. */
  lemma SplitIff(args: Args, s: Split)
    ensures s == SplitFrom(args, 0) <==> Rejoins(args, s)
  {
    SplitFromRejoins(args, 0);
    if Rejoins(args, s) {
      if args == s.globals + [s.sub] + s.rest && Globals(s.globals, false) && !("-" <= s.sub) {
        PartsOf(args, s);
        SplitAtSub(args, |s.globals|);
      } else {
        SplitWithoutSub(args);
      }
    }
  }

  /** git config --get alias.<sub>: a value, given here as both readers trim it, exit code 1, or any
      other failure. */
  datatype Lookup = Value(exp: string) | NotSet | Failed

  /** What decides besides the arguments: the alias table, the subcommands an alias cannot shadow, the
      options that are refused, and the shell aliases the policy allows. */
  datatype Git = Git(alias: (Args, string) -> Lookup, builtin: string -> bool,
                     refused: Args -> bool, allowedShell: string -> bool)

  predicate Sane(g: Git) { g.builtin("commit") && g.builtin("push") }

  predicate Plain(g: Git, sub: string) { sub == "" || g.builtin(sub) || "-" <= sub }

  function Expanded(s: Split, exp: string): Args { s.globals + Words(START, exp) + s.rest }

  /** What checkGit made of the arguments: the command it came to and whose check decides, or no. */
  datatype Ended = Commit(args: Args) | Push(args: Args) | Through(args: Args) | Refused

  /** One round of checkGit: it ends before asking git, or asks and then ends or goes on. */
  datatype Round = Stop(end: Ended) | AskStop(end: Ended) | AskGo(next: Args)

  function CheckRound(g: Git, args: Args): Round {
    var s := SplitFrom(args, 0);
    if g.refused(s.globals) then Stop(Refused)
    else if s.sub == "commit" then Stop(Commit(args))
    else if s.sub == "push" then Stop(Push(args))
    else if Plain(g, s.sub) then Stop(Through(args))
    else
      match g.alias(s.globals, s.sub)
      case NotSet => AskStop(Through(args))
      case Failed => AskStop(Refused)
      case Value(exp) =>
        if exp == "" then AskStop(Through(args))
        else if exp[0] == '!' then AskStop(if g.allowedShell(s.sub) then Through(args) else Refused)
        else AskGo(Expanded(s, exp))
  }

  /** `left` is how many expansions are still allowed: five at the start, in the check and in
      expandAlias alike. */
  function CheckFrom(check: Args -> Round, args: Args, left: nat): Ended
    decreases left
  {
    match check(args)
    case Stop(e) => e
    case AskStop(e) => if left == 0 then Refused else e
    case AskGo(next) => if left == 0 then Refused else CheckFrom(check, next, left - 1)
  }

  function CheckGit(g: Git, args: Args, left: nat): Ended { CheckFrom(a => CheckRound(g, a), args, left) }

  /** One round of expandAlias: the expansion, or None when there is nothing to expand. */
  function ExpandOnce(g: Git, args: Args): Option<Args> {
    var s := SplitFrom(args, 0);
    if Plain(g, s.sub) then None
    else
      match g.alias(s.globals, s.sub)
      case Value(exp) =>
        if exp == "" || exp[0] == '!' then None else Some(Expanded(s, exp))
      case _ => None
  }

  function ExpandFrom(expand: Args -> Option<Args>, args: Args, left: nat): Args
    decreases left
  {
    if left == 0 || expand(args).None? then args
    else ExpandFrom(expand, expand(args).value, left - 1)
  }

  function Expansion(g: Git, args: Args, left: nat): Args { ExpandFrom(a => ExpandOnce(g, a), args, left) }

  /** checkGit's recursion. */
  method Check(g: Git, args: Args, left: nat) returns (e: Ended)
    ensures e == CheckGit(g, args, left)
    decreases left
  {
    ghost var check := a => CheckRound(g, a);
    var round := CheckOneRound(g, args);
    assert round == check(args);
    match round
    case Stop(end) => e := end;
    case AskStop(end) => e := if left == 0 then Refused else end;
    case AskGo(next) =>
      if left == 0 { return Refused; }
      e := Check(g, next, left - 1);
  }

  method CheckOneRound(g: Git, args: Args) returns (r: Round)
    ensures r == CheckRound(g, args)
  {
    var s := SplitGit(args);
    if g.refused(s.globals) { return Stop(Refused); }
    if s.sub == "commit" { return Stop(Commit(args)); }
    if s.sub == "push" { return Stop(Push(args)); }
    if s.sub == "" || g.builtin(s.sub) || "-" <= s.sub { return Stop(Through(args)); }
    var out := g.alias(s.globals, s.sub);
    match out
    case NotSet => return AskStop(Through(args));
    case Failed => return AskStop(Refused);
    case Value(exp) =>
      if exp == "" { return AskStop(Through(args)); }
      if exp[0] == '!' { return AskStop(if g.allowedShell(s.sub) then Through(args) else Refused); }
      var words := AliasWords(exp);
      return AskGo(s.globals + words + s.rest);
  }

  method ExpandOneRound(g: Git, args: Args) returns (r: Option<Args>)
    ensures r == ExpandOnce(g, args)
  {
    var s := SplitGit(args);
    if s.sub == "" || g.builtin(s.sub) || "-" <= s.sub { return None; }
    var out := g.alias(s.globals, s.sub);
    if !out.Value? { return None; }
    var exp := out.exp;
    if exp == "" || exp[0] == '!' { return None; }
    var words := AliasWords(exp);
    return Some(s.globals + words + s.rest);
  }

  method ExpandAlias(g: Git, start: Args, limit: nat) returns (args: Args)
    ensures args == Expansion(g, start, limit)
  {
    args := start;
    ghost var expand := a => ExpandOnce(g, a);
    for i := 0 to limit
      invariant ExpandFrom(expand, args, limit - i) == Expansion(g, start, limit)
    {
      var r := ExpandOneRound(g, args);
      assert r == expand(args);
      if r.None? { return; }
      args := r.value;
    }
  }

  /** A round of the check and a round of the expansion read a command alike. */
  predicate Alike(check: Round, expand: Option<Args>, args: Args) {
    match check
    case AskGo(next) => expand == Some(next)
    case Stop(e) => e == Refused || (expand.None? && e.args == args)
    case AskStop(e) => e == Refused || (expand.None? && e.args == args)
  }

  lemma RoundsAlike(g: Git, args: Args)
    requires Sane(g)
    ensures Alike(CheckRound(g, args), ExpandOnce(g, args), args)
  {
  }

  lemma {:induction false} RunsAlike(check: Args -> Round, expand: Args -> Option<Args>, args: Args, left: nat)
    requires forall a :: Alike(check(a), expand(a), a)
    requires CheckFrom(check, args, left) != Refused
    ensures ExpandFrom(expand, args, left) == CheckFrom(check, args, left).args
    ensures expand(CheckFrom(check, args, left).args).None?
    decreases left
  {
    assert Alike(check(args), expand(args), args);
    if check(args).AskGo? { RunsAlike(check, expand, check(args).next, left - 1); }
  }

  /** Two readings of one alias table, cyclic tables included: whenever the check lets arguments
      through, the expansion comes to exactly the command that was checked, and nothing in that command
      is left to expand. */
  lemma ExpansionIsWhatWasChecked(g: Git, args: Args, limit: nat)
    requires Sane(g) && CheckGit(g, args, limit) != Refused
    ensures Expansion(g, args, limit) == CheckGit(g, args, limit).args
    ensures ExpandOnce(g, Expansion(g, args, limit)).None?
  {
    var check, expand := a => CheckRound(g, a), a => ExpandOnce(g, a);
    forall a ensures Alike(check(a), expand(a), a) { RoundsAlike(g, a); }
    RunsAlike(check, expand, args, limit);
  }

  /** The command after n expansions, if there are that many. */
  function Reached(check: Args -> Round, args: Args, n: nat): Option<Args>
    decreases n
  {
    if n == 0 then Some(args)
    else match check(args)
      case AskGo(next) => Reached(check, next, n - 1)
      case _ => None
  }

  predicate RefusesItself(r: Round) { r == Stop(Refused) || r == AskStop(Refused) }

  predicate RefusedAfter(check: Args -> Round, args: Args, n: nat) {
    Reached(check, args, n).Some? && RefusesItself(check(Reached(check, args, n).value))
  }

  /** After n expansions the command still has to be looked up. */
  predicate Unfinished(check: Args -> Round, args: Args, n: nat) {
    Reached(check, args, n).Some? && !check(Reached(check, args, n).value).Stop?
  }

  lemma {:induction false} RefusedFromIff(check: Args -> Round, args: Args, left: nat)
    ensures CheckFrom(check, args, left) == Refused <==>
            (exists n: nat | n <= left :: RefusedAfter(check, args, n)) || Unfinished(check, args, left)
    decreases left
  {
    assert Reached(check, args, 0) == Some(args);
    if check(args).AskGo? && left > 0 {
      var next := check(args).next;
      RefusedFromIff(check, next, left - 1);
      forall n: nat | 0 < n ensures Reached(check, args, n) == Reached(check, next, n - 1) {}
      if n: nat :| n <= left - 1 && RefusedAfter(check, next, n) { assert RefusedAfter(check, args, n + 1); }
      if n: nat :| n <= left && RefusedAfter(check, args, n) { assert RefusedAfter(check, next, n - 1); }
    } else {
      if n: nat :| n <= left && RefusedAfter(check, args, n) { assert n == 0; }
      if RefusesItself(check(args)) { assert RefusedAfter(check, args, 0); }
    }
  }

  /** The check refuses exactly when some command it comes to is refused itself, or the last command the
      allowed expansions lead to still has to be looked up, whatever the answer would be. */
  lemma RefusedIff(g: Git, args: Args, limit: nat)
    ensures var check := a => CheckRound(g, a);
            CheckGit(g, args, limit) == Refused <==>
            (exists n: nat | n <= limit :: RefusedAfter(check, args, n)) || Unfinished(check, args, limit)
  {
    RefusedFromIff(a => CheckRound(g, a), args, limit);
  }

  // ----- what is let through, in terms of the alias table -----

  /** A subcommand git asks the alias table about. */
  predicate NeedsLookup(g: Git, sub: string) {
    sub != "commit" && sub != "push" && sub != "" && !g.builtin(sub) && !("-" <= sub)
  }

  predicate IsShell(l: Lookup) { l.Value? && l.exp != "" && l.exp[0] == '!' }

  predicate Expands(l: Lookup) { l.Value? && l.exp != "" && l.exp[0] != '!' }

  /** Nothing to expand: no such alias, an empty one, or a shell alias the policy names. */
  predicate Harmless(g: Git, sub: string, l: Lookup) {
    l == NotSet || l == Value("") || (IsShell(l) && g.allowedShell(sub))
  }

  /** One command stands for another: none of its options is refused, and its subcommand is an alias. */
  predicate StandsFor(g: Git, a: Args, s: Split, b: Args) {
    && Rejoins(a, s) && !g.refused(s.globals) && NeedsLookup(g, s.sub)
    && Expands(g.alias(s.globals, s.sub))
    && b == s.globals + Words(START, g.alias(s.globals, s.sub).exp) + s.rest
  }

  /** A command the check ends on: none of its options is refused; a commit or a push is left to its own
      check; any other is let through if it needs no lookup, or there is one left and it finds nothing to
      expand. */
  predicate EndsOn(g: Git, a: Args, s: Split, left: bool, e: Ended) {
    && Rejoins(a, s) && !g.refused(s.globals)
    && if s.sub == "commit" then e == Commit(a)
       else if s.sub == "push" then e == Push(a)
       else e == Through(a) && (NeedsLookup(g, s.sub) ==> left && Harmless(g, s.sub, g.alias(s.globals, s.sub)))
  }

  /** Commands with their splits, each but the last standing for the next. */
  predicate Chain(g: Git, cs: seq<Args>, ss: seq<Split>) {
    |cs| == |ss| > 0 && forall i | 0 <= i < |cs| - 1 :: StandsFor(g, cs[i], ss[i], cs[i + 1])
  }

  predicate ComesTo(g: Git, args: Args, limit: nat, cs: seq<Args>, ss: seq<Split>, e: Ended) {
    && Chain(g, cs, ss) && cs[0] == args && |cs| <= limit + 1
    && EndsOn(g, cs[|cs| - 1], ss[|ss| - 1], |cs| <= limit, e)
  }

  /** What one round does, by the split of its arguments. */
  lemma RoundIs(g: Git, args: Args, s: Split)
    requires Rejoins(args, s)
    ensures var r, l := CheckRound(g, args), g.alias(s.globals, s.sub);
            if g.refused(s.globals) then r == Stop(Refused)
            else if !NeedsLookup(g, s.sub) then r.Stop? && r.end != Refused
            else if Expands(l) then r.AskGo?
            else if Harmless(g, s.sub, l) then r == AskStop(Through(args))
            else r == AskStop(Refused)
    ensures forall b :: StandsFor(g, args, s, b) <==> CheckRound(g, args) == AskGo(b)
    ensures forall e, left | e != Refused ::
              EndsOn(g, args, s, left, e) <==>
              CheckRound(g, args) == Stop(e) || (left && CheckRound(g, args) == AskStop(e))
  {
    SplitIff(args, s);
  }

  lemma RoundEnds(g: Git, args: Args, left: nat)
    requires !CheckRound(g, args).AskGo? && CheckFrom(a => CheckRound(g, a), args, left) != Refused
    ensures ComesTo(g, args, left, [args], [SplitFrom(args, 0)], CheckFrom(a => CheckRound(g, a), args, left))
  {
    SplitIff(args, SplitFrom(args, 0));
    RoundIs(g, args, SplitFrom(args, 0));
  }

  lemma ChainCons(g: Git, args: Args, s: Split, cs: seq<Args>, ss: seq<Split>, left: nat, e: Ended)
    requires left > 0 && cs != []
    ensures ComesTo(g, args, left, [args] + cs, [s] + ss, e)
            <==> StandsFor(g, args, s, cs[0]) && ComesTo(g, cs[0], left - 1, cs, ss, e)
  {
    var ds, ts := [args] + cs, [s] + ss;
    if |cs| == |ss| {
      assert ds[1] == cs[0] && ds[|ds| - 1] == cs[|cs| - 1] && ts[|ts| - 1] == ss[|ss| - 1];
      if ComesTo(g, args, left, ds, ts, e) {
        assert StandsFor(g, ds[0], ts[0], ds[1]);
        forall i | 0 <= i < |cs| - 1 ensures StandsFor(g, cs[i], ss[i], cs[i + 1]) {
          assert StandsFor(g, ds[i + 1], ts[i + 1], ds[i + 2]);
        }
      }
      if StandsFor(g, args, s, cs[0]) && ComesTo(g, cs[0], left - 1, cs, ss, e) {
        forall i | 0 <= i < |ds| - 1 ensures StandsFor(g, ds[i], ts[i], ds[i + 1]) {
          if i > 0 { assert StandsFor(g, cs[i - 1], ss[i - 1], cs[i]); }
        }
      }
    }
  }

  lemma {:induction false} ChainFound(g: Git, args: Args, left: nat) returns (cs: seq<Args>, ss: seq<Split>)
    requires CheckFrom(a => CheckRound(g, a), args, left) != Refused
    ensures ComesTo(g, args, left, cs, ss, CheckFrom(a => CheckRound(g, a), args, left))
    decreases left
  {
    var check := a => CheckRound(g, a);
    if check(args).AskGo? {
      var s, next := SplitFrom(args, 0), check(args).next;
      SplitIff(args, s);
      RoundIs(g, args, s);
      var e := CheckFrom(check, next, left - 1);
      var rest, more := ChainFound(g, next, left - 1);
      assert e == CheckFrom(check, args, left) && StandsFor(g, args, s, rest[0]);
      ChainCons(g, args, s, rest, more, left, e);
      cs, ss := [args] + rest, [s] + more;
    } else {
      RoundEnds(g, args, left);
      cs, ss := [args], [SplitFrom(args, 0)];
    }
  }

  lemma {:induction false} ChainDecides(g: Git, args: Args, left: nat, cs: seq<Args>, ss: seq<Split>, e: Ended)
    requires ComesTo(g, args, left, cs, ss, e) && e != Refused
    ensures CheckFrom(a => CheckRound(g, a), args, left) == e
    decreases left
  {
    var check := a => CheckRound(g, a);
    assert |cs| > 1 ==> StandsFor(g, cs[0], ss[0], cs[1]);
    RoundIs(g, args, ss[0]);
    if |cs| == 1 {
      assert check(args) == Stop(e) || (left > 0 && check(args) == AskStop(e));
    } else {
      var rest, more := cs[1..], ss[1..];
      assert cs == [args] + rest && ss == [ss[0]] + more;
      ChainCons(g, args, ss[0], rest, more, left, e);
      ChainDecides(g, rest[0], left - 1, rest, more, e);
      assert check(args) == AskGo(rest[0]);
    }
  }

  /** The check comes to a command, and lets it through or leaves it to the commit or push check, exactly when
      the aliases lead there: a chain of at most the allowed expansions, no command on it with a refused
      option, each but the last an alias for the next, and the last one needing no lookup or having one
      left that finds nothing to expand. A failed lookup, a shell alias the policy does not name and a
      refused option are on no such chain. */
  lemma LetThroughIff(g: Git, args: Args, limit: nat, e: Ended)
    requires e != Refused
    ensures CheckGit(g, args, limit) == e <==> exists cs, ss :: ComesTo(g, args, limit, cs, ss, e)
  {
    if CheckGit(g, args, limit) == e { var cs, ss := ChainFound(g, args, limit); }
    if cs, ss :| ComesTo(g, args, limit, cs, ss, e) { ChainDecides(g, args, limit, cs, ss, e); }
  }
}
