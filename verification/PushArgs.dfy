/** Two readings of the arguments of git push: the loop of internal/guard's checkPush and the loop of
    parsePush, each proved against what the words mean taken one at a time. */
module PushArgs {
  import opened Text

  type Args = seq<string>

  /** The long options of git push: their names, and which take a value. */
  datatype Options = Options(known: seq<string>, valued: string -> bool)

  /** resolveLong: an exact name, else the one known name it abbreviates. */
  function ResolveFrom(name: string, known: seq<string>, hit: string): (string, bool) {
    if known == [] then (if hit != "" then hit else name, false)
    else if known[0] == name then (name, false)
    else if name <= known[0] && known[0] != hit then
      (if hit != "" then (name, true) else ResolveFrom(name, known[1..], known[0]))
    else ResolveFrom(name, known[1..], hit)
  }

  method ResolveLong(name: string, known: seq<string>) returns (resolved: string, ambiguous: bool)
    ensures (resolved, ambiguous) == ResolveFrom(name, known, "")
  {
    var hit := "";
    assert known[0..] == known;
    for i := 0 to |known|
      invariant ResolveFrom(name, known[i..], hit) == ResolveFrom(name, known, "")
    {
      assert known[i..][1..] == known[i + 1..];
      if known[i] == name { return name, false; }
      if name <= known[i] && known[i] != hit {
        if hit != "" { return name, true; }
        hit := known[i];
      }
    }
    return if hit != "" then hit else name, false;
  }

  /** A name resolves to itself, or to the one known name it abbreviates; it is ambiguous only when it
      abbreviates two. */
  lemma {:induction false} ResolveMeans(name: string, known: seq<string>, hit: string)
    requires name != "" && hit != name && (hit == "" || name <= hit)
    ensures var (r, amb) := ResolveFrom(name, known, hit);
            && (amb ==> r == name && exists k | k in known :: name <= k && k != name && (hit != "" ==> k != hit))
            && (!amb && r != name ==>
                  name <= r && (if hit == "" then r in known else r == hit) && forall k | k in known :: name <= k ==> k == r)
            && (!amb && r == name ==> name in known || (hit == "" && forall k | k in known :: !(name <= k)))
    decreases |known|
  {
    if known != [] {
      var k := known[0];
      assert k in known;
      assert forall x :: x in known <==> x == k || x in known[1..];
      if k != name {
        if name <= k && k != hit {
          if hit == "" { ResolveMeans(name, known[1..], k); }
        } else {
          ResolveMeans(name, known[1..], hit);
        }
      }
    }
  }

  // ----- what the words mean -----

  /** The long options the settings depend on. */
  datatype Kind = Force | Lease | Delete | All | Mirror | Tags | Repo | Other

  function KindOf(name: string): Kind {
    if name == "--force" then Force
    else if name == "--force-with-lease" then Lease
    else if name == "--delete" then Delete
    else if name == "--all" || name == "--branches" then All
    else if name == "--mirror" then Mirror
    else if name == "--tags" then Tags
    else if name == "--repo" then Repo
    else Other
  }

  datatype Token =
    | Positional(text: string)
    | Long(kind: Kind, value: string, ambiguous: bool)
    | Short(letter: char)

  /** The letters of a cluster up to the one that takes the rest of it as its value. */
  function Letters(s: string): seq<Token> {
    if s == "" || s[0] == 'o' then [] else [Short(s[0])] + Letters(s[1..])
  }

  /** A cluster that ends in -o takes the next word. */
  predicate EndsInO(s: string) { IndexOf(s, 'o') == |s| - 1 }

  function Positionals(a: Args): seq<Token> {
    if a == [] then [] else [Positional(a[0])] + Positionals(a[1..])
  }

  predicate IsLong(a: string) { "--" <= a }
  predicate IsCluster(a: string) { "-" <= a && |a| > 1 }

  function LongToken(o: Options, a: string, next: Option<string>): (Token, bool) {
    var eq := IndexOf(a, '=');
    var (name, amb) := ResolveFrom(a[..eq], o.known, "");
    if eq == |a| && o.valued(name) && next.Some? then (Long(KindOf(name), next.value, amb), true)
    else (Long(KindOf(name), if eq < |a| then a[eq + 1..] else "", amb), false)
  }

  function Next(a: Args, i: nat): Option<string> { if i + 1 < |a| then Some(a[i + 1]) else None }

  /** How many words the first word takes up, and what they mean. */
  function Head(o: Options, a: Args): (seq<Token>, nat)
    requires a != []
    ensures 1 <= Head(o, a).1 <= |a|
  {
    if a[0] == "--" then (Positionals(a[1..]), |a|)
    else if IsLong(a[0]) then
      var (t, took) := LongToken(o, a[0], Next(a, 0));
      ([t], if took then 2 else 1)
    else if IsCluster(a[0]) then
      (Letters(a[0][1..]), if EndsInO(a[0][1..]) && |a| > 1 then 2 else 1)
    else ([Positional(a[0])], 1)
  }

  function Tokens(o: Options, a: Args): seq<Token>
    decreases |a|
  {
    if a == [] then [] else Head(o, a).0 + Tokens(o, a[Head(o, a).1..])
  }

  // ----- the words somebody means -----

  /** One argument as git push documents it: a repository or refspec, a long option without a value, with one
      in the next word or behind "=", and a cluster of letters, alone or with the value of -o. */
  datatype Arg =
    | Word(text: string)
    | Flag(name: string)
    | Spaced(name: string, value: string)
    | Inline(name: string, value: string)
    | Cluster(letters: string)
    | ClusterO(letters: string, value: string)
    | ClusterGlued(letters: string, value: string)

  predicate IsOption(o: Options, name: string) {
    "--" <= name && |name| > 2 && '=' !in name && ResolveFrom(name, o.known, "") == (name, false)
  }

  predicate IsLetters(s: string) { 'o' !in s && (s != "" ==> s[0] != '-') }

  predicate Proper(o: Options, a: Arg) {
    match a
    case Word(w) => w == "" || w == "-" || w[0] != '-'
    case Flag(n) => IsOption(o, n) && !o.valued(n)
    case Spaced(n, _) => IsOption(o, n) && o.valued(n)
    case Inline(n, _) => IsOption(o, n)
    case Cluster(ls) => ls != "" && IsLetters(ls)
    case ClusterO(ls, _) => IsLetters(ls)
    case ClusterGlued(ls, v) => IsLetters(ls) && v != ""
  }

  function Written(a: Arg): Args {
    match a
    case Word(w) => [w]
    case Flag(n) => [n]
    case Spaced(n, v) => [n, v]
    case Inline(n, v) => [n + (['='] + v)]
    case Cluster(ls) => [['-'] + ls]
    case ClusterO(ls, v) => [['-'] + (ls + ['o']), v]
    case ClusterGlued(ls, v) => [['-'] + (ls + (['o'] + v))]
  }

  function AllWritten(args: seq<Arg>): Args { if args == [] then [] else Written(args[0]) + AllWritten(args[1..]) }

  function Shorts(ls: string): seq<Token> { seq(|ls|, i requires 0 <= i < |ls| => Short(ls[i])) }

  function Meant(a: Arg): seq<Token> {
    match a
    case Word(w) => [Positional(w)]
    case Flag(n) => [Long(KindOf(n), "", false)]
    case Spaced(n, v) => [Long(KindOf(n), v, false)]
    case Inline(n, v) => [Long(KindOf(n), v, false)]
    case Cluster(ls) => Shorts(ls)
    case ClusterO(ls, _) => Shorts(ls)
    case ClusterGlued(ls, _) => Shorts(ls)
  }

  function AllMeant(args: seq<Arg>): seq<Token> { if args == [] then [] else Meant(args[0]) + AllMeant(args[1..]) }

  lemma {:induction false} LettersAre(ls: string, rest: string)
    requires 'o' !in ls && (rest == "" || rest[0] == 'o')
    ensures Letters(ls + rest) == Shorts(ls)
    decreases |ls|
  {
    if ls == "" {
      assert ls + rest == rest;
    } else {
      assert (ls + rest)[1..] == ls[1..] + rest;
      LettersAre(ls[1..], rest);
      assert Shorts(ls) == [Short(ls[0])] + Shorts(ls[1..]);
    }
  }

  lemma ClusterHead(o: Options, ls: string, rest: string, more: Args)
    requires IsLetters(ls) && (rest == "" || rest[0] == 'o') && ls + rest != ""
    ensures Head(o, [['-'] + (ls + rest)] + more)
            == (Shorts(ls), if rest == "o" && more != [] then 2 else 1)
  {
    var w := ['-'] + (ls + rest);
    assert w[1..] == ls + rest && w[0] == '-' && w[1] != '-';
    assert !IsLong(w) && IsCluster(w) by { assert "--"[1] == '-' && "-" <= w; }
    LettersAre(ls, rest);
    EndsIff(ls, rest);
    assert ([w] + more)[0] == w;
  }

  lemma EndsIff(ls: string, rest: string)
    requires 'o' !in ls && (rest == "" || rest[0] == 'o') && ls + rest != ""
    ensures EndsInO(ls + rest) <==> rest == "o"
  {
    var s := ls + rest;
    if rest == "" {
      assert s == ls;
      IndexOfNone(s, 'o');
    } else {
      assert s[..|ls|] == ls && s[|ls|] == 'o';
      IndexOfIs(s, 'o', |ls|);
      assert rest == "o" <==> |rest| == 1;
    }
  }

  lemma IndexOfNone(s: string, c: char)
    requires c !in s
    ensures IndexOf(s, c) == |s|
  {
  }

  lemma LongHead(o: Options, n: string, w: string, v: string, more: Args)
    requires IsOption(o, n) && (w == n || w == n + (['='] + v))
    ensures Head(o, [w] + more) ==
            if w != n then ([Long(KindOf(n), v, false)], 1)
            else if o.valued(n) && more != [] then ([Long(KindOf(n), more[0], false)], 2)
            else ([Long(KindOf(n), "", false)], 1)
  {
    assert ([w] + more)[0] == w && "--" <= w && w != "--";
    if w == n {
      IndexOfNone(n, '=');
      assert n[..|n|] == n;
      assert more != [] ==> ([w] + more)[1] == more[0];
    } else {
      assert w[|n|] == '=' && w[..|n|] == n && w[|n| + 1..] == v;
      IndexOfIs(w, '=', |n|);
    }
  }

  lemma HeadIs(o: Options, a: Arg, more: Args)
    requires Proper(o, a)
    ensures Head(o, Written(a) + more) == (Meant(a), |Written(a)|)
  {
    match a
    case Word(w) =>
      assert ([w] + more)[0] == w && "-"[0] == '-' && "--"[0] == '-';
    case Flag(n) => LongHead(o, n, n, "", more);
    case Spaced(n, v) =>
      assert [n, v] + more == [n] + ([v] + more);
      LongHead(o, n, n, "", [v] + more);
    case Inline(n, v) => LongHead(o, n, n + (['='] + v), v, more);
    case Cluster(ls) =>
      assert ls + "" == ls;
      ClusterHead(o, ls, "", more);
    case ClusterO(ls, v) =>
      assert [['-'] + (ls + ['o']), v] + more == [['-'] + (ls + ['o'])] + ([v] + more);
      ClusterHead(o, ls, "o", [v] + more);
    case ClusterGlued(ls, v) =>
      ClusterHead(o, ls, ['o'] + v, more);
  }

  lemma TokensAfter(o: Options, w: Args, more: Args, ts: seq<Token>)
    requires w != [] && Head(o, w + more) == (ts, |w|)
    ensures Tokens(o, w + more) == ts + Tokens(o, more)
  {
    assert (w + more)[|w|..] == more;
  }

  lemma Rejoin<T>(a: seq<T>, b: seq<T>, c: seq<T>)
    ensures a + (b + c) == a + b + c
  {
  }

  /** What the words mean is what was meant, for every list of arguments in every documented form, in any
      order, and whatever follows them. */
  lemma {:induction false} TokensUndoWriting(o: Options, args: seq<Arg>, tail: Args)
    requires forall a | a in args :: Proper(o, a)
    ensures Tokens(o, AllWritten(args) + tail) == AllMeant(args) + Tokens(o, tail)
    decreases |args|
  {
    if args == [] {
      assert AllWritten(args) + tail == tail;
    } else {
      var w, rest := Written(args[0]), AllWritten(args[1..]);
      assert args[0] in args && forall a | a in args[1..] :: a in args;
      HeadIs(o, args[0], rest + tail);
      TokensAfter(o, w, rest + tail, Meant(args[0]));
      TokensUndoWriting(o, args[1..], tail);
      Rejoin(w, rest, tail);
      Rejoin(Meant(args[0]), AllMeant(args[1..]), Tokens(o, tail));
    }
  }

  /** Behind "--" every word is a repository or a refspec. */
  lemma {:induction false} DashesEnd(o: Options, ws: Args)
    ensures |Tokens(o, ["--"] + ws)| == |ws|
    ensures forall i | 0 <= i < |ws| :: Tokens(o, ["--"] + ws)[i] == Positional(ws[i])
  {
    var a := ["--"] + ws;
    assert a[0] == "--" && a[1..] == ws && a[|a|..] == [];
    PositionalsAre(ws);
    assert Tokens(o, a) == Positionals(ws) + [];
  }

  lemma {:induction false} PositionalsAre(ws: Args)
    ensures |Positionals(ws)| == |ws| && forall i | 0 <= i < |ws| :: Positionals(ws)[i] == Positional(ws[i])
    decreases |ws|
  {
    if ws != [] { PositionalsAre(ws[1..]); }
  }

  /** The options the guard looks at; --branches is another name of --all. */
  lemma KindsAre(n: string)
    ensures (KindOf(n) == Force <==> n == "--force") && (KindOf(n) == Lease <==> n == "--force-with-lease")
    ensures (KindOf(n) == Delete <==> n == "--delete") && (KindOf(n) == All <==> n in {"--all", "--branches"})
    ensures (KindOf(n) == Mirror <==> n == "--mirror") && (KindOf(n) == Tags <==> n == "--tags")
    ensures (KindOf(n) == Repo <==> n == "--repo")
  {
  }

  // ----- the settings -----

  datatype Settings = Settings(pos: seq<string>, repo: string, given: set<Kind>, ambiguous: bool)

  const UNSET := Settings([], "", {}, false)

  function Apply(s: Settings, t: Token): Settings {
    match t
    case Positional(text) => s.(pos := s.pos + [text])
    case Short(c) => if c == 'f' then Give(s, Force) else if c == 'd' then Give(s, Delete) else s
    case Long(kind, value, amb) =>
      Give(s, kind).(repo := if kind == Repo then value else s.repo, ambiguous := s.ambiguous || amb)
  }

  function Give(s: Settings, k: Kind): Settings { s.(given := s.given + {k}) }

  function Settle(s: Settings, ts: seq<Token>): Settings
    decreases |ts|
  {
    if ts == [] then s else Settle(Apply(s, ts[0]), ts[1..])
  }

  lemma {:induction false} SettleConcat(s: Settings, a: seq<Token>, b: seq<Token>)
    ensures Settle(s, a + b) == Settle(Settle(s, a), b)
    decreases |a|
  {
    if a == [] {
      assert a + b == b;
    } else {
      assert (a + b)[1..] == a[1..] + b;
      SettleConcat(Apply(s, a[0]), a[1..], b);
    }
  }

  lemma SettleOne(s: Settings, t: Token)
    ensures Settle(s, [t]) == Apply(s, t)
  {
    assert [t][1..] == [];
  }

  lemma SettleCons(s: Settings, t: Token, ts: seq<Token>)
    ensures Settle(s, [t] + ts) == Settle(Apply(s, t), ts)
  {
    assert ([t] + ts)[1..] == ts;
  }

  lemma {:induction false} SettlePositionals(s: Settings, a: Args)
    ensures Settle(s, Positionals(a)) == s.(pos := s.pos + a)
    decreases |a|
  {
    if a == [] {
      assert s.pos + a == s.pos;
    } else {
      SettleCons(s, Positional(a[0]), Positionals(a[1..]));
      SettlePositionals(s.(pos := s.pos + [a[0]]), a[1..]);
      assert s.pos + [a[0]] + a[1..] == s.pos + a;
    }
  }

  predicate Gives(t: Token, k: Kind) {
    match t
    case Positional(_) => false
    case Short(c) => (c == 'f' && k == Force) || (c == 'd' && k == Delete)
    case Long(kind, _, _) => kind == k
  }

  /** By the words: an option gives what it is called, in a cluster f forces and d deletes, and nothing else
      gives either. */
  lemma ArgGivesIff(a: Arg, k: Kind)
    ensures HasOne(Meant(a), t => Gives(t, k)) <==>
            match a
            case Word(_) => false
            case Flag(n) => KindOf(n) == k
            case Spaced(n, _) => KindOf(n) == k
            case Inline(n, _) => KindOf(n) == k
            case Cluster(ls) => (k == Force && 'f' in ls) || (k == Delete && 'd' in ls)
            case ClusterO(ls, _) => (k == Force && 'f' in ls) || (k == Delete && 'd' in ls)
            case ClusterGlued(ls, _) => (k == Force && 'f' in ls) || (k == Delete && 'd' in ls)
  {
    match a
    case Word(w) => assert Meant(a) == [Positional(w)];
    case Flag(n) => assert Gives(Meant(a)[0], k) <==> KindOf(n) == k;
    case Spaced(n, v) => assert Gives(Meant(a)[0], k) <==> KindOf(n) == k;
    case Inline(n, v) => assert Gives(Meant(a)[0], k) <==> KindOf(n) == k;
    case Cluster(ls) => ShortsGive(ls, k);
    case ClusterO(ls, v) => ShortsGive(ls, k);
    case ClusterGlued(ls, v) => ShortsGive(ls, k);
  }

  lemma ShortsGive(ls: string, k: Kind)
    ensures HasOne(Shorts(ls), t => Gives(t, k)) <==> (k == Force && 'f' in ls) || (k == Delete && 'd' in ls)
  {
    var ts := Shorts(ls);
    forall i | 0 <= i < |ls| ensures Gives(ts[i], k) <==> (ls[i] == 'f' && k == Force) || (ls[i] == 'd' && k == Delete) {
      assert ts[i] == Short(ls[i]);
    }
    if k == Force && 'f' in ls {
      var i :| 0 <= i < |ls| && ls[i] == 'f';
      assert Gives(ts[i], k);
    }
    if k == Delete && 'd' in ls {
      var i :| 0 <= i < |ls| && ls[i] == 'd';
      assert Gives(ts[i], k);
    }
  }

  predicate Doubts(t: Token) { t.Long? && t.ambiguous }

  predicate HasOne(ts: seq<Token>, p: Token -> bool) { exists i :: 0 <= i < |ts| && p(ts[i]) }

  lemma HasOneCons(ts: seq<Token>, p: Token -> bool)
    requires ts != []
    ensures HasOne(ts, p) <==> p(ts[0]) || HasOne(ts[1..], p)
  {
    if HasOne(ts[1..], p) {
      var i :| 0 <= i < |ts[1..]| && p(ts[1..][i]);
      assert p(ts[i + 1]);
    }
    if HasOne(ts, p) && !p(ts[0]) {
      var i :| 0 <= i < |ts| && p(ts[i]);
      assert p(ts[1..][i - 1]);
    }
  }

  lemma ApplyMeans(s: Settings, t: Token, k: Kind)
    ensures k in Apply(s, t).given <==> k in s.given || Gives(t, k)
    ensures Apply(s, t).ambiguous <==> s.ambiguous || Doubts(t)
  {
  }

  /** What an option or a doubt means of the words, whatever their order. */
  lemma {:induction false} SettingsMean(s: Settings, ts: seq<Token>, k: Kind)
    ensures k in Settle(s, ts).given <==> k in s.given || HasOne(ts, t => Gives(t, k))
    ensures Settle(s, ts).ambiguous <==> s.ambiguous || HasOne(ts, Doubts)
    decreases |ts|
  {
    if ts != [] {
      ApplyMeans(s, ts[0], k);
      SettingsMean(Apply(s, ts[0]), ts[1..], k);
      HasOneCons(ts, t => Gives(t, k));
      HasOneCons(ts, Doubts);
    }
  }

  // ----- one word at a time -----

  lemma Advance(o: Options, rest: Args, i: nat, s: Settings)
    requires i < |rest|
    ensures var (ts, n) := Head(o, rest[i..]);
            Settle(s, Tokens(o, rest[i..])) == Settle(Settle(s, ts), Tokens(o, rest[i + n..]))
  {
    var (ts, n) := Head(o, rest[i..]);
    assert rest[i..][n..] == rest[i + n..];
    SettleConcat(s, ts, Tokens(o, rest[i + n..]));
  }

  /** What is left of the words from i on, read into s. */
  function Rest(o: Options, rest: Args, i: nat, s: Settings): Settings
    requires i <= |rest|
  {
    Settle(s, Tokens(o, rest[i..]))
  }

  lemma RestNone(o: Options, rest: Args, s: Settings)
    ensures Rest(o, rest, |rest|, s) == s
  {
    assert rest[|rest|..] == [];
  }

  lemma AfterDashes(o: Options, rest: Args, i: nat, s: Settings)
    requires i < |rest| && rest[i] == "--"
    ensures Rest(o, rest, i, s) == s.(pos := s.pos + rest[i + 1..])
  {
    Advance(o, rest, i, s);
    assert rest[i..][1..] == rest[i + 1..];
    SettlePositionals(s, rest[i + 1..]);
    RestNone(o, rest, s.(pos := s.pos + rest[i + 1..]));
  }

  lemma AfterPositional(o: Options, rest: Args, i: nat, s: Settings)
    requires i < |rest| && !IsLong(rest[i]) && !IsCluster(rest[i])
    ensures Rest(o, rest, i, s) == Rest(o, rest, i + 1, Apply(s, Positional(rest[i])))
  {
    Advance(o, rest, i, s);
    SettleOne(s, Positional(rest[i]));
  }

  lemma AfterCluster(o: Options, rest: Args, i: nat, s: Settings)
    requires i < |rest| && !IsLong(rest[i]) && IsCluster(rest[i])
    ensures Rest(o, rest, i, s) == Rest(o, rest, if EndsInO(rest[i][1..]) && i + 1 < |rest| then i + 2 else i + 1,
                                        Settle(s, Letters(rest[i][1..])))
  {
    Advance(o, rest, i, s);
  }

  lemma AfterLong(o: Options, rest: Args, i: nat, s: Settings, t: Token, took: bool)
    requires i < |rest| && rest[i] != "--" && IsLong(rest[i])
    requires (t, took) == LongToken(o, rest[i], Next(rest, i))
    ensures took ==> i + 1 < |rest|
    ensures Rest(o, rest, i, s) == Rest(o, rest, if took then i + 2 else i + 1, Apply(s, t))
  {
    Advance(o, rest, i, s);
    assert Next(rest[i..], 0) == Next(rest, i);
    SettleOne(s, t);
  }

  /** The words of one long option: what it is, its value, and whether it took the next word. */
  method ReadLong(o: Options, a: string, next: Option<string>) returns (t: Token, took: bool)
    ensures (t, took) == LongToken(o, a, next)
  {
    var eq := IndexOf(a, '=');
    var name, amb := ResolveLong(a[..eq], o.known);
    var value := if eq < |a| then a[eq + 1..] else "";
    took := eq == |a| && o.valued(name) && next.Some?;
    if took { value := next.value; }
    t := Long(KindOf(name), value, amb);
  }

  // ----- the loop of parsePush -----

  /** What both loops keep of the words. */
  datatype Push = Push(pos: seq<string>, repo: string, all: bool, mirror: bool, tags: bool, del: bool)

  predicate PushIs(c: Push, s: Settings) {
    c.pos == s.pos && c.repo == s.repo
    && (c.all <==> All in s.given) && (c.mirror <==> Mirror in s.given)
    && (c.tags <==> Tags in s.given) && (c.del <==> Delete in s.given)
  }

  /** parsePush's result, before it tells the remote from the refspecs. */
  datatype Parsed = Parsed(push: Push, force: bool, lease: bool, ambiguous: bool)

  predicate MoreIs(s: Settings, force: bool, lease: bool, ambiguous: bool) {
    (force <==> Force in s.given) && (lease <==> Lease in s.given) && ambiguous == s.ambiguous
  }

  predicate ParsedAs(p: Parsed, s: Settings) { PushIs(p.push, s) && MoreIs(s, p.force, p.lease, p.ambiguous) }

  lemma LongMeans(s: Settings, t: Token)
    requires t.Long?
    ensures var r := Apply(s, t);
            r.pos == s.pos && r.repo == (if t.kind == Repo then t.value else s.repo)
            && r.ambiguous == (s.ambiguous || t.ambiguous)
            && forall k :: k in r.given <==> k in s.given || k == t.kind
  {
  }

  method ParseLong(p0: Parsed, t: Token, ghost s: Settings, ghost r: Settings) returns (p: Parsed)
    requires ParsedAs(p0, s) && t.Long?
    requires r.pos == s.pos && r.repo == if t.kind == Repo then t.value else s.repo
    requires r.ambiguous == (s.ambiguous || t.ambiguous) && forall k :: k in r.given <==> k in s.given || k == t.kind
    ensures ParsedAs(p, r)
  {
    var c, force, lease, ambiguous := p0.push, p0.force, p0.lease, p0.ambiguous;
    if t.ambiguous { ambiguous := true; }
    match t.kind {
      case Force => force := true;
      case Lease => lease := true;
      case Delete => c := c.(del := true);
      case All => c := c.(all := true);
      case Mirror => c := c.(mirror := true);
      case Tags => c := c.(tags := true);
      case Repo => c := c.(repo := t.value);
      case Other =>
    }
    p := Parsed(c, force, lease, ambiguous);
  }

  method ParseLetters(a: string, force0: bool, del0: bool, ghost s: Settings)
    returns (force: bool, del: bool, takesNext: bool, ghost r: Settings)
    requires IsCluster(a) && (force0 <==> Force in s.given) && (del0 <==> Delete in s.given)
    ensures r == Settle(s, Letters(a[1..])) && takesNext == EndsInO(a[1..])
    ensures (force <==> Force in r.given) && (del <==> Delete in r.given)
  {
    force, del := force0, del0;
    var j := 1;
    r := s;
    ghost var w := a[1..];
    assert w[0..] == w;
    while j < |a|
      invariant 1 <= j <= |a| && 'o' !in w[..j - 1]
      invariant (force <==> Force in r.given) && (del <==> Delete in r.given)
      invariant Settle(r, Letters(w[j - 1..])) == Settle(s, Letters(w))
    {
      assert w[j - 1] == a[j] && w[j - 1..][1..] == w[j..] && w[..j] == w[..j - 1] + [a[j]];
      if a[j] == 'o' {
        IndexOfIs(w, 'o', j - 1);
        takesNext := j == |a| - 1;
        return;
      }
      SettleCons(r, Short(a[j]), Letters(w[j..]));
      r := Apply(r, Short(a[j]));
      if a[j] == 'f' {
        force := true;
      } else if a[j] == 'd' {
        del := true;
      }
      j := j + 1;
    }
    assert w[..|w|] == w && w[|w|..] == "";
    takesNext := false;
  }

  /** A cluster gives nothing but force and delete. */
  lemma {:induction false} LettersGive(s: Settings, w: string, k: Kind)
    ensures var r := Settle(s, Letters(w)); r.pos == s.pos && r.repo == s.repo && r.ambiguous == s.ambiguous
    ensures k != Force && k != Delete ==> (k in Settle(s, Letters(w)).given <==> k in s.given)
    decreases |w|
  {
    if w != "" && w[0] != 'o' {
      SettleCons(s, Short(w[0]), Letters(w[1..]));
      LettersGive(Apply(s, Short(w[0])), w[1..], k);
    }
  }

  lemma ClusterIs(s: Settings, w: string, r: Settings, c: Push, force: bool, lease: bool, ambiguous: bool,
                  force': bool, del': bool)
    requires PushIs(c, s) && MoreIs(s, force, lease, ambiguous) && r == Settle(s, Letters(w))
    requires (force' <==> Force in r.given) && (del' <==> Delete in r.given)
    ensures PushIs(c.(del := del'), r) && MoreIs(r, force', lease, ambiguous)
  {
    LettersGive(s, w, Lease);
    LettersGive(s, w, All);
    LettersGive(s, w, Mirror);
    LettersGive(s, w, Tags);
  }

  method ParseCluster(a: string, p0: Parsed, ghost s: Settings) returns (p: Parsed, takesNext: bool, ghost r: Settings)
    requires IsCluster(a) && ParsedAs(p0, s)
    ensures r == Settle(s, Letters(a[1..])) && takesNext == EndsInO(a[1..])
    ensures ParsedAs(p, r)
  {
    var force, del: bool;
    force, del, takesNext, r := ParseLetters(a, p0.force, p0.push.del, s);
    ClusterIs(s, a[1..], r, p0.push, p0.force, p0.lease, p0.ambiguous, force, del);
    p := Parsed(p0.push.(del := del), force, p0.lease, p0.ambiguous);
  }

  lemma AddTexts(p: Parsed, s: Settings, more: seq<string>)
    requires ParsedAs(p, s)
    ensures ParsedAs(p.(push := p.push.(pos := p.push.pos + more)), s.(pos := s.pos + more))
  {
  }

  method ParsePush(o: Options, rest: Args) returns (p: Parsed)
    ensures ParsedAs(p, Settle(UNSET, Tokens(o, rest)))
  {
    p := Parsed(Push([], "", false, false, false, false), false, false, false);
    var i := 0;
    ghost var s := UNSET;
    assert rest[0..] == rest;
    while i < |rest|
      invariant 0 <= i <= |rest|
      invariant ParsedAs(p, s)
      invariant Rest(o, rest, i, s) == Rest(o, rest, 0, UNSET)
    {
      var a := rest[i];
      if a == "--" {
        AfterDashes(o, rest, i, s);
        AddTexts(p, s, rest[i + 1..]);
        s := s.(pos := s.pos + rest[i + 1..]);
        p := p.(push := p.push.(pos := p.push.pos + rest[i + 1..]));
        i := |rest|;
        RestNone(o, rest, s);
      } else if IsLong(a) {
        var t, took := ReadLong(o, a, Next(rest, i));
        AfterLong(o, rest, i, s, t, took);
        LongMeans(s, t);
        p := ParseLong(p, t, s, Apply(s, t));
        s := Apply(s, t);
        i := if took then i + 2 else i + 1;
      } else if IsCluster(a) {
        AfterCluster(o, rest, i, s);
        var takesNext: bool;
        p, takesNext, s := ParseCluster(a, p, s);
        i := if takesNext && i + 1 < |rest| then i + 2 else i + 1;
      } else {
        AfterPositional(o, rest, i, s);
        AddTexts(p, s, [a]);
        s := s.(pos := s.pos + [a]);
        p := p.(push := p.push.(pos := p.push.pos + [a]));
        i := i + 1;
      }
    }
    RestNone(o, rest, s);
  }

  // ----- the loop of checkPush -----

  method CheckCluster(a: string, c0: Push, ghost s: Settings) returns (c: Push, takesNext: bool, ghost r: Settings)
    requires IsCluster(a) && PushIs(c0, s)
    ensures r == Settle(s, Letters(a[1..])) && takesNext == EndsInO(a[1..])
    ensures PushIs(c, r) && r.ambiguous == s.ambiguous
  {
    c := c0;
    var j := 1;
    r := s;
    ghost var w := a[1..];
    assert w[0..] == w;
    while j < |a|
      invariant 1 <= j <= |a| && 'o' !in w[..j - 1]
      invariant PushIs(c, r) && r.ambiguous == s.ambiguous
      invariant Settle(r, Letters(w[j - 1..])) == Settle(s, Letters(w))
    {
      assert w[j - 1] == a[j] && w[j - 1..][1..] == w[j..] && w[..j] == w[..j - 1] + [a[j]];
      if a[j] == 'o' {
        IndexOfIs(w, 'o', j - 1);
        takesNext := j == |a| - 1;
        return;
      }
      SettleCons(r, Short(a[j]), Letters(w[j..]));
      r := Apply(r, Short(a[j]));
      if a[j] == 'd' { c := c.(del := true); }
      j := j + 1;
    }
    assert w[..|w|] == w && w[|w|..] == "";
    takesNext := false;
  }

  method CheckLong(c0: Push, t: Token, ghost s: Settings) returns (c: Push)
    requires PushIs(c0, s) && t.Long?
    ensures PushIs(c, Apply(s, t))
  {
    c := c0;
    match t.kind {
      case All => c := c.(all := true);
      case Mirror => c := c.(mirror := true);
      case Tags => c := c.(tags := true);
      case Delete => c := c.(del := true);
      case Repo => c := c.(repo := t.value);
      case _ =>
    }
  }

  /** None when an option is ambiguous, which refuses the push. */
  method CheckPush(o: Options, rest: Args) returns (r: Option<Push>)
    ensures r.None? <==> Settle(UNSET, Tokens(o, rest)).ambiguous
    ensures r.Some? ==> PushIs(r.value, Settle(UNSET, Tokens(o, rest)))
  {
    var c := Push([], "", false, false, false, false);
    var i := 0;
    ghost var s := UNSET;
    assert rest[0..] == rest;
    while i < |rest|
      invariant 0 <= i <= |rest|
      invariant PushIs(c, s) && !s.ambiguous
      invariant Rest(o, rest, i, s) == Rest(o, rest, 0, UNSET)
    {
      var a := rest[i];
      if a == "--" {
        AfterDashes(o, rest, i, s);
        s := s.(pos := s.pos + rest[i + 1..]);
        c := c.(pos := c.pos + rest[i + 1..]);
        i := |rest|;
        RestNone(o, rest, s);
      } else if IsLong(a) {
        var t, took := ReadLong(o, a, Next(rest, i));
        AfterLong(o, rest, i, s, t, took);
        i := if took then i + 2 else i + 1;
        if t.ambiguous {
          SettingsMean(Apply(s, t), Tokens(o, rest[i..]), Other);
          return None;
        }
        c := CheckLong(c, t, s);
        s := Apply(s, t);
      } else if IsCluster(a) {
        AfterCluster(o, rest, i, s);
        var takesNext: bool;
        c, takesNext, s := CheckCluster(a, c, s);
        i := if takesNext && i + 1 < |rest| then i + 2 else i + 1;
      } else {
        AfterPositional(o, rest, i, s);
        s := Apply(s, Positional(a));
        c := c.(pos := c.pos + [a]);
        i := i + 1;
      }
    }
    RestNone(o, rest, s);
    return Some(c);
  }

  // ----- where the two readings agree -----

  datatype Destination = Destination(remote: string, refspecs: seq<string>)

  function ParsedDestination(p: Push): Destination {
    if p.pos != [] then Destination(p.pos[0], p.pos[1..])
    else Destination(p.repo, [])
  }

  function CheckedDestination(c: Push): Destination {
    if c.repo == "" && c.pos != [] then Destination(c.pos[0], c.pos[1..])
    else Destination(c.repo, c.pos)
  }

  predicate IsWord(t: Token) { t.Positional? }

  predicate IsRepo(t: Token) { t.Long? && t.kind == Repo }

  /** The last --repo among the words has a value. */
  predicate NamesRepo(ts: seq<Token>) {
    exists i :: 0 <= i < |ts| && LastRepo(ts, i) && ts[i].value != ""
  }

  predicate LastRepo(ts: seq<Token>, i: nat)
    requires i < |ts|
  {
    IsRepo(ts[i]) && forall j | i < j < |ts| :: !IsRepo(ts[j])
  }

  lemma {:induction false} TextsMean(s: Settings, ts: seq<Token>)
    ensures Settle(s, ts).pos != [] <==> s.pos != [] || HasOne(ts, IsWord)
    decreases |ts|
  {
    if ts != [] {
      TextsMean(Apply(s, ts[0]), ts[1..]);
      HasOneCons(ts, IsWord);
    }
  }

  lemma {:induction false} NoRepo(s: Settings, ts: seq<Token>)
    requires forall j | 0 <= j < |ts| :: !IsRepo(ts[j])
    ensures Settle(s, ts).repo == s.repo
    decreases |ts|
  {
    if ts != [] { NoRepo(Apply(s, ts[0]), ts[1..]); }
  }

  lemma RepoAt(s: Settings, ts: seq<Token>, i: nat)
    requires i < |ts| && LastRepo(ts, i)
    ensures Settle(s, ts).repo == ts[i].value
  {
    assert ts == ts[..i] + ([ts[i]] + ts[i + 1..]);
    SettleConcat(s, ts[..i], [ts[i]] + ts[i + 1..]);
    var s1 := Settle(s, ts[..i]);
    SettleCons(s1, ts[i], ts[i + 1..]);
    NoRepo(Apply(s1, ts[i]), ts[i + 1..]);
  }

  lemma {:induction false} SomeLastRepo(ts: seq<Token>) returns (i: nat)
    requires HasOne(ts, IsRepo)
    ensures i < |ts| && LastRepo(ts, i)
    decreases |ts|
  {
    i := |ts| - 1;
    if !IsRepo(ts[i]) {
      var front := ts[..i];
      assert HasOne(front, IsRepo) by {
        var k :| 0 <= k < |ts| && IsRepo(ts[k]);
        assert front[k] == ts[k];
      }
      i := SomeLastRepo(front);
    }
  }

  /** The repository that counts is the value of the last --repo. */
  lemma RepoMeans(ts: seq<Token>)
    ensures Settle(UNSET, ts).repo != "" <==> NamesRepo(ts)
  {
    if HasOne(ts, IsRepo) {
      var i := SomeLastRepo(ts);
      RepoAt(UNSET, ts, i);
    } else {
      NoRepo(UNSET, ts);
    }
  }

  lemma DestinationsIff(p: Push, c: Push)
    requires p.pos == c.pos && p.repo == c.repo
    ensures ParsedDestination(p) == CheckedDestination(c) <==> p.repo == "" || p.pos == []
  {
    if p.pos != [] { assert |p.pos[1..]| != |p.pos|; }
  }

  /** The two remotes and refspecs are the same exactly when the last --repo has no value, or no word is
      left to be a remote. */
  lemma SameDestinationIff(ts: seq<Token>, p: Push, c: Push)
    requires PushIs(p, Settle(UNSET, ts)) && PushIs(c, Settle(UNSET, ts))
    ensures ParsedDestination(p) == CheckedDestination(c) <==> !(NamesRepo(ts) && HasOne(ts, IsWord))
  {
    RepoMeans(ts);
    TextsMean(UNSET, ts);
    DestinationsIff(p, c);
  }

  lemma RepoTokens(o: Options)
    requires ResolveFrom("--repo", o.known, "") == ("--repo", false) && o.valued("--repo")
    ensures Tokens(o, ["--repo", "x", "y"]) == [Long(Repo, "x", false)] + ([Positional("y")] + [])
  {
    var a := ["--repo", "x", "y"];
    IndexOfNone(a[0], '=');
    assert a[0][..6] == a[0];
    assert Head(o, a) == ([Long(Repo, "x", false)], 2);
    assert a[2..] == ["y"] && ["y"][1..] == [];
    assert Head(o, ["y"]) == ([Positional("y")], 1);
  }

  lemma TwoTokens(s: Settings, t: Token, u: Token)
    ensures Settle(s, [t] + ([u] + [])) == Apply(Apply(s, t), u)
  {
    SettleCons(s, t, [u] + []);
    SettleCons(Apply(s, t), u, []);
  }

  /** git push --repo x y: parsePush pushes to y, checkPush looks at x with the refspec y. */
  lemma RepoAndAWord(o: Options, p: Push, c: Push)
    requires ResolveFrom("--repo", o.known, "") == ("--repo", false) && o.valued("--repo")
    requires var s := Settle(UNSET, Tokens(o, ["--repo", "x", "y"])); PushIs(p, s) && PushIs(c, s)
    ensures ParsedDestination(p) == Destination("y", [])
    ensures CheckedDestination(c) == Destination("x", ["y"])
  {
    RepoTokens(o);
    TwoTokens(UNSET, Long(Repo, "x", false), Positional("y"));
    var s := Apply(Apply(UNSET, Long(Repo, "x", false)), Positional("y"));
    assert s.pos == ["y"] && s.repo == "x";
  }

  /** The two loops read the same settings from every argument list, and the same remote and refspecs
      exactly when the last --repo has no value or no word is left to be a remote. */
  method BothReadings(o: Options, rest: Args) returns (p: Parsed, c: Option<Push>)
    ensures c.None? <==> p.ambiguous
    ensures c.Some? ==> c.value == p.push
    ensures p.push.del <==> HasOne(Tokens(o, rest), t => Gives(t, Delete))
    ensures p.force <==> HasOne(Tokens(o, rest), t => Gives(t, Force))
    ensures p.lease <==> HasOne(Tokens(o, rest), t => Gives(t, Lease))
    ensures p.push.all <==> HasOne(Tokens(o, rest), t => Gives(t, All))
    ensures p.push.mirror <==> HasOne(Tokens(o, rest), t => Gives(t, Mirror))
    ensures p.push.tags <==> HasOne(Tokens(o, rest), t => Gives(t, Tags))
    ensures p.ambiguous <==> HasOne(Tokens(o, rest), Doubts)
    ensures c.Some? ==>
      (ParsedDestination(p.push) == CheckedDestination(c.value) <==>
       !(NamesRepo(Tokens(o, rest)) && HasOne(Tokens(o, rest), IsWord)))
  {
    p := ParsePush(o, rest);
    c := CheckPush(o, rest);
    SettingsMean(UNSET, Tokens(o, rest), Delete);
    SettingsMean(UNSET, Tokens(o, rest), Force);
    SettingsMean(UNSET, Tokens(o, rest), Lease);
    SettingsMean(UNSET, Tokens(o, rest), All);
    SettingsMean(UNSET, Tokens(o, rest), Mirror);
    SettingsMean(UNSET, Tokens(o, rest), Tags);
    if c.Some? { SameDestinationIff(Tokens(o, rest), p.push, c.value); }
  }
}
