/** The env file of a stack, as the awk programs of internal/envfile rewrite and list it: a list of lines
    that refines a map from keys to values. */
module EnvFile {
  import opened Text

  // ----- keys and lines -----

  predicate IsWordChar(c: char) { 'A' <= c <= 'Z' || 'a' <= c <= 'z' || c == '_' || IsDigit(c) }

  /** What keyRe matches. */
  predicate IsKey(k: string) {
    k != "" && !IsDigit(k[0]) && forall i | 0 <= i < |k| :: IsWordChar(k[i])
  }

  predicate ValidValue(v: string) { '\n' !in v && '\r' !in v && 0 as char !in v }

  /** Spaces and tabs at the start of s. */
  function Blanks(s: string): (n: nat)
    ensures n <= |s|
    ensures n < |s| ==> s[n] != ' ' && s[n] != '\t'
  {
    if s != "" && (s[0] == ' ' || s[0] == '\t') then 1 + Blanks(s[1..]) else 0
  }

  /** How much of a line the pattern for `export` and blanks matches. */
  function ExportLen(l: string): (n: nat)
    ensures n <= |l|
  {
    if "export" <= l && Blanks(l[6..]) > 0 then 6 + Blanks(l[6..]) else 0
  }

  function Prefix(l: string): string { l[..ExportLen(l)] }

  function Body(l: string): string { l[ExportLen(l)..] }

  predicate IsFor(l: string, k: string) { k + "=" <= Body(l) }

  /** The key a line is listed under. */
  function KeyOf(l: string): Option<string> {
    var b := Body(l);
    var e := IndexOf(b, '=');
    if e < |b| && IsKey(b[..e]) then Some(b[..e]) else None
  }

  function ValueOf(l: string, k: string): string
    requires IsFor(l, k)
  {
    Body(l)[|k| + 1..]
  }

  function Line(p: string, k: string, v: string): string { p + (k + ("=" + v)) }

  // ----- the three awk programs -----

  /** What the set program prints for one line; `done` is its flag d. */
  function Rewritten(l: string, k: string, v: string, done: bool): seq<string> {
    if !IsFor(l, k) then [l] else if done then [] else [Line(Prefix(l), k, v)]
  }

  function SetLines(ls: seq<string>, k: string, v: string, done: bool): seq<string> {
    if ls == [] then (if done then [] else [Line("", k, v)])
    else Rewritten(ls[0], k, v, done) + SetLines(ls[1..], k, v, done || IsFor(ls[0], k))
  }

  lemma SetNext(out: seq<string>, ls: seq<string>, i: nat, k: string, v: string, d: bool)
    requires i < |ls|
    ensures out + SetLines(ls[i..], k, v, d)
            == out + Rewritten(ls[i], k, v, d) + SetLines(ls[i + 1..], k, v, d || IsFor(ls[i], k))
  {
    assert ls[i..][1..] == ls[i + 1..];
    var a, b := Rewritten(ls[i], k, v, d), SetLines(ls[i + 1..], k, v, d || IsFor(ls[i], k));
    assert out + (a + b) == out + a + b;
  }

  method RunSet(ls: seq<string>, k: string, v: string) returns (out: seq<string>)
    ensures out == SetLines(ls, k, v, false)
  {
    out := [];
    var d := false;
    assert ls[0..] == ls && [] + SetLines(ls, k, v, false) == SetLines(ls, k, v, false);
    for i := 0 to |ls|
      invariant out + SetLines(ls[i..], k, v, d) == SetLines(ls, k, v, false)
    {
      SetNext(out, ls, i, k, v, d);
      var n := ExportLen(ls[i]);
      var p, r := ls[i][..n], ls[i][n..];
      if k + "=" <= r {
        if !d {
          out := out + [Line(p, k, v)];
          d := true;
        } else {
          assert out + [] == out;
        }
      } else {
        out := out + [ls[i]];
      }
    }
    assert ls[|ls|..] == [] && out + [] == out;
    if !d { out := out + [Line("", k, v)]; }
  }

  /** What the unset program prints for one line. */
  function Kept(l: string, k: string): seq<string> { if IsFor(l, k) then [] else [l] }

  /** The lines of other keys, comments and the rest, in order. */
  function Others(ls: seq<string>, k: string): seq<string> {
    if ls == [] then [] else Kept(ls[0], k) + Others(ls[1..], k)
  }

  lemma UnsetNext(out: seq<string>, ls: seq<string>, i: nat, k: string)
    requires i < |ls|
    ensures out + Others(ls[i..], k) == out + Kept(ls[i], k) + Others(ls[i + 1..], k)
  {
    assert ls[i..][1..] == ls[i + 1..];
    var a, b := Kept(ls[i], k), Others(ls[i + 1..], k);
    assert out + (a + b) == out + a + b;
  }

  method RunUnset(ls: seq<string>, k: string) returns (out: seq<string>)
    ensures out == Others(ls, k)
  {
    out := [];
    assert ls[0..] == ls && [] + Others(ls, k) == Others(ls, k);
    for i := 0 to |ls|
      invariant out + Others(ls[i..], k) == Others(ls, k)
    {
      UnsetNext(out, ls, i, k);
      var r := ls[i][ExportLen(ls[i])..];
      if !(k + "=" <= r) { out := out + [ls[i]]; } else { assert out + [] == out; }
    }
    assert ls[|ls|..] == [] && out + [] == out;
  }

  /** What the list program prints for one line. */
  function Listed(l: string): seq<string> { if KeyOf(l).Some? then [KeyOf(l).value] else [] }

  function ListLines(ls: seq<string>): seq<string> {
    if ls == [] then [] else Listed(ls[0]) + ListLines(ls[1..])
  }

  lemma ListNext(out: seq<string>, ls: seq<string>, i: nat)
    requires i < |ls|
    ensures out + ListLines(ls[i..]) == out + Listed(ls[i]) + ListLines(ls[i + 1..])
  {
    assert ls[i..][1..] == ls[i + 1..];
    var a, b := Listed(ls[i]), ListLines(ls[i + 1..]);
    assert out + (a + b) == out + a + b;
  }

  method RunList(ls: seq<string>) returns (out: seq<string>)
    ensures out == ListLines(ls)
  {
    out := [];
    assert ls[0..] == ls && [] + ListLines(ls) == ListLines(ls);
    for i := 0 to |ls|
      invariant out + ListLines(ls[i..]) == ListLines(ls)
    {
      ListNext(out, ls, i);
      var r := ls[i][ExportLen(ls[i])..];
      var e := IndexOf(r, '=');
      var key := r[..e];
      if e < |r| && IsKey(key) {
        assert KeyOf(ls[i]) == Some(key);
        out := out + [key];
      } else {
        assert KeyOf(ls[i]) == None;
        assert out + [] == out;
      }
    }
    assert ls[|ls|..] == [] && out + [] == out;
  }

  // ----- what they do to one key and to the others -----

  /** The values a file gives a key, in order. */
  function Values(ls: seq<string>, k: string): seq<string> {
    if ls == [] then []
    else (if IsFor(ls[0], k) then [ValueOf(ls[0], k)] else []) + Values(ls[1..], k)
  }

  lemma {:induction false} BlanksStop(a: string, rest: string)
    requires forall i | 0 <= i < |a| :: a[i] == ' ' || a[i] == '\t'
    requires rest != "" && rest[0] != ' ' && rest[0] != '\t'
    ensures Blanks(a + rest) == |a|
  {
    if a == "" {
      assert a + rest == rest;
    } else {
      assert (a + rest)[1..] == a[1..] + rest;
      BlanksStop(a[1..], rest);
    }
  }

  lemma {:induction false} BlanksAre(s: string)
    ensures forall i | 0 <= i < Blanks(s) :: s[i] == ' ' || s[i] == '\t'
  {
    if Blanks(s) > 0 {
      BlanksAre(s[1..]);
      forall i | 0 <= i < Blanks(s) ensures s[i] == ' ' || s[i] == '\t' {
        if i > 0 { assert s[i] == s[1..][i - 1]; }
      }
    }
  }

  /** A rewritten line keeps its prefix, is for its key, and has the value. */
  lemma LineReads(l: string, k: string, v: string)
    requires IsKey(k)
    ensures var w := Line(Prefix(l), k, v);
            Prefix(w) == Prefix(l) && Body(w) == k + ("=" + v)
  {
    var p, n, rest := Prefix(l), ExportLen(l), k + ("=" + v);
    var w := p + rest;
    if n == 0 {
      PlainLine(k, v);
      assert w == rest;
    } else {
      var a := l[6..][..n - 6];
      BlanksAre(l[6..]);
      assert p == "export" + a;
      BlanksStop(a, rest);
      assert w == "export" + (a + rest);
      assert w[6..] == a + rest;
    }
  }

  /** A key is no `export` with blanks after it. */
  lemma PlainLine(k: string, v: string)
    requires IsKey(k)
    ensures ExportLen(k + ("=" + v)) == 0
  {
    var w := k + ("=" + v);
    assert w[|k|] == '=';
    PrefixAt("export", w, |k|);
    assert forall i | 0 <= i < 6 :: "export"[i] != '=';
    if |k| > 6 { assert w[6] == k[6]; }
  }

  lemma PrefixAt(p: string, w: string, i: nat)
    ensures p <= w && i < |p| ==> w[i] == p[i]
  {
  }

  /** Awk's test for the key and the listing agree: a line is for a key exactly when it is listed under it. */
  lemma ForIffListed(l: string, k: string)
    requires IsKey(k)
    ensures IsFor(l, k) <==> KeyOf(l) == Some(k)
  {
    CutIff(Body(l), k);
  }

  lemma CutIff(b: string, k: string)
    requires IsKey(k)
    ensures k + "=" <= b <==> IndexOf(b, '=') < |b| && b[..IndexOf(b, '=')] == k
  {
    NoEquals(k);
    if k + "=" <= b { CutThere(b, k); }
    CutBack(b, k, IndexOf(b, '='));
  }

  lemma NoEquals(k: string)
    requires IsKey(k)
    ensures '=' !in k
  {
  }

  lemma CutThere(b: string, k: string)
    requires '=' !in k && k + "=" <= b
    ensures |k| < |b| && b[..|k|] == k && IndexOf(b, '=') == |k|
  {
    var w := k + "=";
    assert w[|k|] == '=' && b[..|k|] == w[..|k|] == k && b[|k|] == w[|k|];
    IndexOfIs(b, '=', |k|);
  }

  lemma CutBack(b: string, k: string, e: nat)
    requires e < |b| ==> b[e] == '='
    ensures e < |b| && b[..e] == k ==> k + "=" <= b
  {
    if e < |b| { assert b[..e + 1] == b[..e] + "="; }
  }

  /** A body of a key, the sign and a value is taken apart again. */
  lemma BodyReads(b: string, k: string, v: string)
    requires IsKey(k) && b == k + ("=" + v)
    ensures k + "=" <= b && b[|k| + 1..] == v
    ensures |k| < |b| && b[..|k|] == k && IndexOf(b, '=') == |k|
  {
    assert b == (k + "=") + v;
    NoEquals(k);
    CutThere(b, k);
  }

  /** Nothing, or `export` and some blanks. */
  predicate Exporting(a: string) {
    a == "" || (|a| > 6 && a[..6] == "export" && forall i | 6 <= i < |a| :: a[i] == ' ' || a[i] == '\t')
  }

  predicate Assigns(l: string, k: string, a: string, v: string) { Exporting(a) && l == a + (k + ("=" + v)) }

  lemma ExportingIs(a: string, rest: string)
    requires Exporting(a) && a != "" && rest != "" && rest[0] != ' ' && rest[0] != '\t'
    ensures ExportLen(a + rest) == |a|
  {
    var b := a[6..];
    BlanksStop(b, rest);
    assert a == "export" + b;
    assert a + rest == "export" + (b + rest) && (a + rest)[6..] == b + rest;
  }

  lemma PrefixExports(l: string)
    ensures Exporting(Prefix(l))
  {
    if ExportLen(l) > 0 {
      BlanksAre(l[6..]);
      forall i | 6 <= i < ExportLen(l) ensures l[i] == ' ' || l[i] == '\t' { assert l[i] == l[6..][i - 6]; }
      assert "export" <= l && l[..6] == "export";
    }
  }

  /** A shell's assignment is read as one: its prefix, its key and its value. */
  lemma AssignmentReads(l: string, k: string, a: string, v: string)
    requires IsKey(k) && Assigns(l, k, a, v)
    ensures IsFor(l, k) && Prefix(l) == a && ValueOf(l, k) == v
  {
    var rest := k + ("=" + v);
    assert rest[0] == k[0];
    if a == "" {
      PlainLine(k, v);
      assert l == rest;
    } else {
      ExportingIs(a, rest);
    }
    assert Body(l) == rest;
    BodyReads(rest, k, v);
  }

  lemma PartsOf(l: string, k: string)
    requires IsFor(l, k)
    ensures l == Prefix(l) + (k + ("=" + ValueOf(l, k)))
  {
    var b := Body(l);
    assert l == Prefix(l) + b && b == (k + "=") + b[|k| + 1..];
    assert (k + "=") + b[|k| + 1..] == k + ("=" + b[|k| + 1..]);
  }

  /** A line is for a key exactly when it assigns it, with `export` before it or without. */
  lemma AssignedIff(l: string, k: string)
    requires IsKey(k)
    ensures IsFor(l, k) <==> exists a, v :: Assigns(l, k, a, v)
  {
    if IsFor(l, k) {
      PrefixExports(l);
      PartsOf(l, k);
      assert Assigns(l, k, Prefix(l), ValueOf(l, k));
    }
    forall a, v | Assigns(l, k, a, v) ensures IsFor(l, k) { AssignmentReads(l, k, a, v); }
  }

  lemma NewLineIs(l: string, k: string, v: string)
    requires IsKey(k)
    ensures var w := Line(Prefix(l), k, v);
            IsFor(w, k) && ValueOf(w, k) == v && Prefix(w) == Prefix(l) && KeyOf(w) == Some(k)
  {
    LineReads(l, k, v);
    BodyReads(Body(Line(Prefix(l), k, v)), k, v);
  }

  lemma OneKeyOnly(l: string, k: string, k2: string)
    requires IsKey(k) && IsKey(k2) && k != k2 && IsFor(l, k)
    ensures !IsFor(l, k2)
  {
    ForIffListed(l, k);
    ForIffListed(l, k2);
  }

  /** The value a line gives a key, if it is for it. */
  function Given(l: string, k: string): seq<string> { if IsFor(l, k) then [ValueOf(l, k)] else [] }

  lemma {:induction false} ValuesConcat(a: seq<string>, b: seq<string>, k: string)
    ensures Values(a + b, k) == Values(a, k) + Values(b, k)
    decreases |a|
  {
    if a == [] {
      assert a + b == b;
    } else {
      ValuesConcat(a[1..], b, k);
      ValuesCons(a[0], a[1..] + b, k);
      ValuesCons(a[0], a[1..], k);
      assert a + b == [a[0]] + (a[1..] + b) && a == [a[0]] + a[1..];
    }
  }

  lemma ValuesCons(l: string, ls: seq<string>, k: string)
    ensures Values([l] + ls, k) == Given(l, k) + Values(ls, k)
  {
    assert ([l] + ls)[1..] == ls;
  }

  lemma ValuesOne(l: string, k: string)
    ensures Values([l], k) == Given(l, k)
  {
    assert [l][1..] == [];
  }

  lemma {:induction false} OthersConcat(a: seq<string>, b: seq<string>, k: string)
    ensures Others(a + b, k) == Others(a, k) + Others(b, k)
    decreases |a|
  {
    if a == [] {
      assert a + b == b;
    } else {
      assert (a + b)[1..] == a[1..] + b;
      OthersConcat(a[1..], b, k);
    }
  }

  lemma OthersOne(l: string, k: string)
    ensures Others([l], k) == Kept(l, k)
  {
    assert [l][1..] == [];
  }

  lemma {:induction false} SetTwiceDone(ls: seq<string>, k: string, v: string)
    ensures SetLines(ls, k, v, true) == Others(ls, k)
  {
    if ls != [] { SetTwiceDone(ls[1..], k, v); }
  }

  lemma {:induction false} OthersHaveNone(ls: seq<string>, k: string)
    ensures Values(Others(ls, k), k) == [] && Others(Others(ls, k), k) == Others(ls, k)
  {
    if ls != [] {
      OthersHaveNone(ls[1..], k);
      ValuesConcat(Kept(ls[0], k), Others(ls[1..], k), k);
      OthersConcat(Kept(ls[0], k), Others(ls[1..], k), k);
      ValuesOne(ls[0], k);
      OthersOne(ls[0], k);
    }
  }

  /** After a set the key has exactly the new value, and every other line is kept in order. */
  lemma {:induction false} SetGivesOneValue(ls: seq<string>, k: string, v: string)
    requires IsKey(k)
    ensures Values(SetLines(ls, k, v, false), k) == [v]
    ensures Others(SetLines(ls, k, v, false), k) == Others(ls, k)
  {
    if ls == [] {
      NewLineIs("", k, v);
      ValuesOne(Line("", k, v), k);
      OthersOne(Line("", k, v), k);
    } else {
      var d := IsFor(ls[0], k);
      var a, b := Rewritten(ls[0], k, v, false), SetLines(ls[1..], k, v, d);
      ValuesConcat(a, b, k);
      OthersConcat(a, b, k);
      if d {
        NewLineIs(ls[0], k, v);
        SetTwiceDone(ls[1..], k, v);
        OthersHaveNone(ls[1..], k);
      } else {
        SetGivesOneValue(ls[1..], k, v);
      }
      ValuesOne(a[0], k);
      OthersOne(a[0], k);
    }
  }

  /** Neither a set nor an unset touches another key. */
  lemma {:induction false} OtherKeysKeepTheirs(ls: seq<string>, k: string, v: string, done: bool, k2: string)
    requires IsKey(k) && IsKey(k2) && k != k2
    ensures Values(SetLines(ls, k, v, done), k2) == Values(ls, k2)
    ensures Values(Others(ls, k), k2) == Values(ls, k2)
  {
    if ls == [] {
      NewLineIs("", k, v);
      OneKeyOnly(Line("", k, v), k, k2);
      ValuesOne(Line("", k, v), k2);
    } else {
      var d := done || IsFor(ls[0], k);
      OtherKeysKeepTheirs(ls[1..], k, v, d, k2);
      ValuesConcat(Rewritten(ls[0], k, v, done), SetLines(ls[1..], k, v, d), k2);
      ValuesConcat(Kept(ls[0], k), Others(ls[1..], k), k2);
      OneLineApart(ls[0], k, v, done, k2);
    }
  }

  lemma OneLineApart(l: string, k: string, v: string, done: bool, k2: string)
    requires IsKey(k) && IsKey(k2) && k != k2
    ensures Values(Rewritten(l, k, v, done), k2) == Given(l, k2) && Values(Kept(l, k), k2) == Given(l, k2)
  {
    ValuesOne(l, k2);
    if IsFor(l, k) {
      OneKeyOnly(l, k, k2);
      NewLineIs(l, k, v);
      OneKeyOnly(Line(Prefix(l), k, v), k, k2);
      ValuesOne(Line(Prefix(l), k, v), k2);
    }
  }

  lemma {:induction false} SetPasses(a: seq<string>, b: seq<string>, k: string, v: string)
    requires forall l | l in a :: !IsFor(l, k)
    ensures SetLines(a + b, k, v, false) == a + SetLines(b, k, v, false)
    decreases |a|
  {
    if a == [] {
      assert a + b == b;
    } else {
      assert (a + b)[1..] == a[1..] + b;
      SetPasses(a[1..], b, k, v);
      assert a == [a[0]] + a[1..];
    }
  }

  /** A set puts its line where the first line of the key stood, else at the end. */
  lemma SetKeepsThePlace(before: seq<string>, l: string, after: seq<string>, k: string, v: string)
    requires forall x | x in before :: !IsFor(x, k)
    ensures SetLines(before, k, v, false) == before + [Line("", k, v)]
    ensures IsFor(l, k) ==>
              SetLines(before + ([l] + after), k, v, false) == before + ([Line(Prefix(l), k, v)] + Others(after, k))
  {
    SetPasses(before, [], k, v);
    assert before + [] == before;
    SetPasses(before, [l] + after, k, v);
    assert ([l] + after)[1..] == after;
    SetTwiceDone(after, k, v);
  }

  lemma SetCons(l: string, rest: seq<string>, k: string, v: string, d: bool)
    ensures SetLines([l] + rest, k, v, d) == Rewritten(l, k, v, d) + SetLines(rest, k, v, d || IsFor(l, k))
  {
    assert ([l] + rest)[1..] == rest;
  }

  /** The step at the first line of the key: later ones are dropped either way. */
  lemma SetOverOwn(l: string, rest: seq<string>, k: string, v: string, w: string)
    requires IsKey(k) && IsFor(l, k)
    ensures SetLines(SetLines([l] + rest, k, v, false), k, w, false) == SetLines([l] + rest, k, w, false)
  {
    SetCons(l, rest, k, v, false);
    SetCons(l, rest, k, w, false);
    NewLineIs(l, k, v);
    SetTwiceDone(rest, k, v);
    SetTwiceDone(rest, k, w);
    SetCons(Line(Prefix(l), k, v), Others(rest, k), k, w, false);
    SetTwiceDone(Others(rest, k), k, w);
    OthersHaveNone(rest, k);
  }

  lemma SetOverOther(l: string, rest: seq<string>, k: string, v: string, w: string)
    requires !IsFor(l, k)
    ensures SetLines(SetLines([l] + rest, k, v, false), k, w, false)
            == [l] + SetLines(SetLines(rest, k, v, false), k, w, false)
    ensures SetLines([l] + rest, k, w, false) == [l] + SetLines(rest, k, w, false)
  {
    SetCons(l, rest, k, v, false);
    SetCons(l, SetLines(rest, k, v, false), k, w, false);
    SetCons(l, rest, k, w, false);
  }

  /** A second set overwrites the first, so a set is idempotent. */
  lemma {:induction false} SetOverwrites(ls: seq<string>, k: string, v: string, w: string)
    requires IsKey(k)
    ensures SetLines(SetLines(ls, k, v, false), k, w, false) == SetLines(ls, k, w, false)
  {
    if ls == [] {
      NewLineIs("", k, v);
      SetCons(Line("", k, v), [], k, w, false);
    } else {
      assert ls == [ls[0]] + ls[1..];
      if IsFor(ls[0], k) {
        SetOverOwn(ls[0], ls[1..], k, v, w);
      } else {
        SetOverOther(ls[0], ls[1..], k, v, w);
        SetOverwrites(ls[1..], k, v, w);
      }
    }
  }

  /** Unset removes every line of the key and nothing else, whether or not a set came before. */
  lemma UnsetUndoesSet(ls: seq<string>, k: string, v: string)
    requires IsKey(k)
    ensures Values(Others(ls, k), k) == []
    ensures Others(SetLines(ls, k, v, false), k) == Others(ls, k)
  {
    OthersHaveNone(ls, k);
    SetGivesOneValue(ls, k, v);
  }

  // ----- the listing -----

  /** The first of each key, in order, without those already seen. */
  function FirstSeen(ks: seq<string>, seen: set<string>): seq<string> {
    if ks == [] then []
    else if ks[0] in seen then FirstSeen(ks[1..], seen)
    else [ks[0]] + FirstSeen(ks[1..], seen + {ks[0]})
  }

  /** What List returns for the lines of a file. */
  function Listing(ls: seq<string>): seq<string> { FirstSeen(ListLines(ls), {}) }

  lemma {:induction false} ListConcat(a: seq<string>, b: seq<string>)
    ensures ListLines(a + b) == ListLines(a) + ListLines(b)
    decreases |a|
  {
    if a == [] {
      assert a + b == b;
    } else {
      assert (a + b)[1..] == a[1..] + b;
      ListConcat(a[1..], b);
    }
  }

  lemma ListOne(l: string)
    ensures ListLines([l]) == Listed(l)
  {
    assert [l][1..] == [];
  }

  /** What a set does to the keys that are printed. */
  function SetKeys(ks: seq<string>, k: string, done: bool): seq<string> {
    if ks == [] then (if done then [] else [k])
    else if ks[0] == k then (if done then SetKeys(ks[1..], k, true) else [k] + SetKeys(ks[1..], k, true))
    else [ks[0]] + SetKeys(ks[1..], k, done)
  }

  function Without(ks: seq<string>, k: string): seq<string> {
    if ks == [] then [] else if ks[0] == k then Without(ks[1..], k) else [ks[0]] + Without(ks[1..], k)
  }

  lemma RewrittenListed(l: string, k: string, v: string, done: bool)
    requires IsKey(k)
    ensures ListLines(Rewritten(l, k, v, done)) == if IsFor(l, k) then (if done then [] else [k]) else Listed(l)
  {
    ListOne(l);
    if IsFor(l, k) {
      NewLineIs(l, k, v);
      ListOne(Line(Prefix(l), k, v));
    }
  }

  lemma {:induction false} SetListed(ls: seq<string>, k: string, v: string, done: bool)
    requires IsKey(k)
    ensures ListLines(SetLines(ls, k, v, done)) == SetKeys(ListLines(ls), k, done)
  {
    if ls == [] {
      NewLineIs("", k, v);
      ListOne(Line("", k, v));
    } else {
      var l, d := ls[0], done || IsFor(ls[0], k);
      ListConcat(Rewritten(l, k, v, done), SetLines(ls[1..], k, v, d));
      RewrittenListed(l, k, v, done);
      SetListed(ls[1..], k, v, d);
      ForIffListed(l, k);
      ListedHead(l, ListLines(ls[1..]), k, done);
    }
  }

  lemma ListedHead(l: string, ks: seq<string>, k: string, done: bool)
    ensures SetKeys(Listed(l) + ks, k, done)
            == (if KeyOf(l) == Some(k) then (if done then [] else [k]) else Listed(l))
               + SetKeys(ks, k, done || KeyOf(l) == Some(k))
    ensures Without(Listed(l) + ks, k) == (if KeyOf(l) == Some(k) then [] else Listed(l)) + Without(ks, k)
  {
    if KeyOf(l).Some? {
      assert (Listed(l) + ks)[1..] == ks;
    } else {
      assert [] + ks == ks;
    }
  }

  lemma {:induction false} UnsetListed(ls: seq<string>, k: string)
    requires IsKey(k)
    ensures ListLines(Others(ls, k)) == Without(ListLines(ls), k)
  {
    if ls != [] {
      ListConcat(Kept(ls[0], k), Others(ls[1..], k));
      ListOne(ls[0]);
      UnsetListed(ls[1..], k);
      ForIffListed(ls[0], k);
      ListedHead(ls[0], ListLines(ls[1..]), k, false);
    }
  }

  lemma SeenCons(x: string, ks: seq<string>, seen: set<string>)
    ensures FirstSeen([x] + ks, seen) == if x in seen then FirstSeen(ks, seen) else [x] + FirstSeen(ks, seen + {x})
  {
    assert ([x] + ks)[1..] == ks;
  }

  lemma {:induction false} SetSeen(ks: seq<string>, k: string, seen: set<string>)
    ensures var before := FirstSeen(ks, seen);
            FirstSeen(SetKeys(ks, k, k in seen), seen) == if k in seen || k in ks then before else before + [k]
  {
    if ks == [] {
      SeenCons(k, [], seen);
    } else {
      var x := ks[0];
      var seen' := seen + {x};
      SeenCons(x, SetKeys(ks[1..], k, k in seen'), seen);
      SetSeen(ks[1..], k, seen');
      if x in seen { assert seen' == seen; }
    }
  }

  lemma {:induction false} SeenAll(ks: seq<string>, seen: set<string>, k: string)
    ensures k in FirstSeen(ks, seen) <==> k in ks && k !in seen
  {
    if ks != [] { SeenAll(ks[1..], if ks[0] in seen then seen else seen + {ks[0]}, k); }
  }

  /** Listing after a set is the listing plus that key. */
  lemma ListOfSet(ls: seq<string>, k: string, v: string)
    requires IsKey(k)
    ensures Listing(SetLines(ls, k, v, false)) == if k in Listing(ls) then Listing(ls) else Listing(ls) + [k]
  {
    SetListed(ls, k, v, false);
    SetSeen(ListLines(ls), k, {});
    SeenAll(ListLines(ls), {}, k);
  }

  lemma WithoutCons(x: string, ks: seq<string>, k: string)
    ensures Without([x] + ks, k) == if x == k then Without(ks, k) else [x] + Without(ks, k)
  {
    assert ([x] + ks)[1..] == ks;
  }

  lemma {:induction false} UnsetSeen(ks: seq<string>, k: string, seen: set<string>, seen': set<string>)
    requires forall x | x != k :: x in seen <==> x in seen'
    ensures FirstSeen(Without(ks, k), seen) == Without(FirstSeen(ks, seen'), k)
  {
    if ks != [] {
      var x := ks[0];
      UnsetSeen(ks[1..], k, seen, seen');
      if x == k {
        UnsetSeen(ks[1..], k, seen, seen' + {k});
        WithoutCons(k, FirstSeen(ks[1..], seen' + {k}), k);
      } else {
        SeenCons(x, Without(ks[1..], k), seen);
        UnsetSeen(ks[1..], k, seen + {x}, seen' + {x});
        WithoutCons(x, FirstSeen(ks[1..], seen' + {x}), k);
      }
    }
  }

  /** Listing after an unset is the listing without that key. */
  lemma ListOfUnset(ls: seq<string>, k: string)
    requires IsKey(k)
    ensures Listing(Others(ls, k)) == Without(Listing(ls), k)
  {
    UnsetListed(ls, k);
    UnsetSeen(ListLines(ls), k, {}, {});
  }

  // ----- the file -----

  /** The lines awk reads: a missing newline at the end is as good as one. */
  function Lines(content: string): seq<string> {
    var parts := Split(content, '\n');
    if parts[|parts| - 1] == "" then parts[..|parts| - 1] else parts
  }

  function Unlines(ls: seq<string>): string { if ls == [] then "" else ls[0] + ['\n'] + Unlines(ls[1..]) }

  predicate OneLiners(ls: seq<string>) { forall l | l in ls :: '\n' !in l }

  lemma {:induction false} UnlinesSplit(ls: seq<string>)
    requires OneLiners(ls)
    ensures Split(Unlines(ls), '\n') == ls + [""]
  {
    if ls == [] {
      SplitNone("", '\n');
    } else {
      assert ls[0] in ls && forall l | l in ls[1..] :: l in ls;
      UnlinesSplit(ls[1..]);
      SplitCons(ls[0], Unlines(ls[1..]), '\n');
      Rejoin(ls, [""]);
    }
  }

  lemma Rejoin(ls: seq<string>, more: seq<string>)
    requires ls != []
    ensures [ls[0]] + (ls[1..] + more) == ls + more
    ensures [ls[0]] + ls[1..] == ls
  {
  }

  lemma LinesUnlines(ls: seq<string>)
    requires OneLiners(ls)
    ensures Lines(Unlines(ls)) == ls
  {
    UnlinesSplit(ls);
  }

  lemma {:induction false} SplitOneLiners(s: string)
    ensures OneLiners(Split(s, '\n'))
    decreases |s|
  {
    var i := IndexOf(s, '\n');
    if i < |s| { SplitOneLiners(s[i + 1..]); }
  }

  lemma LinesOneLiners(content: string)
    ensures OneLiners(Lines(content))
  {
    SplitOneLiners(content);
  }

  lemma {:induction false} SetOneLiners(ls: seq<string>, k: string, v: string, done: bool)
    requires OneLiners(ls) && IsKey(k) && '\n' !in v
    ensures OneLiners(SetLines(ls, k, v, done)) && OneLiners(Others(ls, k))
  {
    if ls != [] {
      assert ls[0] in ls && forall l | l in ls[1..] :: l in ls;
      SetOneLiners(ls[1..], k, v, done || IsFor(ls[0], k));
      assert '\n' !in Line(Prefix(ls[0]), k, v);
    }
  }

  /** What is read back of a file that set or unset wrote is what their programs printed. */
  lemma WrittenReadsBack(content: string, k: string, v: string)
    requires IsKey(k) && ValidValue(v)
    ensures Lines(Unlines(SetLines(Lines(content), k, v, false))) == SetLines(Lines(content), k, v, false)
    ensures Lines(Unlines(Others(Lines(content), k))) == Others(Lines(content), k)
  {
    LinesOneLiners(content);
    SetOneLiners(Lines(content), k, v, false);
    LinesUnlines(SetLines(Lines(content), k, v, false));
    LinesUnlines(Others(Lines(content), k));
  }

  // ----- the listing as it comes back over ssh -----

  /** What one printed line adds. */
  predicate Fresh(l: string, seen: set<string>) { l != "" && l !in seen && IsKey(l) }

  function Each(f: string -> string, parts: seq<string>): (ls: seq<string>)
    ensures |ls| == |parts|
  {
    if parts == [] then [] else [f(parts[0])] + Each(f, parts[1..])
  }

  function FreshOnes(ls: seq<string>, seen: set<string>): seq<string> {
    if ls == [] then []
    else if Fresh(ls[0], seen) then [ls[0]] + FreshOnes(ls[1..], seen + {ls[0]})
    else FreshOnes(ls[1..], seen)
  }

  lemma FreshNext(keys: seq<string>, l: string, ls: seq<string>, seen: set<string>)
    ensures keys + FreshOnes([l] + ls, seen)
            == if Fresh(l, seen) then keys + [l] + FreshOnes(ls, seen + {l}) else keys + FreshOnes(ls, seen)
  {
    assert ([l] + ls)[1..] == ls;
    var tail := FreshOnes(ls, seen + {l});
    assert keys + ([l] + tail) == keys + [l] + tail;
  }

  method ParseKeys(out: string) returns (keys: seq<string>)
    ensures keys == FreshOnes(Each(TrimSpace, Split(out, '\n')), {})
  {
    keys := [];
    var seen: set<string> := {};
    var parts := Split(out, '\n');
    assert parts[0..] == parts && [] + FreshOnes(Each(TrimSpace, parts), {}) == FreshOnes(Each(TrimSpace, parts), {});
    for i := 0 to |parts|
      invariant keys + FreshOnes(Each(TrimSpace, parts[i..]), seen) == FreshOnes(Each(TrimSpace, parts), {})
    {
      var l := TrimSpace(parts[i]);
      assert parts[i..][1..] == parts[i + 1..];
      FreshNext(keys, l, Each(TrimSpace, parts[i + 1..]), seen);
      if l == "" || l in seen || !IsKey(l) { continue; }
      seen := seen + {l};
      keys := keys + [l];
    }
    assert parts[|parts|..] == [] && keys + [] == keys;
  }

  lemma KeyTrims(k: string)
    requires IsKey(k)
    ensures TrimSpace(k) == k && '\n' !in k
  {
    TrimLeftNone(k);
    TrimRightNone(k);
  }

  lemma {:induction false} EachKept(f: string -> string, ks: seq<string>)
    requires forall k | k in ks :: f(k) == k
    ensures Each(f, ks) == ks
    decreases |ks|
  {
    if ks != [] {
      assert ks[0] in ks && forall k | k in ks[1..] :: k in ks;
      EachKept(f, ks[1..]);
      Rejoin(ks, []);
    }
  }

  lemma {:induction false} KeysFresh(ks: seq<string>, seen: set<string>)
    requires forall k | k in ks :: IsKey(k)
    ensures FreshOnes(ks + [""], seen) == FirstSeen(ks, seen)
    decreases |ks|
  {
    if ks == [] {
      assert (ks + [""])[1..] == [];
    } else {
      assert ks[0] in ks && forall k | k in ks[1..] :: k in ks;
      assert (ks + [""])[1..] == ks[1..] + [""];
      KeysFresh(ks[1..], if ks[0] in seen then seen else seen + {ks[0]});
    }
  }

  lemma {:induction false} ListedAreKeys(ls: seq<string>)
    ensures forall k | k in ListLines(ls) :: IsKey(k) && '\n' !in k
  {
    if ls != [] {
      ListedAreKeys(ls[1..]);
      if KeyOf(ls[0]).Some? { KeyTrims(KeyOf(ls[0]).value); }
    }
  }

  /** The listing parsed on this side is the file's listing: nothing is lost or added on the way. */
  lemma ListingComesBack(ls: seq<string>)
    ensures FreshOnes(Each(TrimSpace, Split(Unlines(ListLines(ls)), '\n')), {}) == Listing(ls)
  {
    ListedAreKeys(ls);
    UnlinesSplit(ListLines(ls));
    var out := ListLines(ls) + [""];
    forall k | k in out ensures TrimSpace(k) == k {
      if k == "" {
        TrimLeftNone("");
        TrimRightNone("");
      } else {
        KeyTrims(k);
      }
    }
    EachKept(TrimSpace, out);
    KeysFresh(ListLines(ls), {});
  }

  // ----- the file on the host -----

  function TextOf(file: Option<string>): string { if file.Some? then file.value else "" }

  class Host {
    var file: Option<string>

    ghost function Read(): seq<string>
      reads this
    {
      Lines(TextOf(file))
    }

    /** Nothing is sent when the key or the value is refused. */
    method Set(key: string, value: string) returns (ok: bool)
      modifies this
      ensures ok <==> IsKey(key) && ValidValue(value)
      ensures ok ==> file.Some? && Read() == SetLines(old(Read()), key, value, false)
      ensures ok ==> Values(Read(), key) == [value]
      ensures !ok ==> file == old(file)
    {
      if !IsKey(key) || !ValidValue(value) { return false; }
      var content := TextOf(file);
      var out := RunSet(Lines(content), key, value);
      WrittenReadsBack(content, key, value);
      SetGivesOneValue(Lines(content), key, value);
      file := Some(Unlines(out));
      return true;
    }

    /** A missing file has nothing to remove and stays missing. */
    method Unset(key: string) returns (ok: bool)
      modifies this
      ensures ok <==> IsKey(key)
      ensures ok && old(file).Some? ==> file.Some? && Read() == Others(old(Read()), key)
      ensures ok ==> Values(Read(), key) == []
      ensures !ok || old(file).None? ==> file == old(file)
    {
      if !IsKey(key) { return false; }
      if file.None? {
        SplitNone("", '\n');
        return true;
      }
      var out := RunUnset(Lines(file.value), key);
      WrittenReadsBack(file.value, key, "");
      OthersHaveNone(Lines(file.value), key);
      file := Some(Unlines(out));
      return true;
    }

    method List() returns (keys: seq<string>)
      ensures keys == Listing(Read())
    {
      var ls := Lines(TextOf(file));
      var printed := RunList(ls);
      ListingComesBack(ls);
      if file.None? {
        SplitNone("", '\n');
        assert Unlines(printed) == "";
      }
      keys := ParseKeys(if file.Some? then Unlines(printed) else "");
    }
  }
}
