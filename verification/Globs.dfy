/** The ignore globs of a deploy directory: what a glob's expression accepts, segment by segment, and
    ignored, which asks it about a path and every directory above it. */
module Globs {
  import opened Text
  import opened GlobPattern

  // ----- a glob by its segments -----

  /** A segment's wildcards within a segment of the path. */
  predicate Wild(w: string, x: string) {
    if w == "" then x == ""
    else if w[0] == '*' then exists k: nat | k <= |x| :: Wild(w[1..], x[k..])
    else x != "" && (w[0] == '?' || w[0] == x[0]) && Wild(w[1..], x[1..])
  }

  lemma WildOf(w: string, x: string) returns (k: nat)
    requires w != "" && w[0] == '*' && Wild(w, x)
    ensures k <= |x| && Wild(w[1..], x[k..])
  {
    k :| k <= |x| && Wild(w[1..], x[k..]);
  }

  lemma WildMakes(w: string, x: string, k: nat)
    requires w != "" && w[0] == '*' && k <= |x| && Wild(w[1..], x[k..])
    ensures Wild(w, x)
  {
  }

  /** `**` stands for any number of segments, at least one at the end of the glob; the others for one. */
  predicate Segments(gs: seq<string>, ps: seq<string>) {
    if gs == [] then ps == []
    else if gs[0] == "**" then
      if |gs| == 1 then ps != [] else exists k: nat | k <= |ps| :: Segments(gs[1..], ps[k..])
    else ps != [] && Wild(gs[0], ps[0]) && Segments(gs[1..], ps[1..])
  }

  lemma SegmentsOf(gs: seq<string>, ps: seq<string>) returns (k: nat)
    requires |gs| > 1 && gs[0] == "**" && Segments(gs, ps)
    ensures k <= |ps| && Segments(gs[1..], ps[k..])
  {
    k :| k <= |ps| && Segments(gs[1..], ps[k..]);
  }

  lemma SegmentsMake(gs: seq<string>, ps: seq<string>, k: nat)
    requires |gs| > 1 && gs[0] == "**" && k <= |ps| && Segments(gs[1..], ps[k..])
    ensures Segments(gs, ps)
  {
  }

  /** A segment in which no two stars stand together. */
  predicate PlainSegment(w: string) {
    '/' !in w && forall i | 0 <= i < |w| - 1 :: !(w[i] == '*' && w[i + 1] == '*')
  }

  /** `**` only as a whole segment, as gitignore-style globs use it. */
  predicate Clean(gs: seq<string>) { gs != [] && forall g | g in gs :: g == "**" || PlainSegment(g) }

  lemma {:induction false} NoSegments(gs: seq<string>, ps: seq<string>)
    requires gs != [] && ps == []
    ensures !Segments(gs, ps)
    decreases |gs|
  {
    if |gs| > 1 { NoSegments(gs[1..], ps); }
    assert forall k: nat | k <= |ps| :: ps[k..] == ps;
  }

  // ----- one segment -----

  lemma PlainTail(w: string)
    requires PlainSegment(w) && w != ""
    ensures PlainSegment(w[1..])
  {
    forall i | 0 <= i < |w[1..]| - 1 ensures !(w[1..][i] == '*' && w[1..][i + 1] == '*') {
      assert w[1..][i] == w[i + 1] && w[1..][i + 1] == w[i + 2];
    }
  }

  function CharTok(c: char): Tok { if c == '*' then Many else if c == '?' then One else Lit(c) }

  /** The first token of a plain segment is its first character, also when a slash and more follow. */
  lemma PlainToken(w: string, rest: string)
    requires PlainSegment(w) && w != "" && (rest == "" || rest[0] == '/')
    ensures Token(w + rest) == (CharTok(w[0]), 1)
  {
    var all := w + rest;
    assert |w| > 1 ==> all[1] == w[1];
    assert |w| == 1 && |all| > 1 ==> all[1] == rest[0];
  }

  /** A plain segment's tokens are its characters. */
  lemma {:induction false} PlainTokens(w: string, rest: string)
    requires PlainSegment(w) && (rest == "" || rest[0] == '/')
    ensures Tokens(w + rest) == Tokens(w) + Tokens(rest)
    decreases |w|
  {
    if w == "" {
      assert w + rest == rest;
    } else {
      PlainTail(w);
      PlainTokens(w[1..], rest);
      PlainToken(w, rest);
      TokensTail(w);
      assert (w + rest)[1..] == w[1..] + rest;
      Regroup([CharTok(w[0])], Tokens(w[1..]), Tokens(rest));
    }
  }

  lemma TokensTail(w: string)
    requires PlainSegment(w) && w != ""
    ensures Tokens(w) == [CharTok(w[0])] + Tokens(w[1..])
  {
    PlainToken(w, "");
    assert w + "" == w;
  }

  /** A plain segment takes what its wildcards match, and no slash. */
  lemma {:induction false} SegmentTakes(w: string, x: string)
    requires PlainSegment(w)
    ensures Toked(Tokens(w), x) <==> '/' !in x && Wild(w, x)
    decreases |w|, 1
  {
    if w != "" {
      PlainTail(w);
      TokensTail(w);
      if w[0] == '*' { StarTakes(w, Tokens(w[1..]), x); } else { CharTakes(w, Tokens(w[1..]), x); }
    }
  }

  lemma {:induction false} StarTakes(w: string, ts: seq<Tok>, x: string)
    requires PlainSegment(w) && w != "" && w[0] == '*' && PlainSegment(w[1..]) && ts == Tokens(w[1..])
    ensures Toked([Many] + ts, x) <==> '/' !in x && Wild(w, x)
    decreases |w|, 0
  {
    if Toked([Many] + ts, x) {
      var k := TakeOf(Many, ts, x);
      SegmentTakes(w[1..], x[k..]);
      StarForth(w, x, k);
    }
    if '/' !in x && Wild(w, x) {
      var k := WildOf(w, x);
      SegmentTakes(w[1..], x[k..]);
      StarBack(ts, x, k);
    }
  }

  lemma StarForth(w: string, x: string, k: nat)
    requires w != "" && w[0] == '*' && k <= |x| && '/' !in x[..k] && '/' !in x[k..] && Wild(w[1..], x[k..])
    ensures '/' !in x && Wild(w, x)
  {
    assert x == x[..k] + x[k..];
    WildMakes(w, x, k);
  }

  lemma StarBack(ts: seq<Tok>, x: string, k: nat)
    requires k <= |x| && '/' !in x && Toked(ts, x[k..])
    ensures Toked([Many] + ts, x)
  {
    TakeMakes(Many, ts, x, k);
  }

  lemma {:induction false} CharTakes(w: string, ts: seq<Tok>, x: string)
    requires PlainSegment(w) && w != "" && w[0] != '*' && PlainSegment(w[1..]) && ts == Tokens(w[1..])
    ensures Toked([CharTok(w[0])] + ts, x) <==> '/' !in x && Wild(w, x)
    decreases |w|, 0
  {
    var t := CharTok(w[0]);
    if x != "" {
      assert x == [x[0]] + x[1..] && x[..1] == [x[0]];
      SegmentTakes(w[1..], x[1..]);
    }
    if Toked([t] + ts, x) {
      var k := TakeOf(t, ts, x);
      assert |x[..k]| == 1 && k == 1;
    }
    if '/' !in x && Wild(w, x) { TakeMakes(t, ts, x, 1); }
  }

  // ----- segment after segment -----

  lemma SlashTakes(more: seq<Tok>, s: string)
    ensures Toked([Lit('/')] + more, s) <==> s != "" && s[0] == '/' && Toked(more, s[1..])
  {
    if Toked([Lit('/')] + more, s) {
      var j := TakeOf(Lit('/'), more, s);
      assert |s[..j]| == 1 && s[..j][0] == s[0];
    }
    if s != "" && s[0] == '/' && Toked(more, s[1..]) {
      assert s[..1] == "/";
      TakeMakes(Lit('/'), more, s, 1);
    }
  }

  /** The wildcards match the path up to its first slash, at i, and the rest of the glob takes what follows. */
  predicate TakesTo(w: string, more: seq<Tok>, s: string, i: nat) {
    i < |s| && s[i] == '/' && '/' !in s[..i] && Wild(w, s[..i]) && Toked(more, s[i + 1..])
  }

  predicate TakesThen(w: string, more: seq<Tok>, s: string) { exists i: nat | i < |s| :: TakesTo(w, more, s, i) }

  lemma Cuts(s: string, k: nat, i: nat)
    requires k <= i < |s|
    ensures s[k..][i - k] == s[i] && s[k..][..i - k] == s[..i][k..] && s[k..][i - k + 1..] == s[i + 1..]
    ensures s[..i][..k] == s[..k] && s[..i] == s[..k] + s[..i][k..]
  {
  }

  /** A star may pass over anything up to the slash. */
  lemma StarThen(w: string, more: seq<Tok>, s: string, k: nat)
    requires w != "" && w[0] == '*' && k <= |s| && '/' !in s[..k] && TakesThen(w[1..], more, s[k..])
    ensures TakesThen(w, more, s)
  {
    var j: nat :| j < |s[k..]| && TakesTo(w[1..], more, s[k..], j);
    var i := k + j;
    Cuts(s, k, i);
    WildMakes(w, s[..i], k);
    assert TakesTo(w, more, s, i);
  }

  lemma StarThenOf(w: string, more: seq<Tok>, s: string) returns (k: nat)
    requires w != "" && w[0] == '*' && TakesThen(w, more, s)
    ensures k <= |s| && '/' !in s[..k] && TakesThen(w[1..], more, s[k..])
  {
    var i: nat :| i < |s| && TakesTo(w, more, s, i);
    k := WildOf(w, s[..i]);
    Cuts(s, k, i);
    assert TakesTo(w[1..], more, s[k..], i - k);
  }

  /** One character of the segment takes one of the path. */
  lemma CharThen(w: string, more: seq<Tok>, s: string)
    requires w != "" && w[0] != '*' && w[0] != '/'
    ensures TakesThen(w, more, s) <==> s != "" && Takes(CharTok(w[0]), s[..1]) && TakesThen(w[1..], more, s[1..])
  {
    if TakesThen(w, more, s) {
      var i: nat :| i < |s| && TakesTo(w, more, s, i);
      Cuts(s, 1, i);
      assert s[..1] == [s[0]] && s[..i][0] == s[0];
      assert TakesTo(w[1..], more, s[1..], i - 1);
    }
    if s != "" && Takes(CharTok(w[0]), s[..1]) && TakesThen(w[1..], more, s[1..]) {
      var j: nat :| j < |s[1..]| && TakesTo(w[1..], more, s[1..], j);
      Cuts(s, 1, j + 1);
      assert s[..1] == [s[0]] && s[..j + 1][0] == s[0] && s[..j + 1][1..] == s[1..][..j];
      assert TakesTo(w, more, s, j + 1);
    }
  }

  lemma ThenIsFirst(w: string, more: seq<Tok>, s: string)
    ensures var i := IndexOf(s, '/');
            TakesThen(w, more, s) <==> i < |s| && Wild(w, s[..i]) && Toked(more, s[i + 1..])
  {
    var i := IndexOf(s, '/');
    if TakesThen(w, more, s) {
      var j: nat :| j < |s| && TakesTo(w, more, s, j);
      IndexOfIs(s, '/', j);
    }
    if i < |s| && Wild(w, s[..i]) && Toked(more, s[i + 1..]) { assert TakesTo(w, more, s, i); }
  }

  lemma SlashFirst(more: seq<Tok>, s: string)
    ensures TakesThen("", more, s) <==> s != "" && s[0] == '/' && Toked(more, s[1..])
  {
    if TakesThen("", more, s) {
      var i: nat :| i < |s| && TakesTo("", more, s, i);
      assert i == 0;
    }
    if s != "" && s[0] == '/' && Toked(more, s[1..]) { assert TakesTo("", more, s, 0); }
  }

  /** A plain segment, a slash and more take a path whose first segment the wildcards match. */
  lemma {:induction false} SegmentThen(w: string, more: seq<Tok>, s: string)
    requires PlainSegment(w)
    ensures Toked(Tokens(w) + ([Lit('/')] + more), s) <==> TakesThen(w, more, s)
    decreases |w|, 1
  {
    var b := [Lit('/')] + more;
    if w == "" {
      assert [] + b == b;
      SlashTakes(more, s);
      SlashFirst(more, s);
    } else {
      PlainTail(w);
      TokensTail(w);
      var ts := Tokens(w[1..]) + b;
      Regroup([CharTok(w[0])], Tokens(w[1..]), b);
      if w[0] == '*' { StarTakesThen(w, more, ts, s); } else { CharTakesThen(w, more, ts, s); }
    }
  }

  lemma {:induction false} StarTakesThen(w: string, more: seq<Tok>, ts: seq<Tok>, s: string)
    requires w != "" && w[0] == '*' && PlainSegment(w[1..]) && ts == Tokens(w[1..]) + ([Lit('/')] + more)
    ensures Toked([Many] + ts, s) <==> TakesThen(w, more, s)
    decreases |w|, 0
  {
    if Toked([Many] + ts, s) {
      var k := TakeOf(Many, ts, s);
      SegmentThen(w[1..], more, s[k..]);
      StarThen(w, more, s, k);
    }
    if TakesThen(w, more, s) {
      var k := StarThenOf(w, more, s);
      SegmentThen(w[1..], more, s[k..]);
      TakeMakes(Many, ts, s, k);
    }
  }

  lemma {:induction false} CharTakesThen(w: string, more: seq<Tok>, ts: seq<Tok>, s: string)
    requires w != "" && w[0] != '*' && w[0] != '/' && PlainSegment(w[1..]) && ts == Tokens(w[1..]) + ([Lit('/')] + more)
    ensures Toked([CharTok(w[0])] + ts, s) <==> TakesThen(w, more, s)
    decreases |w|, 0
  {
    CharThen(w, more, s);
    if s != "" { SegmentThen(w[1..], more, s[1..]); }
    if Toked([CharTok(w[0])] + ts, s) {
      var k := TakeOf(CharTok(w[0]), ts, s);
      assert |s[..k]| == 1 && k == 1;
    }
    if TakesThen(w, more, s) { TakeMakes(CharTok(w[0]), ts, s, 1); }
  }

  lemma {:induction false} SplitAvoids(s: string)
    ensures forall p | p in Split(s, '/') :: '/' !in p
    decreases |s|
  {
    var i := IndexOf(s, '/');
    if i < |s| { SplitAvoids(s[i + 1..]); }
  }

  lemma {:induction false} JoinSplit(s: string)
    ensures Join(Split(s, '/'), '/') == s
    decreases |s|
  {
    var i := IndexOf(s, '/');
    if i < |s| {
      JoinSplit(s[i + 1..]);
      assert Split(s, '/')[1..] == Split(s[i + 1..], '/');
    }
  }

  lemma {:induction false} JoinConcat(a: seq<string>, b: seq<string>)
    requires a != [] && b != []
    ensures Join(a + b, '/') == Join(a, '/') + ['/'] + Join(b, '/')
    decreases |a|
  {
    if |a| == 1 {
      assert (a + b)[1..] == b;
    } else {
      assert (a + b)[1..] == a[1..] + b;
      JoinConcat(a[1..], b);
      Regroup(a[0] + ['/'], Join(a[1..], '/') + ['/'], Join(b, '/'));
      Regroup(a[0] + ['/'], Join(a[1..], '/'), ['/']);
    }
  }

  lemma SplitConcat(x: string, y: string)
    ensures Split(x + ['/'] + y, '/') == Split(x, '/') + Split(y, '/')
  {
    var a, b := Split(x, '/'), Split(y, '/');
    JoinSplit(x);
    JoinSplit(y);
    JoinConcat(a, b);
    SplitAvoids(x);
    SplitAvoids(y);
    SplitJoin(a + b, '/');
  }

  /** Cutting a path after a slash drops whole segments. */
  lemma SegmentsAfter(s: string, k: nat) returns (j: nat)
    requires k <= |s| && (k > 0 ==> s[k - 1] == '/')
    ensures j <= |Split(s, '/')| && Split(s, '/')[j..] == Split(s[k..], '/')
  {
    if k == 0 {
      j := 0;
      assert s[0..] == s;
    } else {
      var x, y := s[..k - 1], s[k..];
      assert s == x + ['/'] + y;
      SplitConcat(x, y);
      j := |Split(x, '/')|;
    }
  }

  lemma CutBefore(s: string, j: nat) returns (k: nat)
    requires j < |Split(s, '/')|
    ensures k <= |s| && (k > 0 ==> s[k - 1] == '/') && Split(s, '/')[j..] == Split(s[k..], '/')
  {
    var ps := Split(s, '/');
    if j == 0 {
      k := 0;
      assert s[0..] == s;
    } else {
      var x, y := Join(ps[..j], '/'), Join(ps[j..], '/');
      JoinSplit(s);
      JoinConcat(ps[..j], ps[j..]);
      assert ps == ps[..j] + ps[j..];
      k := |x| + 1;
      assert s == x + ['/'] + y && s[k..] == y;
      SplitAvoids(s);
      SplitJoin(ps[j..], '/');
    }
  }

  lemma DirsTokens(rest: string)
    ensures Tokens("**" + ['/'] + rest) == [Dirs] + Tokens(rest)
  {
    var g := "**" + ['/'] + rest;
    assert g[3..] == rest;
  }

  lemma DeepTokens()
    ensures Tokens("**") == [Deep] + []
  {
    assert "**"[2..] == "";
  }

  lemma {:induction false} SegmentsTake(gs: seq<string>, s: string)
    requires Clean(gs) && '\n' !in s
    ensures Toked(Tokens(Join(gs, '/')), s) <==> Segments(gs, Split(s, '/'))
    decreases |gs|
  {
    if |gs| == 1 {
      OnlySegment(gs, s);
    } else {
      assert Clean(gs[1..]) by { assert forall g | g in gs[1..] :: g in gs; }
      assert gs[0] in gs;
      if gs[0] == "**" { DirsFirst(gs, s); } else { PlainFirst(gs, s); }
    }
  }

  lemma OnlySegment(gs: seq<string>, s: string)
    requires |gs| == 1 && Clean(gs) && '\n' !in s
    ensures Toked(Tokens(Join(gs, '/')), s) <==> Segments(gs, Split(s, '/'))
  {
    assert gs[0] in gs && gs[1..] == [];
    if gs[0] == "**" {
      DeepTokens();
      assert s[..|s|] == s && s[|s|..] == "";
      TakeMakes(Deep, [], s, |s|);
    } else {
      SegmentTakes(gs[0], s);
      if '/' !in s { SplitNone(s, '/'); }
    }
  }

  lemma {:induction false} DirsFirst(gs: seq<string>, s: string)
    requires |gs| > 1 && gs[0] == "**" && Clean(gs[1..]) && '\n' !in s
    ensures Toked(Tokens(Join(gs, '/')), s) <==> Segments(gs, Split(s, '/'))
    decreases |gs|, 0, 2
  {
    DirsTokens(Join(gs[1..], '/'));
    DirsBoth(gs, Tokens(Join(gs[1..], '/')), s);
  }

  lemma {:induction false} DirsBoth(gs: seq<string>, ts: seq<Tok>, s: string)
    requires |gs| > 1 && gs[0] == "**" && Clean(gs[1..]) && '\n' !in s && ts == Tokens(Join(gs[1..], '/'))
    ensures Toked([Dirs] + ts, s) <==> Segments(gs, Split(s, '/'))
    decreases |gs|, 0, 1
  {
    if Toked([Dirs] + ts, s) {
      var k := TakeOf(Dirs, ts, s);
      assert k > 0 ==> s[..k][k - 1] == s[k - 1];
      AnyDirs(gs, ts, s, k);
    }
    if Segments(gs, Split(s, '/')) {
      var k := SomeDirs(gs, ts, s);
      DirsTake(ts, s, k);
    }
  }

  lemma DirsTake(ts: seq<Tok>, s: string, k: nat)
    requires k <= |s| && (k > 0 ==> s[k - 1] == '/') && '\n' !in s && Toked(ts, s[k..])
    ensures Toked([Dirs] + ts, s)
  {
    TakeMakes(Dirs, ts, s, k);
  }

  lemma {:induction false} AnyDirs(gs: seq<string>, ts: seq<Tok>, s: string, k: nat)
    requires |gs| > 1 && gs[0] == "**" && Clean(gs[1..]) && '\n' !in s && ts == Tokens(Join(gs[1..], '/'))
    requires k <= |s| && (k > 0 ==> s[k - 1] == '/') && Toked(ts, s[k..])
    ensures Segments(gs, Split(s, '/'))
    decreases |gs|, 0, 0
  {
    var j := SegmentsAfter(s, k);
    SegmentsTake(gs[1..], s[k..]);
    SegmentsMake(gs, Split(s, '/'), j);
  }

  lemma SegmentsSome(gs: seq<string>, ps: seq<string>) returns (j: nat)
    requires |gs| > 1 && gs[0] == "**" && Segments(gs, ps)
    ensures j < |ps| && Segments(gs[1..], ps[j..])
  {
    j := SegmentsOf(gs, ps);
    NoSegments(gs[1..], []);
    assert ps[|ps|..] == [];
  }

  lemma {:induction false} SomeDirs(gs: seq<string>, ts: seq<Tok>, s: string) returns (k: nat)
    requires |gs| > 1 && gs[0] == "**" && Clean(gs[1..]) && '\n' !in s && ts == Tokens(Join(gs[1..], '/'))
    requires Segments(gs, Split(s, '/'))
    ensures k <= |s| && (k > 0 ==> s[k - 1] == '/') && Toked(ts, s[k..])
    decreases |gs|, 0, 0
  {
    var j := SegmentsSome(gs, Split(s, '/'));
    k := CutBefore(s, j);
    SegmentsTake(gs[1..], s[k..]);
  }

  lemma SlashTokens(rest: string)
    ensures Tokens(['/'] + rest) == [Lit('/')] + Tokens(rest)
  {
    assert (['/'] + rest)[1..] == rest;
  }

  lemma PlainThenTokens(w: string, rest: string, tail: string)
    requires PlainSegment(w) && tail == ['/'] + rest
    ensures Tokens(w + tail) == Tokens(w) + ([Lit('/')] + Tokens(rest))
  {
    PlainTokens(w, tail);
    SlashTokens(rest);
  }

  lemma JoinPlain(gs: seq<string>)
    requires |gs| > 1 && PlainSegment(gs[0])
    ensures Tokens(Join(gs, '/')) == Tokens(gs[0]) + ([Lit('/')] + Tokens(Join(gs[1..], '/')))
  {
    var rest := Join(gs[1..], '/');
    PlainThenTokens(gs[0], rest, ['/'] + rest);
    Regroup(gs[0], ['/'], rest);
  }

  lemma SegmentsCons(gs: seq<string>, ps: seq<string>)
    requires |gs| > 1 && PlainSegment(gs[0])
    ensures Segments(gs, ps) <==> |ps| > 1 && Wild(gs[0], ps[0]) && Segments(gs[1..], ps[1..])
  {
    if |ps| == 1 { NoSegments(gs[1..], ps[1..]); }
  }

  lemma SplitFirst(s: string, i: nat)
    requires i == IndexOf(s, '/')
    ensures Split(s, '/') == if i < |s| then [s[..i]] + Split(s[i + 1..], '/') else [s]
  {
  }

  lemma {:induction false} PlainFirst(gs: seq<string>, s: string)
    requires |gs| > 1 && PlainSegment(gs[0]) && Clean(gs[1..]) && '\n' !in s
    ensures Toked(Tokens(Join(gs, '/')), s) <==> Segments(gs, Split(s, '/'))
    decreases |gs|, 0
  {
    var more, i := Tokens(Join(gs[1..], '/')), IndexOf(s, '/');
    JoinPlain(gs);
    SegmentThen(gs[0], more, s);
    ThenIsFirst(gs[0], more, s);
    SegmentsCons(gs, Split(s, '/'));
    SplitFirst(s, i);
    if i < |s| {
      assert ([s[..i]] + Split(s[i + 1..], '/'))[1..] == Split(s[i + 1..], '/');
      SegmentsTake(gs[1..], s[i + 1..]);
    }
  }

  // ----- what the program's globs match -----

  function BytesAll(gs: seq<string>): (bs: seq<string>)
    ensures |bs| == |gs| && forall i | 0 <= i < |gs| :: bs[i] == Bytes(gs[i])
  {
    if gs == [] then [] else [Bytes(gs[0])] + BytesAll(gs[1..])
  }

  lemma {:induction false} BytesConcat(a: string, b: string)
    ensures Bytes(a + b) == Bytes(a) + Bytes(b)
    decreases |a|
  {
    if a == "" {
      assert a + b == b;
    } else {
      assert (a + b)[1..] == a[1..] + b;
      BytesConcat(a[1..], b);
    }
  }

  lemma {:induction false} BytesJoin(gs: seq<string>)
    ensures Bytes(Join(gs, '/')) == Join(BytesAll(gs), '/')
    decreases |gs|
  {
    if |gs| > 1 {
      BytesJoin(gs[1..]);
      BytesConcat(gs[0] + ['/'], Join(gs[1..], '/'));
      BytesConcat(gs[0], ['/']);
      assert Bytes(['/']) == ['/'] by { assert ['/'][1..] == ""; }
      assert BytesAll(gs)[1..] == BytesAll(gs[1..]);
    }
  }

  /** The special characters of a glob are its own: no byte of another character is taken for one. */
  lemma {:induction false} BytesPlain(w: string)
    requires PlainSegment(w)
    ensures PlainSegment(Bytes(w))
    ensures Bytes(w) != "" && Bytes(w)[0] == '*' ==> w != "" && w[0] == '*'
    decreases |w|
  {
    if w != "" {
      PlainTail(w);
      BytesPlain(w[1..]);
      var a, b := Utf8(w[0]), Bytes(w[1..]);
      forall i | 0 <= i < |a + b| - 1 ensures !((a + b)[i] == '*' && (a + b)[i + 1] == '*') {
        if i >= |a| { assert (a + b)[i] == b[i - |a|] && (a + b)[i + 1] == b[i + 1 - |a|]; }
      }
    }
  }

  lemma BytesClean(gs: seq<string>)
    requires Clean(gs)
    ensures Clean(BytesAll(gs))
  {
    assert Bytes("**") == "**" by { BytesLonger("**"); }
    forall b | b in BytesAll(gs) ensures b == "**" || PlainSegment(b) {
      var i :| 0 <= i < |gs| && BytesAll(gs)[i] == b;
      assert gs[i] in gs;
      if gs[i] != "**" { BytesPlain(gs[i]); }
    }
  }

  /** For a path without a line break, a glob's expression accepts exactly what the segments of the glob
      match when each of its bytes is taken for a character. */
  lemma GlobIsItsBytes(gs: seq<string>, s: string)
    requires Clean(gs) && '\n' !in s
    ensures Matches(Join(gs, '/'), s) <==> Segments(BytesAll(gs), Split(s, '/'))
  {
    BytesJoin(gs);
    BytesClean(gs);
    TokedIff(Tokens(Join(BytesAll(gs), '/')), s);
    SegmentsTake(BytesAll(gs), s);
  }

  predicate AllAscii(gs: seq<string>) { forall g | g in gs :: Ascii(g) }

  lemma AsciiBytes(gs: seq<string>)
    requires AllAscii(gs)
    ensures BytesAll(gs) == gs
  {
    forall i | 0 <= i < |gs| ensures BytesAll(gs)[i] == gs[i] {
      assert gs[i] in gs;
      BytesLonger(gs[i]);
    }
  }

  /** For an ASCII glob, exactly what its segments match. */
  lemma GlobIsItsSegments(gs: seq<string>, s: string)
    requires Clean(gs) && AllAscii(gs) && '\n' !in s
    ensures Matches(Join(gs, '/'), s) <==> Segments(gs, Split(s, '/'))
  {
    GlobIsItsBytes(gs, s);
    AsciiBytes(gs);
  }

  /** A path is read right for every ASCII glob exactly when it has no line break: `.` does not match one. */
  lemma NoLineBreakIff(s: string)
    ensures '\n' !in s <==>
            forall gs | Clean(gs) && AllAscii(gs) :: Matches(Join(gs, '/'), s) == Segments(gs, Split(s, '/'))
  {
    if '\n' !in s {
      forall gs | Clean(gs) && AllAscii(gs) ensures Matches(Join(gs, '/'), s) == Segments(gs, Split(s, '/')) {
        GlobIsItsSegments(gs, s);
      }
    } else {
      DeepRefuses(s);
    }
  }

  lemma DeepRefuses(s: string)
    requires '\n' in s
    ensures var gs := ["**"]; Clean(gs) && AllAscii(gs) && !Matches(Join(gs, '/'), s) && Segments(gs, Split(s, '/'))
  {
    assert Bytes("**") == "**" by { BytesLonger("**"); }
    DeepTokens();
    ResCons(Deep, []);
    LastAccepts(Star(Dot), s);
    DeepAccepts(s);
  }

  // ----- and beyond ASCII -----

  /** How much of a path a segment needs: a character for each of its own but the stars. */
  function Least(w: string): nat {
    if w == "" then 0 else (if w[0] == '*' then 0 else 1) + Least(w[1..])
  }

  lemma {:induction false} WildNeeds(w: string, x: string)
    requires Wild(w, x)
    ensures |x| >= Least(w)
    decreases |w|
  {
    if w != "" {
      if w[0] == '*' {
        var k := WildOf(w, x);
        WildNeeds(w[1..], x[k..]);
      } else {
        WildNeeds(w[1..], x[1..]);
      }
    }
  }

  function LeastOf(gs: seq<string>): nat {
    if gs == [] then 0 else (if gs[0] == "**" then 0 else Least(gs[0])) + LeastOf(gs[1..])
  }

  function Total(ps: seq<string>): nat { if ps == [] then 0 else |ps[0]| + Total(ps[1..]) }

  lemma {:induction false} TotalFrom(ps: seq<string>, k: nat)
    requires k <= |ps|
    ensures Total(ps[k..]) <= Total(ps)
    decreases k
  {
    if k == 0 {
      assert ps[0..] == ps;
    } else {
      assert ps[k..] == ps[1..][k - 1..];
      TotalFrom(ps[1..], k - 1);
    }
  }

  lemma {:induction false} SegmentsNeed(gs: seq<string>, ps: seq<string>)
    requires Segments(gs, ps)
    ensures Total(ps) >= LeastOf(gs)
    decreases |gs|
  {
    if gs != [] {
      if gs[0] != "**" {
        WildNeeds(gs[0], ps[0]);
        SegmentsNeed(gs[1..], ps[1..]);
      } else if |gs| > 1 {
        var k := SegmentsOf(gs, ps);
        TotalFrom(ps, k);
        SegmentsNeed(gs[1..], ps[k..]);
      }
    }
  }

  /** The shortest a segment's wildcards match. */
  function Shortest(w: string): string {
    if w == "" then "" else (if w[0] == '*' then "" else if w[0] == '?' then "a" else [w[0]]) + Shortest(w[1..])
  }

  lemma {:induction false} ShortestIs(w: string)
    ensures |Shortest(w)| == Least(w) && Wild(w, Shortest(w))
    ensures forall c | c in Shortest(w) :: c == 'a' || c in w
    decreases |w|
  {
    if w != "" {
      ShortestIs(w[1..]);
      var x := Shortest(w);
      if w[0] == '*' {
        assert x == Shortest(w[1..]) && x[0..] == x;
        WildMakes(w, x, 0);
      } else {
        assert x[1..] == Shortest(w[1..]);
      }
      assert w == [w[0]] + w[1..];
    }
  }

  function ShortestPath(gs: seq<string>): seq<string> {
    if gs == [] then []
    else if gs[0] == "**" then (if |gs| == 1 then [""] else ShortestPath(gs[1..]))
    else [Shortest(gs[0])] + ShortestPath(gs[1..])
  }

  lemma {:induction false} ShortestPathIs(gs: seq<string>)
    requires forall g | g in gs :: g == "**" || PlainSegment(g)
    ensures Segments(gs, ShortestPath(gs)) && Total(ShortestPath(gs)) == LeastOf(gs)
    ensures gs != [] ==> ShortestPath(gs) != []
    ensures forall p | p in ShortestPath(gs) :: '/' !in p && (AnyBreak(gs) || '\n' !in p)
    decreases |gs|
  {
    if gs != [] {
      var ps := ShortestPath(gs);
      assert gs[0] in gs && forall g | g in gs[1..] :: g in gs;
      assert AnyBreak(gs[1..]) ==> AnyBreak(gs);
      ShortestPathIs(gs[1..]);
      if gs[0] != "**" {
        ShortestIs(gs[0]);
        assert ps[1..] == ShortestPath(gs[1..]);
      } else if |gs| > 1 {
        assert ps[0..] == ps;
        SegmentsMake(gs, ps, 0);
      } else {
        assert gs[1..] == [] && [""][1..] == [];
      }
    }
  }

  predicate AnyBreak(gs: seq<string>) { exists g | g in gs :: '\n' in g }

  lemma {:induction false} BytesNeedMore(w: string)
    ensures Least(Bytes(w)) >= Least(w) && (!Ascii(w) ==> Least(Bytes(w)) > Least(w))
    decreases |w|
  {
    if w != "" {
      BytesNeedMore(w[1..]);
      var u := Utf8(w[0]);
      LeastConcat(u, Bytes(w[1..]));
      LeastOfUtf8(w[0]);
      assert w == [w[0]] + w[1..];
    }
  }

  lemma {:induction false} LeastConcat(a: string, b: string)
    ensures Least(a + b) == Least(a) + Least(b)
    decreases |a|
  {
    if a == "" {
      assert a + b == b;
    } else {
      assert (a + b)[1..] == a[1..] + b;
      LeastConcat(a[1..], b);
    }
  }

  lemma LeastOfUtf8(c: char)
    ensures Least(Utf8(c)) >= (if c == '*' then 0 else 1) && (c as int >= 0x80 ==> Least(Utf8(c)) > 1)
  {
    var u := Utf8(c);
    assert Least(u) == (if u[0] == '*' then 0 else 1) + Least(u[1..]);
    if |u| > 1 { assert u[1..][0] == u[1]; }
  }

  lemma {:induction false} BytesNeedMoreOf(gs: seq<string>)
    ensures LeastOf(BytesAll(gs)) >= LeastOf(gs)
    ensures !AllAscii(gs) ==> LeastOf(BytesAll(gs)) > LeastOf(gs)
    decreases |gs|
  {
    if gs != [] {
      BytesNeedMoreOf(gs[1..]);
      BytesNeedMore(gs[0]);
      OnlyStars(gs[0]);
      assert BytesAll(gs)[1..] == BytesAll(gs[1..]);
      if AllAscii(gs[1..]) && Ascii(gs[0]) {
        forall g | g in gs ensures Ascii(g) { if g != gs[0] { assert g in gs[1..]; } }
      }
    }
  }

  lemma OnlyStars(w: string)
    ensures Bytes(w) == "**" <==> w == "**"
  {
    BytesLonger(w);
    if Bytes(w) == "**" && !Ascii(w) {
      HighByte(w);
    }
  }

  lemma {:induction false} HighByte(w: string)
    requires !Ascii(w)
    ensures exists i | 0 <= i < |Bytes(w)| :: Bytes(w)[i] as int >= 0x80
    decreases |w|
  {
    if w != "" {
      var u := Utf8(w[0]);
      if w[0] as int >= 0x80 {
        assert Bytes(w)[0] == u[0];
      } else {
        assert w == [w[0]] + w[1..];
        HighByte(w[1..]);
        var i :| 0 <= i < |Bytes(w[1..])| && Bytes(w[1..])[i] as int >= 0x80;
        assert Bytes(w)[|u| + i] == Bytes(w[1..])[i];
      }
    }
  }

  lemma {:induction false} WildBreak(w: string, x: string)
    requires Wild(w, x) && '\n' in w
    ensures '\n' in x
    decreases |w|
  {
    assert w == [w[0]] + w[1..];
    if w[0] == '*' {
      var k := WildOf(w, x);
      WildBreak(w[1..], x[k..]);
    } else if w[0] != '\n' {
      WildBreak(w[1..], x[1..]);
    }
  }

  /** A glob with a line break in it matches no path without one. */
  lemma {:induction false} SegmentsBreak(gs: seq<string>, ps: seq<string>)
    requires Segments(gs, ps) && AnyBreak(gs)
    ensures AnyBreak(ps)
    decreases |gs|
  {
    var g :| g in gs && '\n' in g;
    if gs[0] != "**" {
      if g == gs[0] {
        WildBreak(g, ps[0]);
        assert ps[0] in ps;
      } else {
        assert g in gs[1..];
        SegmentsBreak(gs[1..], ps[1..]);
        var p :| p in ps[1..] && '\n' in p;
        assert p in ps;
      }
    } else {
      assert g != "**" by { assert '\n' !in "**"; }
      assert g in gs[1..];
      var k := SegmentsOf(gs, ps);
      SegmentsBreak(gs[1..], ps[k..]);
      var p :| p in ps[k..] && '\n' in p;
      assert p in ps;
    }
  }

  lemma PartsHaveNone(s: string)
    requires '\n' !in s
    ensures !AnyBreak(Split(s, '/'))
  {
    JoinSplit(s);
    if AnyBreak(Split(s, '/')) {
      var p :| p in Split(s, '/') && '\n' in p;
      PartInJoin(Split(s, '/'), p);
    }
  }

  lemma {:induction false} PartInJoin(ps: seq<string>, p: string)
    requires p in ps && '\n' in p
    ensures '\n' in Join(ps, '/')
    decreases |ps|
  {
    if |ps| > 1 && p != ps[0] {
      assert p in ps[1..];
      PartInJoin(ps[1..], p);
    }
  }

  lemma {:induction false} BytesBreak(w: string)
    requires '\n' in w
    ensures '\n' in Bytes(w)
    decreases |w|
  {
    assert w == [w[0]] + w[1..];
    if w[0] != '\n' { BytesBreak(w[1..]); }
  }

  /** A glob is read right for every path without a line break exactly when it is ASCII, or holds a line break
      and so matches none of them. */
  lemma AsciiIff(gs: seq<string>)
    requires Clean(gs)
    ensures AllAscii(gs) || AnyBreak(gs) <==>
            forall s | '\n' !in s :: Matches(Join(gs, '/'), s) == Segments(gs, Split(s, '/'))
  {
    if AllAscii(gs) {
      forall s | '\n' !in s ensures Matches(Join(gs, '/'), s) == Segments(gs, Split(s, '/')) { GlobIsItsSegments(gs, s); }
    } else if AnyBreak(gs) {
      forall s | '\n' !in s ensures !Matches(Join(gs, '/'), s) && !Segments(gs, Split(s, '/')) { BreakMatchesNone(gs, s); }
    } else {
      var s := Misread(gs);
    }
  }

  lemma BreakMatchesNone(gs: seq<string>, s: string)
    requires Clean(gs) && AnyBreak(gs) && '\n' !in s
    ensures !Matches(Join(gs, '/'), s) && !Segments(gs, Split(s, '/'))
  {
    GlobIsItsBytes(gs, s);
    PartsHaveNone(s);
    if Segments(gs, Split(s, '/')) { SegmentsBreak(gs, Split(s, '/')); }
    var g :| g in gs && '\n' in g;
    BytesBreak(g);
    var i :| 0 <= i < |gs| && gs[i] == g;
    assert BytesAll(gs)[i] in BytesAll(gs);
    if Segments(BytesAll(gs), Split(s, '/')) { SegmentsBreak(BytesAll(gs), Split(s, '/')); }
  }

  /** The shortest path a glob beyond ASCII matches is too short for its bytes. */
  lemma Misread(gs: seq<string>) returns (s: string)
    requires Clean(gs) && !AllAscii(gs) && !AnyBreak(gs)
    ensures '\n' !in s && Segments(gs, Split(s, '/')) && !Matches(Join(gs, '/'), s)
  {
    var ps := ShortestPath(gs);
    ShortestPathIs(gs);
    s := Join(ps, '/');
    SplitJoin(ps, '/');
    JoinAvoidsBreak(ps);
    GlobIsItsBytes(gs, s);
    BytesNeedMoreOf(gs);
    if Segments(BytesAll(gs), ps) { SegmentsNeed(BytesAll(gs), ps); }
  }

  lemma {:induction false} JoinAvoidsBreak(ps: seq<string>)
    requires forall p | p in ps :: '\n' !in p
    ensures '\n' !in Join(ps, '/')
    decreases |ps|
  {
    if |ps| == 1 {
      assert ps[0] in ps;
    } else if |ps| > 1 {
      assert ps[0] in ps && forall p | p in ps[1..] :: p in ps;
      JoinAvoidsBreak(ps[1..]);
    }
  }

  // ----- ignored -----

  /** Some glob matches the path or a directory above it. */
  predicate Ignores(patterns: seq<string>, parts: seq<string>) {
    exists p, i: nat | p in patterns && 1 <= i <= |parts| :: Matches(p, Join(parts[..i], '/'))
  }

  method Ignored(rel: string, patterns: seq<string>) returns (r: bool)
    ensures r == Ignores(patterns, Split(rel, '/'))
  {
    var parts := Split(rel, '/');
    for n := 0 to |patterns|
      invariant forall p, i: nat | p in patterns[..n] && 1 <= i <= |parts| :: !Matches(p, Join(parts[..i], '/'))
    {
      var p := patterns[n];
      assert patterns[..n + 1] == patterns[..n] + [p] && p in patterns;
      var re := GlobRegexp(p);
      for i := 1 to |parts| + 1
        invariant forall j: nat | 1 <= j < i :: !Matches(p, Join(parts[..j], '/'))
      {
        var above := Join(parts[..i], '/');
        assert Accepts(re, above) <==> Matches(p, above);
        if Accepts(re, above) { return true; }
      }
    }
    assert patterns[..|patterns|] == patterns;
    return false;
  }

  /** A directory that is excluded excludes every path under it. */
  lemma IgnoredBelow(patterns: seq<string>, dir: string, rest: string)
    requires Ignores(patterns, Split(dir, '/'))
    ensures Ignores(patterns, Split(dir + ['/'] + rest, '/'))
  {
    SplitConcat(dir, rest);
    var parts, all := Split(dir, '/'), Split(dir + ['/'] + rest, '/');
    var p, i: nat :| p in patterns && 1 <= i <= |parts| && Matches(p, Join(parts[..i], '/'));
    assert all[..i] == parts[..i];
  }

  /** With ASCII globs a path is ignored exactly when the segments of some glob match those of the path or of a directory
      above it. */
  lemma IgnoredBySegments(globs: seq<seq<string>>, patterns: seq<string>, rel: string)
    requires '\n' !in rel && |patterns| == |globs|
    requires forall n | 0 <= n < |globs| :: Clean(globs[n]) && AllAscii(globs[n]) && patterns[n] == Join(globs[n], '/')
    ensures Ignores(patterns, Split(rel, '/'))
            <==> exists n: nat, i: nat | n < |globs| && 1 <= i <= |Split(rel, '/')| :: Segments(globs[n], Split(rel, '/')[..i])
  {
    var parts := Split(rel, '/');
    SplitAvoids(rel);
    JoinSplit(rel);
    forall n: nat, i: nat | n < |globs| && 1 <= i <= |parts|
      ensures Matches(patterns[n], Join(parts[..i], '/')) <==> Segments(globs[n], parts[..i])
    {
      SplitJoin(parts[..i], '/');
      JoinPrefix(parts, i);
      GlobIsItsSegments(globs[n], Join(parts[..i], '/'));
    }
    if Ignores(patterns, parts) {
      var p, i: nat :| p in patterns && 1 <= i <= |parts| && Matches(p, Join(parts[..i], '/'));
      var n :| 0 <= n < |patterns| && patterns[n] == p;
      assert Segments(globs[n], parts[..i]);
    }
    if n: nat, i: nat :| n < |globs| && 1 <= i <= |parts| && Segments(globs[n], parts[..i]) {
      assert patterns[n] in patterns && Matches(patterns[n], Join(parts[..i], '/'));
    }
  }

  lemma JoinPrefix(ps: seq<string>, i: nat)
    requires 1 <= i <= |ps|
    ensures Join(ps[..i], '/') <= Join(ps, '/')
  {
    if i < |ps| {
      var a, b := ps[..i], ps[i..];
      assert ps == a + b;
      JoinConcat(a, b);
    } else {
      assert ps[..i] == ps;
    }
  }

  // ----- names -----

  lemma {:induction false} LiteralTakes(b: string, s: string)
    requires NoWildcards(b)
    ensures Toked(Tokens(b), s) <==> s == b
    decreases |b|
  {
    if b != "" {
      assert Tokens(b) == [Lit(b[0])] + Tokens(b[1..]) && b == [b[0]] + b[1..];
      if Toked(Tokens(b), s) {
        var k := TakeOf(Lit(b[0]), Tokens(b[1..]), s);
        LiteralTakes(b[1..], s[k..]);
        assert s == s[..k] + s[k..];
      }
      if s == b {
        LiteralTakes(b[1..], s[1..]);
        TakeMakes(Lit(b[0]), Tokens(b[1..]), s, 1);
      }
    }
  }

  /** A glob without wildcards matches the path of the same name exactly when it is ASCII. */
  lemma NameMatchesItselfIffAscii(g: string)
    requires NoWildcards(g)
    ensures Matches(g, g) <==> Ascii(g)
  {
    BytesLonger(g);
    TokedIff(Tokens(Bytes(g)), g);
    LiteralTakes(Bytes(g), g);
  }
}
