/** The regular expression internal/guard's globRegexp makes of a glob, and what its pieces accept. */
module GlobPattern {

  // ----- regular expressions -----

  datatype Re = Char(c: char) | Dot | NotSlash | Star(re: Re) | Opt(re: Re) | Cat(res: seq<Re>)

  predicate Accepts(re: Re, s: string)
    decreases re, 0, |s|
  {
    match re
    case Char(c) => s == [c]
    case Dot => |s| == 1 && s[0] != '\n'
    case NotSlash => |s| == 1 && s[0] != '/'
    case Star(r) => s == "" || exists k: nat | 1 <= k <= |s| :: Accepts(r, s[..k]) && Accepts(re, s[k..])
    case Opt(r) => s == "" || Accepts(r, s)
    case Cat(rs) => AcceptsAll(rs, s)
  }

  /** One expression after another. */
  predicate AcceptsAll(rs: seq<Re>, s: string)
    decreases rs, 1, |s|
  {
    if rs == [] then s == "" else exists k: nat | k <= |s| :: Accepts(rs[0], s[..k]) && AcceptsAll(rs[1..], s[k..])
  }

  lemma CutOf(rs: seq<Re>, s: string) returns (k: nat)
    requires rs != [] && AcceptsAll(rs, s)
    ensures k <= |s| && Accepts(rs[0], s[..k]) && AcceptsAll(rs[1..], s[k..])
  {
    k :| 0 <= k <= |s| && Accepts(rs[0], s[..k]) && AcceptsAll(rs[1..], s[k..]);
  }

  lemma CutMakes(rs: seq<Re>, s: string, k: nat)
    requires rs != [] && k <= |s| && Accepts(rs[0], s[..k]) && AcceptsAll(rs[1..], s[k..])
    ensures AcceptsAll(rs, s)
  {
  }

  // ----- bytes -----

  /** A character in UTF-8, a byte as the character of that number: the loop goes over the bytes of a
      glob and writes each as a character of its own, while a path is matched by its characters. */
  function Utf8(c: char): (b: string)
    ensures c as int < 0x80 ==> b == [c]
    ensures c as int >= 0x80 ==> |b| > 1 && forall i | 0 <= i < |b| :: b[i] as int >= 0x80
  {
    var n := c as int;
    if n < 0x80 then [c]
    else if n < 0x800 then [(0xC0 + n / 64) as char, (0x80 + n % 64) as char]
    else if n < 0x10000 then [(0xE0 + n / 4096) as char, (0x80 + n / 64 % 64) as char, (0x80 + n % 64) as char]
    else [(0xF0 + n / 262144) as char, (0x80 + n / 4096 % 64) as char, (0x80 + n / 64 % 64) as char, (0x80 + n % 64) as char]
  }

  function Bytes(g: string): string { if g == "" then "" else Utf8(g[0]) + Bytes(g[1..]) }

  predicate Ascii(g: string) { forall i | 0 <= i < |g| :: g[i] as int < 0x80 }

  predicate NoWildcards(g: string) { '*' !in g && '?' !in g }

  lemma {:induction false} BytesLonger(g: string)
    ensures |Bytes(g)| >= |g|
    ensures Ascii(g) ==> Bytes(g) == g
    ensures !Ascii(g) ==> |Bytes(g)| > |g|
    ensures NoWildcards(g) ==> NoWildcards(Bytes(g))
  {
    if g != "" {
      BytesLonger(g[1..]);
      assert g == [g[0]] + g[1..];
    }
  }

  // ----- globRegexp -----

  datatype Tok = Lit(c: char) | One | Many | Deep | Dirs

  function ToRe(t: Tok): Re {
    match t
    case Lit(c) => Char(c)
    case One => NotSlash
    case Many => Star(NotSlash)
    case Deep => Star(Dot)
    case Dirs => Opt(Cat([Star(Dot), Char('/')]))
  }

  function Res(ts: seq<Tok>): (rs: seq<Re>)
    ensures |rs| == |ts|
  {
    if ts == [] then [] else [ToRe(ts[0])] + Res(ts[1..])
  }

  /** The first token of a glob and its length. */
  function Token(g: string): (t: (Tok, nat))
    requires g != ""
    ensures 1 <= t.1 <= |g|
  {
    if g[0] == '*' then
      if |g| > 1 && g[1] == '*' then (if |g| > 2 && g[2] == '/' then (Dirs, 3) else (Deep, 2))
      else (Many, 1)
    else if g[0] == '?' then (One, 1)
    else (Lit(g[0]), 1)
  }

  function Tokens(g: string): seq<Tok>
    decreases |g|
  {
    if g == "" then [] else [Token(g).0] + Tokens(g[Token(g).1..])
  }

  /** One round of the loop: the piece it writes and the index it moves on to. */
  method NextPiece(glob: string, i0: nat, ghost b: seq<Re>) returns (piece: Re, i: nat)
    requires i0 < |glob|
    ensures i0 < i <= |glob|
    ensures b + Res(Tokens(glob[i0..])) == b + [piece] + Res(Tokens(glob[i..]))
  {
    NextToken(b, glob, i0);
    i := i0;
    var c := glob[i];
    if c == '*' {
      if i + 1 < |glob| && glob[i + 1] == '*' {
        i := i + 1;
        if i + 1 < |glob| && glob[i + 1] == '/' {
          i := i + 1;
          piece := Opt(Cat([Star(Dot), Char('/')]));
        } else {
          piece := Star(Dot);
        }
      } else {
        piece := Star(NotSlash);
      }
    } else if c == '?' {
      piece := NotSlash;
    } else {
      piece := Char(c);
    }
    i := i + 1;
  }

  /** The loop goes over the bytes of the glob. */
  method GlobRegexp(text: string) returns (re: Re)
    ensures re == Cat(Res(Tokens(Bytes(text))))
  {
    var glob := Bytes(text);
    var b: seq<Re> := [];
    var i := 0;
    assert glob[0..] == glob && [] + Res(Tokens(glob)) == Res(Tokens(glob));
    while i < |glob|
      invariant 0 <= i <= |glob|
      invariant b + Res(Tokens(glob[i..])) == Res(Tokens(glob))
      decreases |glob| - i
    {
      var piece: Re;
      piece, i := NextPiece(glob, i, b);
      b := b + [piece];
    }
    assert glob[|glob|..] == "" && b + [] == b;
    re := Cat(b);
  }

  lemma NextToken(b: seq<Re>, glob: string, i: nat)
    requires i < |glob|
    ensures var (t, n) := Token(glob[i..]);
            b + Res(Tokens(glob[i..])) == b + [ToRe(t)] + Res(Tokens(glob[i + n..]))
  {
    var (t, n) := Token(glob[i..]);
    assert glob[i..][n..] == glob[i + n..];
    ResCons(t, Tokens(glob[i + n..]));
    Regroup(b, [ToRe(t)], Res(Tokens(glob[i + n..])));
  }

  lemma ResCons(t: Tok, ts: seq<Tok>)
    ensures Res([t] + ts) == [ToRe(t)] + Res(ts)
  {
    assert ([t] + ts)[1..] == ts;
  }

  lemma Regroup<T>(a: seq<T>, b: seq<T>, c: seq<T>)
    ensures a + (b + c) == a + b + c
  {
  }

  /** Whether a glob's expression accepts a path. */
  predicate Matches(g: string, s: string) { AcceptsAll(Res(Tokens(Bytes(g))), s) }

  // ----- what the pieces accept -----

  lemma {:induction false} DeepAccepts(s: string)
    ensures Accepts(Star(Dot), s) <==> '\n' !in s
    decreases |s|
  {
    if s != "" {
      forall k: nat | 1 <= k <= |s| ensures Accepts(Star(Dot), s[k..]) <==> '\n' !in s[k..] { DeepAccepts(s[k..]); }
      assert s == [s[0]] + s[1..] && s[..1] == [s[0]];
      if '\n' !in s { assert Accepts(Dot, s[..1]) && Accepts(Star(Dot), s[1..]); }
    }
  }

  lemma {:induction false} ManyAccepts(s: string)
    ensures Accepts(Star(NotSlash), s) <==> '/' !in s
    decreases |s|
  {
    if s != "" {
      forall k: nat | 1 <= k <= |s| ensures Accepts(Star(NotSlash), s[k..]) <==> '/' !in s[k..] { ManyAccepts(s[k..]); }
      assert s == [s[0]] + s[1..] && s[..1] == [s[0]];
      if '/' !in s { assert Accepts(NotSlash, s[..1]) && Accepts(Star(NotSlash), s[1..]); }
    }
  }

  lemma LastAccepts(re: Re, s: string)
    ensures AcceptsAll([re], s) <==> Accepts(re, s)
  {
    assert s[..|s|] == s && s[|s|..] == "";
    assert [re][1..] == [];
    if AcceptsAll([re], s) {
      var k := CutOf([re], s);
      assert s[k..] == "" && k == |s|;
    }
    if Accepts(re, s) { CutMakes([re], s, |s|); }
  }

  lemma DirsAccepts(s: string)
    ensures Accepts(ToRe(Dirs), s) <==> s == "" || (s[|s| - 1] == '/' && '\n' !in s)
  {
    var rs := [Star(Dot), Char('/')];
    assert rs[1..] == [Char('/')];
    assert Accepts(Opt(Cat(rs)), s) <==> s == "" || AcceptsAll(rs, s);
    if AcceptsAll(rs, s) {
      var k := CutOf(rs, s);
      LastAccepts(Char('/'), s[k..]);
      DeepAccepts(s[..k]);
      assert s == s[..k] + s[k..];
    }
    if s != "" && s[|s| - 1] == '/' && '\n' !in s {
      var k := |s| - 1;
      LastAccepts(Char('/'), s[k..]);
      DeepAccepts(s[..k]);
      CutMakes(rs, s, k);
    }
  }

  /** What one token takes of a path. */
  predicate Takes(t: Tok, x: string) {
    match t
    case Lit(c) => x == [c]
    case One => |x| == 1 && x[0] != '/'
    case Many => '/' !in x
    case Deep => '\n' !in x
    case Dirs => x == "" || (x[|x| - 1] == '/' && '\n' !in x)
  }

  lemma TakesIff(t: Tok, x: string)
    ensures Accepts(ToRe(t), x) <==> Takes(t, x)
  {
    match t
    case Many => ManyAccepts(x);
    case Deep => DeepAccepts(x);
    case Dirs => DirsAccepts(x);
    case _ =>
  }

  predicate Toked(ts: seq<Tok>, s: string) {
    if ts == [] then s == "" else exists k: nat | k <= |s| :: Takes(ts[0], s[..k]) && Toked(ts[1..], s[k..])
  }

  lemma TakeOf(t: Tok, ts: seq<Tok>, s: string) returns (k: nat)
    requires Toked([t] + ts, s)
    ensures k <= |s| && Takes(t, s[..k]) && Toked(ts, s[k..])
  {
    var all := [t] + ts;
    k :| k <= |s| && Takes(all[0], s[..k]) && Toked(all[1..], s[k..]);
    assert all[1..] == ts;
  }

  lemma TakeMakes(t: Tok, ts: seq<Tok>, s: string, k: nat)
    requires k <= |s| && Takes(t, s[..k]) && Toked(ts, s[k..])
    ensures Toked([t] + ts, s)
  {
    assert ([t] + ts)[1..] == ts;
  }

  lemma {:induction false} TokedIff(ts: seq<Tok>, s: string)
    ensures AcceptsAll(Res(ts), s) <==> Toked(ts, s)
    decreases |ts|
  {
    if ts != [] {
      var rs := Res(ts);
      assert rs[1..] == Res(ts[1..]) && [ts[0]] + ts[1..] == ts;
      if AcceptsAll(rs, s) {
        var k := CutOf(rs, s);
        TakesIff(ts[0], s[..k]);
        TokedIff(ts[1..], s[k..]);
        TakeMakes(ts[0], ts[1..], s, k);
      }
      if Toked(ts, s) {
        var k := TakeOf(ts[0], ts[1..], s);
        TakesIff(ts[0], s[..k]);
        TokedIff(ts[1..], s[k..]);
        CutMakes(rs, s, k);
      }
    }
  }

  /** For every glob, wherever its stars stand: the expression accepts what the glob's tokens take, one after
      the other, the wildcards read off its characters and every other byte taken for a character. */
  lemma MatchesIff(g: string, s: string)
    ensures Matches(g, s) <==> Toked(Tokens(Bytes(g)), s)
  {
    TokedIff(Tokens(Bytes(g)), s);
  }
}
