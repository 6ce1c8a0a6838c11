/** Strings as the Go standard library and the shell treat them: decimal numerals, splitting and
    joining on a separator, cutting, trimming. Only what the other modules need. */
module Text {

  datatype Option<+T> = None | Some(value: T)

  predicate IsDigit(c: char) { '0' <= c <= '9' }

  predicate AllDigits(s: string) { forall i | 0 <= i < |s| :: IsDigit(s[i]) }

  function DigitChar(d: nat): (c: char)
    requires d < 10
    ensures IsDigit(c) && DigitValue(c) == d
  {
    ('0' as int + d) as char
  }

  function DigitValue(c: char): (d: nat)
    requires IsDigit(c)
    ensures d < 10 && ('0' as int + d) as char == c
  {
    c as int - '0' as int
  }

  /** The decimal numeral of n, as %d prints it. */
  function Decimal(n: nat): (s: string)
    ensures |s| > 0 && AllDigits(s)
    ensures NumeralValue(s) == n
  {
    if n < 10 then [DigitChar(n)]
    else
      var s := Decimal(n / 10) + [DigitChar(n % 10)];
      assert s[..|s| - 1] == Decimal(n / 10);
      s
  }

  function NumeralValue(s: string): nat
    requires AllDigits(s)
  {
    if s == [] then 0 else 10 * NumeralValue(s[..|s| - 1]) + DigitValue(s[|s| - 1])
  }

  predicate HasSuffix(s: string, p: string) {
    |s| >= |p| && s[|s| - |p|..] == p
  }

  /** Position of the first c in s, or |s| when there is none. */
  function IndexOf(s: string, c: char): (i: nat)
    ensures i <= |s|
    ensures i < |s| ==> s[i] == c
    ensures c !in s[..i]
    ensures c !in s ==> i == |s|
  {
    if s == [] then 0
    else if s[0] == c then 0
    else
      var i := 1 + IndexOf(s[1..], c);
      assert s[..i] == [s[0]] + s[1..][..i - 1];
      i
  }

  lemma IndexOfIs(s: string, c: char, i: nat)
    requires i < |s| && s[i] == c && c !in s[..i]
    ensures IndexOf(s, c) == i
  {
  }

  /** strings.Split(s, sep) for a one-character separator. */
  function Split(s: string, sep: char): (parts: seq<string>)
    ensures |parts| > 0
    decreases |s|
  {
    var i := IndexOf(s, sep);
    if i == |s| then [s]
    else [s[..i]] + Split(s[i + 1..], sep)
  }

  /** strings.Join(parts, sep) for a one-character separator. */
  function Join(parts: seq<string>, sep: char): string
  {
    if |parts| == 0 then ""
    else if |parts| == 1 then parts[0]
    else parts[0] + [sep] + Join(parts[1..], sep)
  }

  lemma SplitCons(head: string, rest: string, sep: char)
    requires sep !in head
    ensures Split(head + [sep] + rest, sep) == [head] + Split(rest, sep)
  {
    var s := head + [sep] + rest;
    assert s[..|head|] == head;
    IndexOfIs(s, sep, |head|);
    assert s[|head| + 1..] == rest;
  }

  lemma SplitNone(s: string, sep: char)
    requires sep !in s
    ensures Split(s, sep) == [s]
  {
  }

  /** Splitting undoes joining when no part holds the separator. */
  lemma {:induction false} SplitJoin(parts: seq<string>, sep: char)
    requires |parts| > 0
    requires forall p | p in parts :: sep !in p
    ensures Split(Join(parts, sep), sep) == parts
  {
    if |parts| == 1 {
      SplitNone(parts[0], sep);
    } else {
      assert parts[0] in parts && forall p | p in parts[1..] :: p in parts;
      SplitJoin(parts[1..], sep);
      SplitCons(parts[0], Join(parts[1..], sep), sep);
      assert [parts[0]] + parts[1..] == parts;
    }
  }

  /** unicode.IsSpace */
  predicate IsSpace(c: char) {
    var n := c as int;
    9 <= n <= 13 || n == 0x20 || n == 0x85 || n == 0xA0 || n == 0x1680 || 0x2000 <= n <= 0x200a
    || n == 0x2028 || n == 0x2029 || n == 0x202f || n == 0x205f || n == 0x3000
  }

  function TrimLeft(s: string): (r: string)
    ensures |r| <= |s| && r == s[|s| - |r|..]
    ensures r != "" ==> !IsSpace(r[0])
  {
    if s != "" && IsSpace(s[0]) then TrimLeft(s[1..]) else s
  }

  function TrimRight(s: string): (r: string)
    ensures r <= s
    ensures r != "" ==> !IsSpace(r[|r| - 1])
  {
    if s != "" && IsSpace(s[|s| - 1]) then TrimRight(s[..|s| - 1]) else s
  }

  function TrimSpace(s: string): string { TrimRight(TrimLeft(s)) }

  function Concat<T>(parts: seq<seq<T>>): seq<T>
  {
    if parts == [] then [] else parts[0] + Concat(parts[1..])
  }

  // ----- byte order, as strings.Compare, sort.Strings and a shell glob in the C locale use it -----

  predicate LexLess(a: string, b: string)
    decreases |a|
  {
    if b == "" then false
    else if a == "" then true
    else if a[0] != b[0] then a[0] < b[0]
    else LexLess(a[1..], b[1..])
  }

  lemma {:induction false} LexTotal(a: string, b: string)
    ensures LexLess(a, b) || a == b || LexLess(b, a)
    ensures !(LexLess(a, b) && LexLess(b, a))
    ensures a == b ==> !LexLess(a, b)
    decreases |a|
  {
    if a != "" && b != "" {
      LexTotal(a[1..], b[1..]);
      assert a == [a[0]] + a[1..] && b == [b[0]] + b[1..];
    }
  }

  lemma {:induction false} LexTransitive(a: string, b: string, c: string)
    requires LexLess(a, b) && LexLess(b, c)
    ensures LexLess(a, c)
    decreases |a|
  {
    if a != "" && a[0] == b[0] && b[0] == c[0] {
      LexTransitive(a[1..], b[1..], c[1..]);
    }
  }

  /** Between two names that differ only in a middle of one length, the middle decides. */
  lemma {:induction false} LexMiddle(pre: string, a: string, b: string, post: string)
    requires |a| == |b|
    ensures LexLess(pre + a + post, pre + b + post) <==> LexLess(a, b)
    decreases |pre|, |a|
  {
    var x, y := pre + a + post, pre + b + post;
    if pre != "" {
      assert x[1..] == pre[1..] + a + post && y[1..] == pre[1..] + b + post;
      LexMiddle(pre[1..], a, b, post);
    } else if a == "" {
      LexTotal(post, post);
      assert x == post && y == post;
    } else {
      assert x[1..] == pre + a[1..] + post && y[1..] == pre + b[1..] + post;
      LexMiddle(pre, a[1..], b[1..], post);
    }
  }

  // ----- sort.Strings -----

  predicate Ordered(s: seq<string>) {
    forall i, j | 0 <= i < j < |s| :: !LexLess(s[j], s[i])
  }

  lemma NotLessThan(a: string, b: string, x: string)
    requires !LexLess(b, a) && !LexLess(a, x)
    ensures !LexLess(b, x)
  {
    if LexLess(b, x) && x != a {
      LexTotal(a, x);
      LexTransitive(b, x, a);
    }
  }

  lemma InsertedOrdered(s: seq<string>, x: string, i: nat)
    requires Ordered(s) && i <= |s| && forall j | 0 <= j < i :: LexLess(s[j], x)
    requires i < |s| ==> !LexLess(s[i], x)
    ensures Ordered(s[..i] + [x] + s[i..])
  {
    forall j | i <= j < |s| ensures !LexLess(s[j], x) {
      if j > i { NotLessThan(s[i], s[j], x); }
    }
    forall j | 0 <= j < i ensures !LexLess(x, s[j]) { LexTotal(s[j], x); }
  }

  method InsertInOrder(s: seq<string>, x: string) returns (r: seq<string>)
    requires Ordered(s)
    ensures Ordered(r) && multiset(r) == multiset(s) + multiset{x}
  {
    var i := 0;
    while i < |s| && LexLess(s[i], x)
      invariant 0 <= i <= |s|
      invariant forall j | 0 <= j < i :: LexLess(s[j], x)
    {
      i := i + 1;
    }
    InsertedOrdered(s, x, i);
    r := s[..i] + [x] + s[i..];
    assert s == s[..i] + s[i..];
  }

  method SortNames(found: seq<string>) returns (out: seq<string>)
    ensures Ordered(out) && multiset(out) == multiset(found)
  {
    out := [];
    for i := 0 to |found|
      invariant Ordered(out) && multiset(out) == multiset(found[..i])
    {
      assert found[..i + 1] == found[..i] + [found[i]];
      out := InsertInOrder(out, found[i]);
    }
    assert found[..|found|] == found;
  }

  predicate OccursAt(s: string, sub: string, i: nat) {
    i + |sub| <= |s| && s[i..i + |sub|] == sub
  }

  predicate Contains(s: string, sub: string) {
    exists i: nat | i <= |s| :: OccursAt(s, sub, i)
  }

  lemma OccursIff(s: string, sub: string, i: nat)
    ensures OccursAt(s, sub, i) <==> i + |sub| <= |s| && forall k | 0 <= k < |sub| :: s[i + k] == sub[k]
  {
  }

  lemma SuffixIff(s: string, sub: string)
    ensures HasSuffix(s, sub) <==> |sub| <= |s| && forall k | 0 <= k < |sub| :: s[|s| - |sub| + k] == sub[k]
  {
  }

  // ----- strconv.Atoi, for a 64-bit int -----

  const MAX_INT: int := 0x7fff_ffff_ffff_ffff

  function Unsigned(s: string): string { if s != "" && (s[0] == '-' || s[0] == '+') then s[1..] else s }

  predicate IsNumeral(s: string) { Unsigned(s) != "" && AllDigits(Unsigned(s)) }

  /** The number a numeral stands for, sign included. */
  function Signed(s: string): int
    requires IsNumeral(s)
  {
    if s[0] == '-' then -(NumeralValue(Unsigned(s)) as int) else NumeralValue(Unsigned(s))
  }

  /** The value Atoi returns with no error. */
  function Atoi(s: string): Option<int> {
    if IsNumeral(s) && -MAX_INT - 1 <= Signed(s) <= MAX_INT then Some(Signed(s)) else None
  }

  lemma AtoiDecimal(n: nat)
    requires n <= MAX_INT
    ensures Atoi(Decimal(n)) == Some(n)
  {
    assert IsDigit(Decimal(n)[0]);
  }

  lemma TrimLeftNone(s: string)
    requires s == "" || !IsSpace(s[0])
    ensures TrimLeft(s) == s
  {
  }

  lemma TrimRightNone(s: string)
    requires s == "" || !IsSpace(s[|s| - 1])
    ensures TrimRight(s) == s
  {
  }
}
