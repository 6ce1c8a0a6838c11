/** How internal/prove orders recorded versions, and how far that is the precedence of section 11 of
    Semantic Versioning 2.0.0. */
module Versions {
  import opened Text

  // ----- CompareVersions -----

  function CmpInt(a: int, b: int): int { if a < b then -1 else if a > b then 1 else 0 }

  /** strings.Compare */
  function CmpString(a: string, b: string): int { if a == b then 0 else if LexLess(a, b) then -1 else 1 }

  /** What Atoi returns when its error is ignored: the nearest int, and 0 for what is no number. */
  function AtoiValue(s: string): int {
    if !IsNumeral(s) then 0
    else if Signed(s) > MAX_INT then MAX_INT
    else if Signed(s) < -MAX_INT - 1 then -MAX_INT - 1
    else Signed(s)
  }

  function Numbers(parts: seq<string>): (ns: seq<int>)
    ensures |ns| == |parts|
  {
    if parts == [] then [] else [AtoiValue(parts[0])] + Numbers(parts[1..])
  }

  datatype Parts = Parts(core: seq<int>, pre: string)

  function Base(v: string): string { v[..IndexOf(v, '+')] }

  function SplitVersion(v: string): Parts {
    var b := Base(v);
    var i := IndexOf(b, '-');
    Parts(Numbers(Split(b[..i], '.')), if i < |b| then b[i + 1..] else "")
  }

  function Head(xs: seq<int>): int { if xs == [] then 0 else xs[0] }

  function Tail(xs: seq<int>): seq<int> { if xs == [] then [] else xs[1..] }

  /** The numeric parts, the shorter padded with zeros. */
  function CmpCore(xs: seq<int>, ys: seq<int>): int
    decreases |xs| + |ys|
  {
    if xs == [] && ys == [] then 0
    else if Head(xs) != Head(ys) then CmpInt(Head(xs), Head(ys))
    else CmpCore(Tail(xs), Tail(ys))
  }

  /** An identifier as it is compared: a number when Atoi takes it for one. */
  function CmpId(a: string, b: string): int {
    match (Atoi(a), Atoi(b))
    case (Some(x), Some(y)) => CmpInt(x, y)
    case (Some(_), None) => -1
    case (None, Some(_)) => 1
    case (None, None) => CmpString(a, b)
  }

  function CmpIds(ps: seq<string>, bs: seq<string>): int {
    if ps == [] || bs == [] then CmpInt(|ps|, |bs|)
    else if CmpId(ps[0], bs[0]) != 0 then CmpId(ps[0], bs[0])
    else CmpIds(ps[1..], bs[1..])
  }

  function CmpPre(p: string, q: string): int {
    if p == "" then (if q == "" then 0 else 1)
    else if q == "" then -1
    else CmpIds(Split(p, '.'), Split(q, '.'))
  }

  function CmpParts(a: Parts, b: Parts): int {
    var c := CmpCore(a.core, b.core);
    if c != 0 then c else CmpPre(a.pre, b.pre)
  }

  function Cmp(a: string, b: string): int { CmpParts(SplitVersion(a), SplitVersion(b)) }

  method ReadNumbers(parts: seq<string>) returns (n: seq<int>)
    ensures n == Numbers(parts)
  {
    n := [];
    assert parts[0..] == parts && [] + Numbers(parts) == Numbers(parts);
    for k := 0 to |parts|
      invariant n + Numbers(parts[k..]) == Numbers(parts)
    {
      NumbersNext(n, parts, k);
      n := n + [AtoiValue(parts[k])];
    }
    assert parts[|parts|..] == [] && n + [] == n;
  }

  lemma NumbersNext(n: seq<int>, parts: seq<string>, k: nat)
    requires k < |parts|
    ensures n + Numbers(parts[k..]) == n + [AtoiValue(parts[k])] + Numbers(parts[k + 1..])
  {
    assert parts[k..][1..] == parts[k + 1..];
    var x, y := [AtoiValue(parts[k])], Numbers(parts[k + 1..]);
    assert n + (x + y) == n + x + y;
  }

  method SplitInto(v0: string) returns (n: seq<int>, pre: string)
    ensures Parts(n, pre) == SplitVersion(v0)
  {
    var v := v0[..IndexOf(v0, '+')];
    pre := "";
    var i := IndexOf(v, '-');
    var core := v[..i];
    if i < |v| { pre := v[i + 1..]; }
    n := ReadNumbers(Split(core, '.'));
  }

  function At(xs: seq<int>, i: nat): int { if i < |xs| then xs[i] else 0 }

  function From<T>(xs: seq<T>, i: nat): seq<T> { if i < |xs| then xs[i..] else [] }

  lemma CoreNext(xs: seq<int>, ys: seq<int>, i: nat)
    requires i < |xs| || i < |ys|
    ensures CmpCore(From(xs, i), From(ys, i))
            == if At(xs, i) != At(ys, i) then CmpInt(At(xs, i), At(ys, i)) else CmpCore(From(xs, i + 1), From(ys, i + 1))
  {
    assert Tail(From(xs, i)) == From(xs, i + 1) && Tail(From(ys, i)) == From(ys, i + 1);
  }

  method CompareCores(an: seq<int>, bn: seq<int>) returns (c: int)
    ensures c == CmpCore(an, bn)
  {
    var n := if |bn| > |an| then |bn| else |an|;
    assert From(an, 0) == an && From(bn, 0) == bn;
    for i := 0 to n
      invariant CmpCore(From(an, i), From(bn, i)) == CmpCore(an, bn)
    {
      CoreNext(an, bn, i);
      var x, y := 0, 0;
      if i < |an| { x := an[i]; }
      if i < |bn| { y := bn[i]; }
      if x != y { return CmpInt(x, y); }
    }
    return 0;
  }

  method CompareIds(ps: seq<string>, bs: seq<string>) returns (c: int)
    ensures c == CmpIds(ps, bs)
  {
    var m := if |bs| < |ps| then |bs| else |ps|;
    assert ps[0..] == ps && bs[0..] == bs;
    for i := 0 to m
      invariant CmpIds(ps[i..], bs[i..]) == CmpIds(ps, bs)
    {
      assert ps[i..][1..] == ps[i + 1..] && bs[i..][1..] == bs[i + 1..];
      var xi, yi := Atoi(ps[i]), Atoi(bs[i]);
      if xi.Some? && yi.Some? {
        if xi.value != yi.value { return CmpInt(xi.value, yi.value); }
      } else if xi.Some? {
        return -1;
      } else if yi.Some? {
        return 1;
      } else {
        c := CmpString(ps[i], bs[i]);
        if c != 0 { return; }
      }
    }
    return CmpInt(|ps|, |bs|);
  }

  method CompareVersions(a: string, b: string) returns (c: int)
    ensures c == Cmp(a, b)
  {
    var an, ap := SplitInto(a);
    var bn, bp := SplitInto(b);
    c := CompareCores(an, bn);
    if c != 0 { return; }
    if ap == "" && bp == "" { return 0; }
    if ap == "" { return 1; }
    if bp == "" { return -1; }
    c := CompareIds(Split(ap, '.'), Split(bp, '.'));
  }

  // ----- a total preorder -----

  lemma StringFlip(a: string, b: string)
    ensures CmpString(a, b) == -CmpString(b, a)
  {
    LexTotal(a, b);
  }

  lemma IdFlip(a: string, b: string)
    ensures CmpId(a, b) == -CmpId(b, a)
  {
    StringFlip(a, b);
  }

  lemma {:induction false} IdsFlip(p: seq<string>, q: seq<string>)
    ensures CmpIds(p, q) == -CmpIds(q, p)
    decreases |p|
  {
    if p != [] && q != [] {
      IdFlip(p[0], q[0]);
      IdsFlip(p[1..], q[1..]);
    }
  }

  lemma {:induction false} CoreFlip(xs: seq<int>, ys: seq<int>)
    ensures CmpCore(xs, ys) == -CmpCore(ys, xs)
    decreases |xs| + |ys|
  {
    if xs != [] || ys != [] { CoreFlip(Tail(xs), Tail(ys)); }
  }

  /** Swapping the versions negates the answer: of two versions one is the lower, or neither is. */
  lemma Antisymmetric(a: string, b: string)
    ensures Cmp(a, b) == -Cmp(b, a)
    ensures Cmp(a, a) == 0
  {
    var x, y := SplitVersion(a), SplitVersion(b);
    CoreFlip(x.core, y.core);
    CoreFlip(x.core, x.core);
    IdsFlip(Split(x.pre, '.'), Split(y.pre, '.'));
    IdsFlip(Split(x.pre, '.'), Split(x.pre, '.'));
  }

  /** Two steps down are a step down, and a proper one when either is. */
  predicate Chains(ab: int, bc: int, ac: int) { ab <= 0 && bc <= 0 ==> ac <= 0 && (ac == 0 ==> ab == 0 && bc == 0) }

  lemma IdChains(a: string, b: string, c: string)
    ensures Chains(CmpId(a, b), CmpId(b, c), CmpId(a, c))
  {
    if Atoi(a).None? && Atoi(b).None? && Atoi(c).None? {
      LexTotal(a, b);
      LexTotal(b, c);
      LexTotal(a, c);
      if LexLess(a, b) && LexLess(b, c) { LexTransitive(a, b, c); }
    }
  }

  lemma IdSame(a: string, b: string, c: string)
    ensures CmpId(a, b) == 0 ==> CmpId(a, c) == CmpId(b, c)
    ensures CmpId(b, c) == 0 ==> CmpId(a, c) == CmpId(a, b)
  {
  }

  lemma {:induction false} IdsChain(p: seq<string>, q: seq<string>, r: seq<string>)
    ensures Chains(CmpIds(p, q), CmpIds(q, r), CmpIds(p, r))
    decreases |p|
  {
    if p != [] && q != [] && r != [] {
      IdChains(p[0], q[0], r[0]);
      IdSame(p[0], q[0], r[0]);
      IdsChain(p[1..], q[1..], r[1..]);
    }
  }

  lemma {:induction false} CoreChains(xs: seq<int>, ys: seq<int>, zs: seq<int>)
    ensures Chains(CmpCore(xs, ys), CmpCore(ys, zs), CmpCore(xs, zs))
    decreases |xs| + |ys| + |zs|
  {
    if xs != [] || ys != [] || zs != [] { CoreChains(Tail(xs), Tail(ys), Tail(zs)); }
  }

  /** The order is transitive on every three strings, versions or not. */
  lemma Transitive(a: string, b: string, c: string)
    ensures Chains(Cmp(a, b), Cmp(b, c), Cmp(a, c))
  {
    var x, y, z := SplitVersion(a), SplitVersion(b), SplitVersion(c);
    CoreChains(x.core, y.core, z.core);
    CoreFlip(x.core, y.core);
    CoreFlip(y.core, z.core);
    CoreFlip(x.core, z.core);
    IdsChain(Split(x.pre, '.'), Split(y.pre, '.'), Split(z.pre, '.'));
  }

  /** Zeros at the end of the numeric parts make no difference. */
  lemma {:induction false} ZerosPad(xs: seq<int>, ys: seq<int>)
    requires forall y | y in ys :: y == 0
    ensures CmpCore(xs, xs + ys) == 0
    decreases |xs| + |ys|
  {
    if xs != [] {
      assert Tail(xs + ys) == Tail(xs) + ys;
      ZerosPad(Tail(xs), ys);
    } else if ys != [] {
      assert xs + ys == ys;
      assert ys[0] in ys && forall y | y in ys[1..] :: y in ys;
      ZerosPad([], ys[1..]);
      assert [] + ys[1..] == Tail(ys);
    }
  }

  // ----- the latest record -----

  datatype Entry = Entry(name: string, isDir: bool)

  function VersionOf(e: Entry): string
    requires HasSuffix(e.name, ".json")
  {
    e.name[..|e.name| - 5]
  }

  predicate IsRecord(e: Entry, valid: string -> bool) { !e.isDir && HasSuffix(e.name, ".json") && valid(VersionOf(e)) }

  predicate Recorded(ents: seq<Entry>, valid: string -> bool, v: string) {
    exists e | e in ents :: IsRecord(e, valid) && VersionOf(e) == v
  }

  type Order = (string, string) -> int

  ghost predicate Preorder(cmp: Order) {
    && (forall a, b :: cmp(a, b) == -cmp(b, a))
    && (forall a, b, c :: Chains(cmp(a, b), cmp(b, c), cmp(a, c)))
  }

  lemma VersionsInOrder()
    ensures Preorder(Cmp)
  {
    forall a, b ensures Cmp(a, b) == -Cmp(b, a) { Antisymmetric(a, b); }
    forall a, b, c ensures Chains(Cmp(a, b), Cmp(b, c), Cmp(a, c)) { Transitive(a, b, c); }
  }

  predicate Ascending(vs: seq<string>, cmp: Order) { forall i, j | 0 <= i < j < |vs| :: cmp(vs[i], vs[j]) <= 0 }

  /** Where v goes among versions in order: after those it does not exceed. */
  method PlaceFor(out: seq<string>, v: string, cmp: Order) returns (j: nat)
    requires Preorder(cmp) && Ascending(out, cmp)
    ensures j <= |out| && (j > 0 ==> cmp(v, out[j - 1]) >= 0)
    ensures forall k | j <= k < |out| :: cmp(v, out[k]) <= 0
  {
    j := |out|;
    while j > 0 && cmp(v, out[j - 1]) < 0
      invariant 0 <= j <= |out|
      invariant forall k | j <= k < |out| :: cmp(v, out[k]) <= 0
    {
      j := j - 1;
    }
  }

  lemma InsertedCounts(out: seq<string>, j: nat, v: string)
    requires j <= |out|
    ensures multiset(out[..j] + [v] + out[j..]) == multiset(out) + multiset{v}
  {
    assert out == out[..j] + out[j..];
  }

  lemma TakenCounts(vs: seq<string>, i: nat)
    requires i < |vs|
    ensures multiset(vs[..i + 1]) == multiset(vs[..i]) + multiset{vs[i]}
  {
    assert vs[..i + 1] == vs[..i] + [vs[i]];
  }

  /** sort.Slice */
  method SortVersions(vs: seq<string>, cmp: Order) returns (out: seq<string>)
    requires Preorder(cmp)
    ensures multiset(out) == multiset(vs) && Ascending(out, cmp)
  {
    out := [];
    for i := 0 to |vs|
      invariant multiset(out) == multiset(vs[..i]) && Ascending(out, cmp)
    {
      var j := PlaceFor(out, vs[i], cmp);
      Placed(out, j, vs[i], cmp);
      InsertedCounts(out, j, vs[i]);
      TakenCounts(vs, i);
      out := out[..j] + [vs[i]] + out[j..];
    }
    assert vs[..|vs|] == vs;
  }

  lemma Placed(out: seq<string>, j: nat, v: string, cmp: Order)
    requires j <= |out| && Preorder(cmp) && Ascending(out, cmp)
    requires j > 0 ==> cmp(v, out[j - 1]) >= 0
    requires forall k | j <= k < |out| :: cmp(v, out[k]) <= 0
    ensures Ascending(out[..j] + [v] + out[j..], cmp)
  {
    var all := out[..j] + [v] + out[j..];
    forall k | 0 <= k < j ensures cmp(out[k], v) <= 0 {
      assert cmp(out[j - 1], v) == -cmp(v, out[j - 1]);
      assert k < j - 1 ==> Chains(cmp(out[k], out[j - 1]), cmp(out[j - 1], v), cmp(out[k], v));
    }
    forall x, y | 0 <= x < y < |all| ensures cmp(all[x], all[y]) <= 0 {
      InPlace(out, j, v, x);
      InPlace(out, j, v, y);
    }
  }

  lemma InPlace(out: seq<string>, j: nat, v: string, x: nat)
    requires j <= |out| && x < |out| + 1
    ensures (out[..j] + [v] + out[j..])[x] == if x < j then out[x] else if x == j then v else out[x - 1]
  {
  }

  /** The highest recorded version: none only when nothing valid is recorded, and a recorded version
      that no other exceeds. */
  method Latest(ents: seq<Entry>, valid: string -> bool) returns (r: Option<string>)
    ensures r.None? <==> forall e | e in ents :: !IsRecord(e, valid)
    ensures r.Some? ==> Recorded(ents, valid, r.value) && forall w | Recorded(ents, valid, w) :: Cmp(w, r.value) <= 0
  {
    var vs: seq<string> := [];
    for i := 0 to |ents|
      invariant forall k | 0 <= k < |vs| :: Recorded(ents, valid, vs[k])
      invariant forall e | e in ents[..i] && IsRecord(e, valid) :: VersionOf(e) in vs
    {
      assert ents[..i + 1] == ents[..i] + [ents[i]];
      assert ents[i] in ents;
      if !ents[i].isDir && HasSuffix(ents[i].name, ".json") && valid(VersionOf(ents[i])) {
        vs := vs + [VersionOf(ents[i])];
      }
    }
    assert ents[..|ents|] == ents;
    if |vs| == 0 { return None; }
    assert Recorded(ents, valid, vs[0]);
    VersionsInOrder();
    var sorted := SortVersions(vs, Cmp);
    assert |multiset(sorted)| == |multiset(vs)|;
    r := Some(sorted[|sorted| - 1]);
    Sorted(vs, sorted, Cmp);
    assert r.value in vs;
  }

  lemma Sorted(vs: seq<string>, sorted: seq<string>, cmp: Order)
    requires multiset(sorted) == multiset(vs) && Preorder(cmp) && Ascending(sorted, cmp) && sorted != []
    ensures sorted[|sorted| - 1] in vs
    ensures forall v | v in vs :: cmp(v, sorted[|sorted| - 1]) <= 0
  {
    var last := sorted[|sorted| - 1];
    assert last in multiset(sorted);
    forall v | v in vs ensures cmp(v, last) <= 0 {
      assert v in multiset(vs) && v in multiset(sorted);
      var i :| 0 <= i < |sorted| && sorted[i] == v;
      assert cmp(last, last) == -cmp(last, last);
    }
  }

  // ----- section 11 of Semantic Versioning 2.0.0 -----

  datatype Ident = Numeric(n: nat) | Alnum(s: string)
  datatype SemVer = SemVer(major: nat, minor: nat, patch: nat, pre: seq<Ident>)

  predicate IdChar(c: char) { 'A' <= c <= 'Z' || 'a' <= c <= 'z' || IsDigit(c) || c == '-' }

  /** Identifiers of only digits are numeric; the others are not empty and of ASCII letters, digits and
      hyphens. */
  predicate WellFormedId(x: Ident) {
    x.Alnum? ==> x.s != "" && (forall i | 0 <= i < |x.s| :: IdChar(x.s[i])) && !AllDigits(x.s)
  }

  predicate WellFormed(v: SemVer) { forall i | 0 <= i < |v.pre| :: WellFormedId(v.pre[i]) }

  predicate IdLower(x: Ident, y: Ident) {
    match (x, y)
    case (Numeric(m), Numeric(n)) => m < n
    case (Numeric(_), Alnum(_)) => true
    case (Alnum(_), Numeric(_)) => false
    case (Alnum(s), Alnum(t)) => LexLess(s, t)
  }

  /** At the first difference the lower identifier, or the end, makes the lower prerelease. */
  predicate DiffersAt(p: seq<Ident>, q: seq<Ident>, i: nat) {
    && i <= |p| && i < |q| && p[..i] == q[..i]
    && (i < |p| ==> p[i] != q[i] && IdLower(p[i], q[i]))
  }

  predicate PreLower(p: seq<Ident>, q: seq<Ident>) { exists i: nat | i < |q| :: DiffersAt(p, q, i) }

  predicate CoreLower(a: SemVer, b: SemVer) {
    a.major < b.major || (a.major == b.major && (a.minor < b.minor || (a.minor == b.minor && a.patch < b.patch)))
  }

  predicate SameCore(a: SemVer, b: SemVer) { a.major == b.major && a.minor == b.minor && a.patch == b.patch }

  /** a has lower precedence than b. */
  predicate Lower(a: SemVer, b: SemVer) {
    CoreLower(a, b)
    || (SameCore(a, b) && ((a.pre != [] && b.pre == []) || (a.pre != [] && b.pre != [] && PreLower(a.pre, b.pre))))
  }

  // ----- a version as text -----

  function IdText(x: Ident): string { if x.Numeric? then Decimal(x.n) else x.s }

  function IdTexts(p: seq<Ident>): (ts: seq<string>)
    ensures |ts| == |p|
  {
    if p == [] then [] else [IdText(p[0])] + IdTexts(p[1..])
  }

  function CoreText(v: SemVer): string { Join([Decimal(v.major), Decimal(v.minor), Decimal(v.patch)], '.') }

  function Render(v: SemVer, build: Option<string>): string {
    CoreText(v) + (Dashed(v.pre) + (if build.Some? then ['+'] + build.value else ""))
  }

  lemma {:induction false} JoinAvoids(parts: seq<string>, sep: char, c: char)
    requires c != sep && forall p | p in parts :: c !in p
    ensures c !in Join(parts, sep)
    decreases |parts|
  {
    if |parts| == 1 {
      assert parts[0] in parts;
    } else if |parts| > 1 {
      assert parts[0] in parts && forall p | p in parts[1..] :: p in parts;
      JoinAvoids(parts[1..], sep, c);
    }
  }

  lemma DecimalAvoids(n: nat)
    ensures '.' !in Decimal(n) && '-' !in Decimal(n) && '+' !in Decimal(n)
  {
    var d := Decimal(n);
    forall i | 0 <= i < |d| ensures d[i] != '.' && d[i] != '-' && d[i] != '+' { assert IsDigit(d[i]); }
  }

  lemma {:induction false} IdTextsAvoid(p: seq<Ident>)
    requires forall i | 0 <= i < |p| :: WellFormedId(p[i])
    ensures forall t | t in IdTexts(p) :: t != "" && '.' !in t && '+' !in t
  {
    if p != [] {
      if p[0].Numeric? {
        DecimalAvoids(p[0].n);
      } else {
        var s := p[0].s;
        forall i | 0 <= i < |s| ensures s[i] != '.' && s[i] != '+' { assert IdChar(s[i]); }
      }
      IdTextsAvoid(p[1..]);
    }
  }

  lemma CoreReads(v: SemVer)
    ensures '-' !in CoreText(v) && '+' !in CoreText(v)
    ensures Split(CoreText(v), '.') == [Decimal(v.major), Decimal(v.minor), Decimal(v.patch)]
  {
    DecimalAvoids(v.major);
    DecimalAvoids(v.minor);
    DecimalAvoids(v.patch);
    var parts := [Decimal(v.major), Decimal(v.minor), Decimal(v.patch)];
    JoinAvoids(parts, '.', '-');
    JoinAvoids(parts, '.', '+');
    SplitJoin(parts, '.');
  }

  lemma PreReads(p: seq<Ident>)
    requires p != [] && forall i | 0 <= i < |p| :: WellFormedId(p[i])
    ensures var t := Join(IdTexts(p), '.');
            t != "" && '+' !in t && Split(t, '.') == IdTexts(p)
  {
    IdTextsAvoid(p);
    var ts := IdTexts(p);
    assert ts[0] in ts;
    SplitJoin(ts, '.');
    JoinAvoids(ts, '.', '+');
  }

  function PreText(p: seq<Ident>): string { if p == [] then "" else Join(IdTexts(p), '.') }

  lemma CutAt(a: string, c: char, b: string)
    requires c !in a
    ensures IndexOf(a + ([c] + b), c) == |a|
    ensures (a + ([c] + b))[..|a|] == a && (a + ([c] + b))[|a| + 1..] == b
  {
    assert (a + ([c] + b))[..|a|] == a;
    IndexOfIs(a + ([c] + b), c, |a|);
  }

  lemma CutBuild(b: string, build: Option<string>)
    requires '+' !in b
    ensures Base(b + (if build.Some? then ['+'] + build.value else "")) == b
  {
    if build.Some? { CutAt(b, '+', build.value); } else { assert b + "" == b && b[..|b|] == b; }
  }

  function Dashed(p: seq<Ident>): string { if p == [] then "" else ['-'] + Join(IdTexts(p), '.') }

  lemma DashedAvoids(p: seq<Ident>)
    requires forall i | 0 <= i < |p| :: WellFormedId(p[i])
    ensures '+' !in Dashed(p)
  {
    if p != [] { PreReads(p); }
  }

  lemma BaseReads(v: SemVer, build: Option<string>)
    requires WellFormed(v)
    ensures Base(Render(v, build)) == CoreText(v) + Dashed(v.pre)
  {
    CoreReads(v);
    DashedAvoids(v.pre);
    var c, d := CoreText(v), Dashed(v.pre);
    CutBuild(c + d, build);
    Regroup(c, d, if build.Some? then ['+'] + build.value else "");
  }

  lemma Regroup(a: string, b: string, c: string)
    ensures a + (b + c) == a + b + c
  {
  }

  function CoreOf(v: SemVer): seq<int> {
    [AtoiValue(Decimal(v.major)), AtoiValue(Decimal(v.minor)), AtoiValue(Decimal(v.patch))]
  }

  lemma NumbersOf(x: string, y: string, z: string)
    ensures Numbers([x, y, z]) == [AtoiValue(x), AtoiValue(y), AtoiValue(z)]
  {
    assert [x, y, z][1..] == [y, z] && [y, z][1..] == [z] && [z][1..] == [];
    assert Numbers([z]) == [AtoiValue(z)];
    assert Numbers([y, z]) == [AtoiValue(y), AtoiValue(z)];
  }

  lemma SplitAt(v: string, core: string, p: seq<Ident>)
    requires Base(v) == core + Dashed(p) && '-' !in core
    ensures SplitVersion(v) == Parts(Numbers(Split(core, '.')), PreText(p))
  {
    if p == [] {
      assert core + "" == core && core[..|core|] == core;
    } else {
      CutAt(core, '-', PreText(p));
    }
  }

  /** Splitting a version's text finds its numbers and its prerelease; build metadata is dropped. */
  lemma RenderReads(v: SemVer, build: Option<string>)
    requires WellFormed(v)
    ensures SplitVersion(Render(v, build)) == Parts(CoreOf(v), PreText(v.pre))
  {
    BaseReads(v, build);
    CoreReads(v);
    NumbersOf(Decimal(v.major), Decimal(v.minor), Decimal(v.patch));
    SplitAt(Render(v, build), CoreText(v), v.pre);
  }

  // ----- where the two orders agree -----

  function Min(a: int, b: int): int { if a < b then a else b }

  lemma ValueOfDecimal(n: nat)
    ensures AtoiValue(Decimal(n)) == Min(n, MAX_INT)
  {
    assert IsDigit(Decimal(n)[0]);
  }

  /** An identifier Atoi takes for a negative number: a hyphen before digits whose value fits an int. */
  predicate Negative(s: string) {
    |s| > 1 && s[0] == '-' && AllDigits(s[1..]) && NumeralValue(s[1..]) <= MAX_INT + 1
  }

  predicate FitsId(x: Ident) { match x case Numeric(n) => n <= MAX_INT case Alnum(s) => !Negative(s) }

  /** Every number fits an int and no identifier reads as a negative one. */
  predicate Fits(v: SemVer) {
    v.major <= MAX_INT && v.minor <= MAX_INT && v.patch <= MAX_INT && forall i | 0 <= i < |v.pre| :: FitsId(v.pre[i])
  }

  lemma IdReads(x: Ident)
    requires WellFormedId(x)
    ensures match x
            case Numeric(n) => Atoi(IdText(x)) == if n <= MAX_INT then Some(n as int) else None
            case Alnum(s) => Atoi(s) == if Negative(s) then Some(-(NumeralValue(s[1..]) as int)) else None
  {
    match x
    case Numeric(n) => assert IsDigit(Decimal(n)[0]);
    case Alnum(s) =>
      assert IdChar(s[0]);
      if s[0] != '-' { assert Unsigned(s) == s; }
  }

  lemma IdAgrees(x: Ident, y: Ident)
    requires WellFormedId(x) && WellFormedId(y) && FitsId(x) && FitsId(y)
    ensures CmpId(IdText(x), IdText(y)) == 0 <==> x == y
    ensures x != y ==> (CmpId(IdText(x), IdText(y)) < 0 <==> IdLower(x, y))
  {
    IdReads(x);
    IdReads(y);
  }

  predicate FineIds(p: seq<Ident>) { forall i | 0 <= i < |p| :: WellFormedId(p[i]) && FitsId(p[i]) }

  lemma {:induction false} PreAgrees(p: seq<Ident>, q: seq<Ident>)
    requires FineIds(p) && FineIds(q)
    ensures CmpIds(IdTexts(p), IdTexts(q)) == 0 <==> p == q
    ensures CmpIds(IdTexts(p), IdTexts(q)) < 0 <==> PreLower(p, q)
    decreases |p|
  {
    if p != [] && q != [] {
      IdAgrees(p[0], q[0]);
      PreAgrees(p[1..], q[1..]);
      CmpIdsStep(p, q);
      PreLowerStep(p, q);
      assert p == [p[0]] + p[1..] && q == [q[0]] + q[1..];
    } else if q != [] {
      assert DiffersAt(p, q, 0);
    }
  }

  lemma CmpIdsStep(p: seq<Ident>, q: seq<Ident>)
    requires p != [] && q != []
    ensures var c := CmpId(IdText(p[0]), IdText(q[0]));
            CmpIds(IdTexts(p), IdTexts(q)) == if c != 0 then c else CmpIds(IdTexts(p[1..]), IdTexts(q[1..]))
  {
  }

  lemma PreLowerStep(p: seq<Ident>, q: seq<Ident>)
    requires p != [] && q != []
    ensures PreLower(p, q) <==> if p[0] == q[0] then PreLower(p[1..], q[1..]) else IdLower(p[0], q[0])
  {
    if PreLower(p, q) {
      var i: nat :| i < |q| && DiffersAt(p, q, i);
      if i > 0 {
        assert p[0] == p[..i][0] == q[..i][0];
        assert p[1..][..i - 1] == p[..i][1..] == q[..i][1..] == q[1..][..i - 1];
        assert DiffersAt(p[1..], q[1..], i - 1);
      }
    }
    if p[0] == q[0] && PreLower(p[1..], q[1..]) {
      var i: nat :| i < |q[1..]| && DiffersAt(p[1..], q[1..], i);
      assert p[..i + 1] == [p[0]] + p[1..][..i] && q[..i + 1] == [q[0]] + q[1..][..i];
      assert DiffersAt(p, q, i + 1);
    }
    if p[0] != q[0] && IdLower(p[0], q[0]) { assert DiffersAt(p, q, 0); }
  }

  /** The answer for two versions as text, whatever their build metadata. */
  function Answer(a: SemVer, b: SemVer): int { CmpParts(Parts(CoreOf(a), PreText(a.pre)), Parts(CoreOf(b), PreText(b.pre))) }

  predicate AsPrecedence(c: int, a: SemVer, b: SemVer) { (c < 0 <==> Lower(a, b)) && (c == 0 <==> a == b) }

  /** The two texts compare as the precedence says, with any build metadata on either. */
  ghost predicate Agree(a: SemVer, b: SemVer) {
    forall x: Option<string>, y: Option<string> :: AsPrecedence(Cmp(Render(a, x), Render(b, y)), a, b)
  }

  lemma AnswerIs(a: SemVer, b: SemVer, x: Option<string>, y: Option<string>)
    requires WellFormed(a) && WellFormed(b)
    ensures Cmp(Render(a, x), Render(b, y)) == Answer(a, b)
  {
    RenderReads(a, x);
    RenderReads(b, y);
  }

  lemma AgreeByAnswer(a: SemVer, b: SemVer)
    requires WellFormed(a) && WellFormed(b)
    ensures Agree(a, b) <==> AsPrecedence(Answer(a, b), a, b)
  {
    var none: Option<string> := None;
    forall x: Option<string>, y: Option<string> ensures Cmp(Render(a, x), Render(b, y)) == Answer(a, b) {
      AnswerIs(a, b, x, y);
    }
    assert Agree(a, b) ==> AsPrecedence(Cmp(Render(a, none), Render(b, none)), a, b);
  }

  function CmpThree(a: SemVer, b: SemVer): int {
    var m := MAX_INT;
    if Min(a.major, m) != Min(b.major, m) then CmpInt(Min(a.major, m), Min(b.major, m))
    else if Min(a.minor, m) != Min(b.minor, m) then CmpInt(Min(a.minor, m), Min(b.minor, m))
    else CmpInt(Min(a.patch, m), Min(b.patch, m))
  }

  lemma CoreAnswer(a: SemVer, b: SemVer)
    ensures CmpCore(CoreOf(a), CoreOf(b)) == CmpThree(a, b)
  {
    ValueOfDecimal(a.major);
    ValueOfDecimal(a.minor);
    ValueOfDecimal(a.patch);
    ValueOfDecimal(b.major);
    ValueOfDecimal(b.minor);
    ValueOfDecimal(b.patch);
    ThreeNumbers(CoreOf(a), CoreOf(b));
  }

  lemma ThreeNumbers(xs: seq<int>, ys: seq<int>)
    requires |xs| == |ys| == 3
    ensures CmpCore(xs, ys) == if xs[0] != ys[0] then CmpInt(xs[0], ys[0])
                               else if xs[1] != ys[1] then CmpInt(xs[1], ys[1]) else CmpInt(xs[2], ys[2])
  {
    assert From(xs, 0) == xs && From(ys, 0) == ys;
    CoreNext(xs, ys, 0);
    CoreNext(xs, ys, 1);
    CoreNext(xs, ys, 2);
  }

  lemma PresAgree(p: seq<Ident>, q: seq<Ident>)
    requires FineIds(p) && FineIds(q)
    ensures var c := CmpPre(PreText(p), PreText(q));
            (c < 0 <==> p != [] && (q == [] || PreLower(p, q))) && (c == 0 <==> p == q)
  {
    if p != [] { PreReads(p); }
    if q != [] { PreReads(q); }
    if p != [] && q != [] { PreAgrees(p, q); }
  }

  lemma CoresAgree(a: SemVer, b: SemVer)
    requires Fits(a) && Fits(b)
    ensures var c := CmpCore(CoreOf(a), CoreOf(b)); (c < 0 <==> CoreLower(a, b)) && (c == 0 <==> SameCore(a, b))
  {
    CoreAnswer(a, b);
  }

  /** The numbers' answer, or the prereleases' when the numbers are the same. */
  lemma BothParts(c: int, d: int, a: SemVer, b: SemVer)
    requires (c < 0 <==> CoreLower(a, b)) && (c == 0 <==> SameCore(a, b))
    requires (d < 0 <==> a.pre != [] && (b.pre == [] || PreLower(a.pre, b.pre))) && (d == 0 <==> a.pre == b.pre)
    ensures AsPrecedence(if c != 0 then c else d, a, b)
  {
  }

  lemma AnswerOrdered(a: SemVer, b: SemVer)
    requires WellFormed(a) && WellFormed(b) && Fits(a) && Fits(b)
    ensures AsPrecedence(Answer(a, b), a, b)
  {
    CoresAgree(a, b);
    PresAgree(a.pre, b.pre);
    BothParts(CmpCore(CoreOf(a), CoreOf(b)), CmpPre(PreText(a.pre), PreText(b.pre)), a, b);
  }

  /** The texts of two versions that fit compare exactly by the precedence of section 11, ties included. */
  lemma Agrees(a: SemVer, b: SemVer)
    requires WellFormed(a) && WellFormed(b) && Fits(a) && Fits(b)
    ensures Agree(a, b)
  {
    AnswerOrdered(a, b);
    AgreeByAnswer(a, b);
  }

  /** A version that does not fit is ordered against the precedence for some version that does. */
  lemma Misfit(a: SemVer) returns (b: SemVer)
    requires WellFormed(a) && !Fits(a)
    ensures WellFormed(b) && Fits(b) && !Agree(a, b)
  {
    if a.major > MAX_INT || a.minor > MAX_INT || a.patch > MAX_INT {
      b := Capped(a);
      MisfitCore(a, b);
    } else {
      b := MisfitIn(a, FirstMisfit(a.pre, 0));
    }
  }

  /** The greatest version the capped numbers of a cannot be told from. */
  function Capped(a: SemVer): (b: SemVer)
    ensures b.major <= MAX_INT && b.minor <= MAX_INT && b.patch <= MAX_INT && b.pre == []
  {
    var m := MAX_INT;
    SemVer(Min(a.major, m), if a.major > m then m else Min(a.minor, m),
           if a.major > m || a.minor > m then m else Min(a.patch, m), [])
  }

  /** A fitting identifier on the other side of one that does not fit. */
  function Replacement(x: Ident): (y: Ident)
    ensures WellFormedId(y) && FitsId(y)
  {
    if x.Numeric? then
      var s := "-";
      assert !IsDigit(s[0]);
      Alnum(s)
    else Numeric(1)
  }

  lemma MisfitIn(a: SemVer, i: nat) returns (b: SemVer)
    requires WellFormed(a) && a.major <= MAX_INT && a.minor <= MAX_INT && a.patch <= MAX_INT
    requires i < |a.pre| && !FitsId(a.pre[i]) && forall j | 0 <= j < i :: FitsId(a.pre[j])
    ensures WellFormed(b) && Fits(b) && !Agree(a, b)
  {
    var y := Replacement(a.pre[i]);
    PreMisfit(a.pre, i, y);
    b := SemVer(a.major, a.minor, a.patch, a.pre[..i] + [y]);
    forall k | 0 <= k < |b.pre| ensures WellFormedId(b.pre[k]) && FitsId(b.pre[k]) {
      if k < i { assert b.pre[k] == a.pre[k]; }
    }
    MisfitPre(a, b);
  }

  function FirstMisfit(p: seq<Ident>, i: nat): (k: nat)
    requires i <= |p| && (exists j | i <= j < |p| :: !FitsId(p[j])) && forall j | 0 <= j < i :: FitsId(p[j])
    ensures k < |p| && !FitsId(p[k]) && forall j | 0 <= j < k :: FitsId(p[j])
    decreases |p| - i
  {
    if !FitsId(p[i]) then i else FirstMisfit(p, i + 1)
  }

  lemma {:induction false} CommonPrefix(c: seq<Ident>, r: seq<Ident>, q: seq<Ident>)
    ensures CmpIds(IdTexts(c + r), IdTexts(c + q)) == CmpIds(IdTexts(r), IdTexts(q))
    ensures PreLower(c + r, c + q) <==> PreLower(r, q)
    decreases |c|
  {
    if c == [] {
      assert c + r == r && c + q == q;
    } else {
      assert (c + r)[1..] == c[1..] + r && (c + q)[1..] == c[1..] + q;
      CommonPrefix(c[1..], r, q);
      PreLowerStep(c + r, c + q);
      IdFlip(IdText(c[0]), IdText(c[0]));
    }
  }

  lemma IdMisfit(x: Ident, y: Ident)
    requires WellFormedId(x) && !FitsId(x) && y == if x.Numeric? then Alnum("-") else Numeric(1)
    ensures x != y && CmpId(IdText(x), IdText(y)) != 0
    ensures CmpId(IdText(x), IdText(y)) < 0 <==> !IdLower(x, y)
  {
    IdReads(x);
    if x.Numeric? {
      assert IsDigit(IdText(x)[0]);
    } else {
      IdReads(y);
    }
  }

  lemma PreMisfit(p: seq<Ident>, i: nat, y: Ident)
    requires forall k | 0 <= k < |p| :: WellFormedId(p[k])
    requires i < |p| && !FitsId(p[i]) && y == if p[i].Numeric? then Alnum("-") else Numeric(1)
    ensures CmpIds(IdTexts(p), IdTexts(p[..i] + [y])) < 0 <==> !PreLower(p, p[..i] + [y])
  {
    var c, r, q := p[..i], p[i..], [y];
    assert p == c + r;
    CommonPrefix(c, r, q);
    IdMisfit(p[i], y);
    PreLowerStep(r, q);
    assert IdTexts(r)[0] == IdText(p[i]) && IdTexts(q)[0] == IdText(y);
  }

  lemma MisfitCore(a: SemVer, b: SemVer)
    requires WellFormed(a) && WellFormed(b) && CoreLower(b, a) && CmpThree(a, b) <= 0 && b.pre == []
    ensures !Agree(a, b)
  {
    CoreAnswer(a, b);
    AgreeByAnswer(a, b);
  }

  lemma MisfitPre(a: SemVer, b: SemVer)
    requires WellFormed(a) && WellFormed(b) && SameCore(a, b) && a.pre != [] && b.pre != []
    requires CmpIds(IdTexts(a.pre), IdTexts(b.pre)) < 0 <==> !PreLower(a.pre, b.pre)
    ensures !Agree(a, b)
  {
    AgreeByAnswer(a, b);
    CoreAnswer(a, b);
    PreReads(a.pre);
    PreReads(b.pre);
  }

  /** A version is ordered by the precedence against every version that fits exactly when it fits itself:
      its numbers fit an int, and no identifier is a hyphen before digits whose value does. */
  lemma AgreesIff(a: SemVer)
    requires WellFormed(a)
    ensures Fits(a) <==> forall b | WellFormed(b) && Fits(b) :: Agree(a, b)
  {
    if Fits(a) {
      forall b | WellFormed(b) && Fits(b) ensures Agree(a, b) { Agrees(a, b); }
    } else {
      var b := Misfit(a);
    }
  }
}
