/** Which steps a manifest gives a release and in what order, read off the plan and not off how it is put
    together. */
module ReleaseOrder {
  import opened Text
  import opened ReleaseWorld

  // ----- the place of a step -----

  predicate Named(item: Item, prefix: string) { item.Run? && prefix <= item.name }

  /** The order of a release: snapshot, backup, sync, check names, save the images, build, hooks before the
      deploy, deploy, vhost, hooks after it, verify. */
  function Rank(item: Item): nat {
    if item == SaveImages then 4
    else if item == Run("managed-snapshot") then 0
    else if item == Run("backup") then 1
    else if Named(item, "sync:") then 2
    else if item == Run("check-names") then 3
    else if Named(item, "build:") then 5
    else if Named(item, "pre:") then 6
    else if item == Run("deploy") then 7
    else if item == Run("tls") then 8
    else if Named(item, "post:") then 9
    else if item == Run("verify") then 10
    else 11
  }

  /** The items of one rank, in the order they stand in. */
  function OfRank(f: Item -> nat, items: seq<Item>, r: nat): seq<Item> {
    if items == [] then [] else (if f(items[0]) == r then [items[0]] else []) + OfRank(f, items[1..], r)
  }

  predicate InOrder(f: Item -> nat, items: seq<Item>) { forall i, j | 0 <= i < j < |items| :: f(items[i]) <= f(items[j]) }

  // ----- blocks of one rank -----

  predicate AllOf(f: Item -> nat, items: seq<Item>, r: nat) { forall x | x in items :: f(x) == r }

  lemma {:induction false} OfRankConcat(f: Item -> nat, a: seq<Item>, b: seq<Item>, r: nat)
    ensures OfRank(f, a + b, r) == OfRank(f, a, r) + OfRank(f, b, r)
    decreases |a|
  {
    if a == [] {
      assert a + b == b;
    } else {
      assert (a + b)[1..] == a[1..] + b;
      OfRankConcat(f, a[1..], b, r);
    }
  }

  lemma {:induction false} OfItsRank(f: Item -> nat, items: seq<Item>, r: nat)
    requires AllOf(f, items, r)
    ensures OfRank(f, items, r) == items
  {
    if items != [] {
      assert items[0] in items && forall x | x in items[1..] :: x in items;
      OfItsRank(f, items[1..], r);
    }
  }

  lemma {:induction false} OfOtherRank(f: Item -> nat, items: seq<Item>, r: nat)
    requires forall x | x in items :: f(x) != r
    ensures OfRank(f, items, r) == []
  {
    if items != [] {
      assert items[0] in items && forall x | x in items[1..] :: x in items;
      OfOtherRank(f, items[1..], r);
    }
  }

  /** One block for each rank from `from` on. */
  predicate Ranked(f: Item -> nat, blocks: seq<seq<Item>>, from: nat) {
    forall k | 0 <= k < |blocks| :: AllOf(f, blocks[k], from + k)
  }

  lemma RankedTail(f: Item -> nat, blocks: seq<seq<Item>>, from: nat)
    requires blocks != [] && Ranked(f, blocks, from)
    ensures Ranked(f, blocks[1..], from + 1)
  {
    var rest := blocks[1..];
    forall k | 0 <= k < |rest| ensures AllOf(f, rest[k], from + 1 + k) {
      assert AllOf(f, blocks[k + 1], from + (k + 1));
    }
  }

  lemma {:induction false} ConcatRanks(f: Item -> nat, blocks: seq<seq<Item>>, from: nat)
    requires Ranked(f, blocks, from)
    ensures forall x | x in Concat(blocks) :: from <= f(x) < from + |blocks|
    ensures InOrder(f, Concat(blocks))
    decreases |blocks|
  {
    if blocks != [] {
      RankedTail(f, blocks, from);
      ConcatRanks(f, blocks[1..], from + 1);
      assert AllOf(f, blocks[0], from + 0);
      OrderConcat(f, blocks[0], Concat(blocks[1..]), from);
    }
  }

  lemma OrderConcat(f: Item -> nat, a: seq<Item>, b: seq<Item>, r: nat)
    requires AllOf(f, a, r) && InOrder(f, b) && forall x | x in b :: f(x) > r
    ensures InOrder(f, a + b)
  {
  }

  lemma HeadRank(f: Item -> nat, blocks: seq<seq<Item>>, from: nat)
    requires blocks != [] && Ranked(f, blocks, from)
    ensures AllOf(f, blocks[0], from)
  {
    assert AllOf(f, blocks[0], from + 0);
  }

  lemma FirstOfRank(f: Item -> nat, a: seq<Item>, b: seq<Item>, r: nat, q: nat)
    requires AllOf(f, a, r) && forall x | x in b :: f(x) > r
    ensures OfRank(f, a + b, q) == if q == r then a else OfRank(f, b, q)
  {
    OfRankConcat(f, a, b, q);
    if q == r {
      OfItsRank(f, a, r);
      OfOtherRank(f, b, r);
      assert a + [] == a;
    } else {
      OfOtherRank(f, a, q);
      assert [] + OfRank(f, b, q) == OfRank(f, b, q);
    }
  }

  lemma FirstBlock(f: Item -> nat, blocks: seq<seq<Item>>, from: nat, q: nat)
    requires blocks != [] && Ranked(f, blocks, from)
    ensures OfRank(f, Concat(blocks), q) == if q == from then blocks[0] else OfRank(f, Concat(blocks[1..]), q)
  {
    RankedTail(f, blocks, from);
    HeadRank(f, blocks, from);
    ConcatRanks(f, blocks[1..], from + 1);
    FirstOfRank(f, blocks[0], Concat(blocks[1..]), from, q);
  }

  lemma {:induction false} ConcatOfRank(f: Item -> nat, blocks: seq<seq<Item>>, from: nat, k: nat)
    requires Ranked(f, blocks, from) && k < |blocks|
    ensures OfRank(f, Concat(blocks), from + k) == blocks[k]
    decreases |blocks|
  {
    FirstBlock(f, blocks, from, from + k);
    if k > 0 {
      RankedTail(f, blocks, from);
      var rest, next := blocks[1..], from + 1;
      ConcatOfRank(f, rest, next, k - 1);
      assert rest[k - 1] == blocks[k] && next + (k - 1) == from + k;
    }
  }

  lemma {:induction false} OfRankHas(f: Item -> nat, items: seq<Item>, x: Item)
    ensures x in items <==> x in OfRank(f, items, f(x))
    decreases |items|
  {
    if items != [] {
      OfRankHas(f, items[1..], x);
      assert items == [items[0]] + items[1..];
    }
  }

  // ----- the blocks of a plan -----

  /** A plan's blocks, the saving of the images apart from the name check before it. */
  function Pieces(m: Manifest): (ps: seq<seq<Item>>)
    ensures |ps| == 11
  {
    var b := Blocks(m);
    b[..3] + [When(!m.noCompose, [Run("check-names")]), When(!m.noCompose, [SaveImages])] + b[4..]
  }

  lemma {:induction false} ConcatAppend(a: seq<seq<Item>>, b: seq<seq<Item>>)
    ensures Concat(a + b) == Concat(a) + Concat(b)
    decreases |a|
  {
    if a == [] {
      assert a + b == b;
    } else {
      assert (a + b)[1..] == a[1..] + b;
      ConcatAppend(a[1..], b);
    }
  }

  lemma ConcatTwo(x: seq<Item>, y: seq<Item>)
    ensures Concat([x, y]) == x + y && Concat([x + y]) == x + y
  {
    assert [x, y][1..] == [y] && [y][1..] == [] && [x + y][1..] == [];
    assert Concat([y]) == y + [];
  }

  lemma PlanIsPieces(m: Manifest)
    ensures Plan(m) == Concat(Pieces(m))
  {
    var b := Blocks(m);
    var x, y := When(!m.noCompose, [Run("check-names")]), When(!m.noCompose, [SaveImages]);
    assert b[3] == x + y;
    assert b == b[..3] + [x + y] + b[4..];
    ConcatTwo(x, y);
    ConcatAppend(b[..3] + [x + y], b[4..]);
    ConcatAppend(b[..3], [x + y]);
    ConcatAppend(b[..3] + [x, y], b[4..]);
    ConcatAppend(b[..3], [x, y]);
  }

  /** The first letters of a name tell its kind. */
  lemma RankOfSync(x: string)
    ensures Rank(Run("sync:" + x)) == 2
  {
    var n := "sync:" + x;
    assert n[0] == 's' && "sync:" <= n;
  }

  lemma RankOfBuild(x: string)
    ensures Rank(Run("build:" + x)) == 5
  {
    var n := "build:" + x;
    assert n[0] == 'b' && n[1] == 'u' && "build:" <= n;
  }

  lemma RankOfPre(x: string)
    ensures Rank(Run("pre:" + x)) == 6
  {
    var n := "pre:" + x;
    assert n[0] == 'p' && n[1] == 'r' && "pre:" <= n;
  }

  lemma RankOfPost(x: string)
    ensures Rank(Run("post:" + x)) == 9
  {
    var n := "post:" + x;
    assert n[0] == 'p' && n[1] == 'o' && "post:" <= n;
  }

  lemma RankOfOnes()
    ensures Rank(Run("managed-snapshot")) == 0 && Rank(Run("backup")) == 1 && Rank(Run("check-names")) == 3
    ensures Rank(Run("deploy")) == 7 && Rank(Run("tls")) == 8 && Rank(Run("verify")) == 10
  {
    NoPrefix("check-names");
    NoPrefix("deploy");
    NoPrefix("tls");
    NoPrefix("verify");
  }

  /** A name that starts like no sync, build or hook. */
  lemma NoPrefix(n: string)
    requires n != "" && n[0] != 's' && n[0] != 'b' && n[0] != 'p'
    ensures !("sync:" <= n) && !("build:" <= n) && !("pre:" <= n) && !("post:" <= n)
  {
  }

  lemma SomeOf(f: Item -> nat, b: bool, items: seq<Item>, r: nat)
    requires AllOf(f, items, r)
    ensures AllOf(f, When(b, items), r)
  {
  }

  lemma OneOf(f: Item -> nat, b: bool, x: Item, r: nat)
    requires f(x) == r
    ensures AllOf(f, When(b, [x]), r)
  {
  }

  lemma EachOf(f: Item -> nat, items: seq<Item>, r: nat)
    requires forall i | 0 <= i < |items| :: f(items[i]) == r
    ensures AllOf(f, items, r)
  {
  }

  lemma SyncPieces(names: seq<string>)
    ensures AllOf(Rank, Runs("sync:", names), 2)
  {
    var items := Runs("sync:", names);
    forall i | 0 <= i < |items| ensures Rank(items[i]) == 2 { RankOfSync(names[i]); }
    EachOf(Rank, items, 2);
  }

  lemma BackupPieces(m: Manifest)
    ensures AllOf(Rank, Pieces(m)[0], 0) && AllOf(Rank, Pieces(m)[1], 1) && AllOf(Rank, Pieces(m)[2], 2)
  {
    RankOfOnes();
    SyncPieces(m.sync);
    OneOf(Rank, !m.noBackup && m.managed, Run("managed-snapshot"), 0);
    OneOf(Rank, !m.noBackup && m.strategies, Run("backup"), 1);
  }

  lemma NamePieces(m: Manifest)
    ensures AllOf(Rank, Pieces(m)[3], 3) && AllOf(Rank, Pieces(m)[4], 4)
  {
    RankOfOnes();
    OneOf(Rank, !m.noCompose, Run("check-names"), 3);
    OneOf(Rank, !m.noCompose, SaveImages, 4);
  }

  lemma MiddlePieces(m: Manifest)
    ensures var ps := Pieces(m); AllOf(Rank, ps[5], 5) && AllOf(Rank, ps[6], 6) && AllOf(Rank, ps[7], 7)
  {
    RankOfOnes();
    OneOf(Rank, !m.noCompose, Run("deploy"), 7);
    var builds, pre := Runs("build:", m.builds), Numbered("pre:", m.pre);
    forall i | 0 <= i < |builds| ensures Rank(builds[i]) == 5 { RankOfBuild(m.builds[i]); }
    forall i | 0 <= i < |pre| ensures Rank(pre[i]) == 6 { RankOfPre(Decimal(i + 1)); }
    EachOf(Rank, builds, 5);
    EachOf(Rank, pre, 6);
    SomeOf(Rank, !m.noBuild, builds, 5);
  }

  lemma LastPieces(m: Manifest)
    ensures var ps := Pieces(m); AllOf(Rank, ps[8], 8) && AllOf(Rank, ps[9], 9) && AllOf(Rank, ps[10], 10)
  {
    RankOfOnes();
    OneOf(Rank, m.tls, Run("tls"), 8);
    OneOf(Rank, m.verify, Run("verify"), 10);
    var post := Numbered("post:", m.post);
    forall i | 0 <= i < |post| ensures Rank(post[i]) == 9 { RankOfPost(Decimal(i + 1)); }
    EachOf(Rank, post, 9);
  }

  lemma PiecesRanked(m: Manifest)
    ensures Ranked(Rank, Pieces(m), 0)
  {
    BackupPieces(m);
    NamePieces(m);
    MiddlePieces(m);
    LastPieces(m);
  }

  // ----- what a plan holds -----

  /** Steps of one rank, one for each name listed, in the order of the list. */
  predicate OnePer(items: seq<Item>, prefix: string, names: seq<string>) {
    |items| == |names| && forall i | 0 <= i < |names| :: items[i] == Run(prefix + names[i])
  }

  predicate OneHook(items: seq<Item>, prefix: string, n: nat) {
    |items| == n && forall i | 0 <= i < n :: items[i] == Run(prefix + Decimal(i + 1))
  }

  predicate Counted(x: string, i: nat) { x == Decimal(i + 1) }

  /** x is the numeral of a number from 1 to n. */
  predicate IsNumber(x: string, n: nat) { exists i: nat | i < n :: Counted(x, i) }

  predicate JustIf(b: bool, items: seq<Item>, x: Item) { items == if b then [x] else [] }

  /** The plan of every manifest stands in the order of the ranks, holds nothing else, and has of each rank
      exactly what the manifest and its flags ask for: a snapshot and a backup unless there is to be none,
      a sync and a build for each entry in its order, the hooks by their numbers, and the images saved
      before a deploy. That leaves one plan for each manifest. */
  lemma PlanIs(m: Manifest)
    ensures var p := Plan(m);
            && InOrder(Rank, p) && (forall x | x in p :: Rank(x) <= 10)
            && JustIf(!m.noBackup && m.managed, OfRank(Rank, p, 0), Run("managed-snapshot"))
            && JustIf(!m.noBackup && m.strategies, OfRank(Rank, p, 1), Run("backup"))
            && OnePer(OfRank(Rank, p, 2), "sync:", m.sync)
            && JustIf(!m.noCompose, OfRank(Rank, p, 3), Run("check-names"))
            && JustIf(!m.noCompose, OfRank(Rank, p, 4), SaveImages)
            && OnePer(OfRank(Rank, p, 5), "build:", if m.noBuild then [] else m.builds)
            && OneHook(OfRank(Rank, p, 6), "pre:", m.pre)
            && JustIf(!m.noCompose, OfRank(Rank, p, 7), Run("deploy"))
            && JustIf(m.tls, OfRank(Rank, p, 8), Run("tls"))
            && OneHook(OfRank(Rank, p, 9), "post:", m.post)
            && JustIf(m.verify, OfRank(Rank, p, 10), Run("verify"))
  {
    PlanRanks(m);
  }

  lemma PlanRanks(m: Manifest)
    ensures InOrder(Rank, Plan(m)) && forall x | x in Plan(m) :: Rank(x) <= 10
    ensures forall k | 0 <= k < 11 :: OfRank(Rank, Plan(m), k) == Pieces(m)[k]
  {
    PlanIsPieces(m);
    PiecesRanked(m);
    ConcatRanks(Rank, Pieces(m), 0);
    forall k | 0 <= k < 11 ensures OfRank(Rank, Plan(m), k) == Pieces(m)[k] {
      ConcatOfRank(Rank, Pieces(m), 0, k);
    }
  }

  /** Step by step: which steps a release has. */
  lemma PlanHasIff(m: Manifest, x: string)
    ensures var p := Plan(m);
            && (Run("managed-snapshot") in p <==> !m.noBackup && m.managed)
            && (Run("backup") in p <==> !m.noBackup && m.strategies)
            && (Run("sync:" + x) in p <==> x in m.sync)
            && (Run("check-names") in p <==> !m.noCompose) && (SaveImages in p <==> !m.noCompose)
            && (Run("build:" + x) in p <==> !m.noBuild && x in m.builds)
            && (Run("pre:" + x) in p <==> IsNumber(x, m.pre))
            && (Run("deploy") in p <==> !m.noCompose) && (Run("tls") in p <==> m.tls)
            && (Run("post:" + x) in p <==> IsNumber(x, m.post))
            && (Run("verify") in p <==> m.verify)
  {
    PlanIs(m);
    OnesHas(m);
    ListedHas(m, x);
    HooksHas(m, x);
  }

  lemma OnesHas(m: Manifest)
    ensures var p := Plan(m);
            && (Run("managed-snapshot") in p <==> !m.noBackup && m.managed)
            && (Run("backup") in p <==> !m.noBackup && m.strategies)
            && (Run("check-names") in p <==> !m.noCompose) && (SaveImages in p <==> !m.noCompose)
            && (Run("deploy") in p <==> !m.noCompose) && (Run("tls") in p <==> m.tls)
            && (Run("verify") in p <==> m.verify)
  {
    var p := Plan(m);
    PlanIs(m);
    RankOfOnes();
    OfRankHas(Rank, p, Run("managed-snapshot"));
    OfRankHas(Rank, p, Run("backup"));
    OfRankHas(Rank, p, Run("check-names"));
    OfRankHas(Rank, p, SaveImages);
    OfRankHas(Rank, p, Run("deploy"));
    OfRankHas(Rank, p, Run("tls"));
    OfRankHas(Rank, p, Run("verify"));
  }

  lemma PerHas(items: seq<Item>, prefix: string, names: seq<string>, x: string)
    requires OnePer(items, prefix, names)
    ensures Run(prefix + x) in items <==> x in names
  {
    forall i | 0 <= i < |names| ensures items[i] == Run(prefix + x) <==> names[i] == x {
      assert (prefix + x)[|prefix|..] == x && (prefix + names[i])[|prefix|..] == names[i];
    }
  }

  lemma HookHas(items: seq<Item>, prefix: string, n: nat, x: string)
    requires OneHook(items, prefix, n)
    ensures Run(prefix + x) in items <==> IsNumber(x, n)
  {
    forall i | 0 <= i < n ensures items[i] == Run(prefix + x) <==> Decimal(i + 1) == x {
      assert (prefix + x)[|prefix|..] == x && (prefix + Decimal(i + 1))[|prefix|..] == Decimal(i + 1);
    }
    if i: nat :| i < n && Counted(x, i) { assert items[i] in items; }
    if Run(prefix + x) in items {
      var i :| 0 <= i < n && items[i] == Run(prefix + x);
      assert Counted(x, i);
    }
  }

  lemma ListedHas(m: Manifest, x: string)
    ensures (Run("sync:" + x) in Plan(m) <==> x in m.sync) && (Run("build:" + x) in Plan(m) <==> !m.noBuild && x in m.builds)
  {
    var p := Plan(m);
    PlanIs(m);
    RankOfSync(x);
    RankOfBuild(x);
    OfRankHas(Rank, p, Run("sync:" + x));
    OfRankHas(Rank, p, Run("build:" + x));
    PerHas(OfRank(Rank, p, 2), "sync:", m.sync, x);
    PerHas(OfRank(Rank, p, 5), "build:", if m.noBuild then [] else m.builds, x);
  }

  lemma HooksHas(m: Manifest, x: string)
    ensures Run("pre:" + x) in Plan(m) <==> IsNumber(x, m.pre)
    ensures Run("post:" + x) in Plan(m) <==> IsNumber(x, m.post)
  {
    var p := Plan(m);
    PlanIs(m);
    RankOfPre(x);
    RankOfPost(x);
    OfRankHas(Rank, p, Run("pre:" + x));
    OfRankHas(Rank, p, Run("post:" + x));
    HookHas(OfRank(Rank, p, 6), "pre:", m.pre, x);
    HookHas(OfRank(Rank, p, 9), "post:", m.post, x);
  }
}
