/** Which manifests give a release whose steps all have different names. */
module ReleaseNames {
  import opened Text
  import opened ReleaseWorld
  import opened ReleaseSafety

  // ----- which manifests give a plan with distinct names -----

  predicate Distinct(names: seq<string>) {
    forall i, j | 0 <= i < j < |names| :: names[i] != names[j]
  }

  type Tag = (char, char)

  /** The steps of a plan come in blocks, told apart by the first two letters of their names. */
  predicate Tagged(items: seq<Item>, tags: set<Tag>) {
    forall i | 0 <= i < |items| && items[i].Run? ::
      |items[i].name| >= 2 && (items[i].name[0], items[i].name[1]) in tags
  }

  lemma ApartConcat(a: seq<Item>, b: seq<Item>)
    requires forall i, j | 0 <= i < |a| && 0 <= j < |b| && a[i].Run? :: a[i] != b[j]
    ensures DistinctRuns(a + b) <==> DistinctRuns(a) && DistinctRuns(b)
  {
    var c := a + b;
    if DistinctRuns(c) {
      forall i, j | 0 <= i < j < |a| && a[i].Run? ensures a[i] != a[j] {
        assert c[i] == a[i] && c[j] == a[j];
      }
      forall i, j | 0 <= i < j < |b| && b[i].Run? ensures b[i] != b[j] {
        assert c[|a| + i] == b[i] && c[|a| + j] == b[j];
      }
    }
  }

  lemma RunsDistinct(prefix: string, names: seq<string>)
    ensures DistinctRuns(Runs(prefix, names)) <==> Distinct(names)
  {
    var r := Runs(prefix, names);
    forall i, j | 0 <= i < j < |names|
      ensures r[i] == r[j] <==> names[i] == names[j]
    {
      assert (prefix + names[i])[|prefix|..] == names[i];
      assert (prefix + names[j])[|prefix|..] == names[j];
    }
  }

  lemma NumberedDistinct(prefix: string, n: nat)
    ensures DistinctRuns(Numbered(prefix, n))
  {
    var r := Numbered(prefix, n);
    forall i, j | 0 <= i < j < |r| ensures r[i] != r[j] {
      assert (prefix + Decimal(i + 1))[|prefix|..] == Decimal(i + 1);
      assert (prefix + Decimal(j + 1))[|prefix|..] == Decimal(j + 1);
      assert NumeralValue(Decimal(i + 1)) == i + 1 && NumeralValue(Decimal(j + 1)) == j + 1;
    }
  }

  lemma {:induction false} BlocksDistinct(blocks: seq<seq<Item>>, tags: seq<Tag>)
    requires |blocks| == |tags|
    requires forall i | 0 <= i < |tags| :: Tagged(blocks[i], {tags[i]})
    requires forall i, j | 0 <= i < j < |tags| :: tags[i] != tags[j]
    ensures Tagged(Concat(blocks), set t | t in tags)
    ensures DistinctRuns(Concat(blocks)) <==> forall i | 0 <= i < |blocks| :: DistinctRuns(blocks[i])
  {
    if blocks != [] {
      BlocksDistinct(blocks[1..], tags[1..]);
      ApartConcat(blocks[0], Concat(blocks[1..]));
      assert tags[0] in tags && forall t | t in tags[1..] :: t in tags && t != tags[0];
      assert forall i | 0 < i < |blocks| :: blocks[i] == blocks[1..][i - 1];
      assert forall i | 0 <= i < |blocks| - 1 :: blocks[1..][i] == blocks[i + 1];
    }
  }

  lemma OneBlock(b: bool, name: string)
    requires |name| >= 2
    ensures Tagged(When(b, [Run(name)]), {(name[0], name[1])}) && DistinctRuns(When(b, [Run(name)]))
  {
  }

  lemma RunsBlock(b: bool, prefix: string, names: seq<string>)
    requires |prefix| >= 2
    ensures Tagged(When(b, Runs(prefix, names)), {(prefix[0], prefix[1])})
    ensures DistinctRuns(When(b, Runs(prefix, names))) <==> !b || Distinct(names)
  {
    RunsDistinct(prefix, names);
  }

  lemma NumberedBlock(prefix: string, n: nat)
    requires |prefix| >= 2
    ensures Tagged(Numbered(prefix, n), {(prefix[0], prefix[1])}) && DistinctRuns(Numbered(prefix, n))
  {
    NumberedDistinct(prefix, n);
  }

  lemma NamesBlock(b: bool)
    ensures Tagged(When(b, [Run("check-names"), SaveImages]), {('c', 'h')})
    ensures DistinctRuns(When(b, [Run("check-names"), SaveImages]))
  {
  }

  const TAGS: seq<Tag> := [('m', 'a'), ('b', 'a'), ('s', 'y'), ('c', 'h'), ('b', 'u'),
                           ('p', 'r'), ('d', 'e'), ('t', 'l'), ('p', 'o'), ('v', 'e')]

  /** Only the sync and build blocks can repeat a name. */
  ghost predicate BlockFits(m: Manifest, i: nat)
    requires i < 10
  {
    && Tagged(Blocks(m)[i], {TAGS[i]})
    && (DistinctRuns(Blocks(m)[i]) <==> (i == 2 ==> Distinct(m.sync)) && (i == 4 ==> m.noBuild || Distinct(m.builds)))
  }

  lemma BlocksBeforeNames(m: Manifest)
    ensures BlockFits(m, 0) && BlockFits(m, 1) && BlockFits(m, 2)
  {
    OneBlock(!m.noBackup && m.managed, "managed-snapshot");
    OneBlock(!m.noBackup && m.strategies, "backup");
    RunsBlock(true, "sync:", m.sync);
  }

  lemma BlocksBeforeDeploy(m: Manifest)
    ensures BlockFits(m, 3) && BlockFits(m, 4) && BlockFits(m, 5)
  {
    NamesBlock(!m.noCompose);
    RunsBlock(!m.noBuild, "build:", m.builds);
    NumberedBlock("pre:", m.pre);
  }

  lemma BlocksFromDeploy(m: Manifest)
    ensures BlockFits(m, 6) && BlockFits(m, 7)
  {
    OneBlock(!m.noCompose, "deploy");
    OneBlock(m.tls, "tls");
  }

  lemma BlocksToTheEnd(m: Manifest)
    ensures BlockFits(m, 8) && BlockFits(m, 9)
  {
    NumberedBlock("post:", m.post);
    OneBlock(m.verify, "verify");
  }

  lemma BlockFitsAt(m: Manifest, i: nat)
    requires i < 10
    ensures BlockFits(m, i)
  {
    if i < 3 { BlocksBeforeNames(m); }
    else if i < 6 { BlocksBeforeDeploy(m); }
    else if i < 8 { BlocksFromDeploy(m); }
    else { BlocksToTheEnd(m); }
  }

  lemma AllBlocksTagged(m: Manifest)
    ensures |Blocks(m)| == |TAGS|
    ensures forall i | 0 <= i < |TAGS| :: Tagged(Blocks(m)[i], {TAGS[i]})
  {
    forall i | 0 <= i < |TAGS| ensures Tagged(Blocks(m)[i], {TAGS[i]}) { BlockFitsAt(m, i); }
  }

  lemma AllBlocksDistinctIff(m: Manifest)
    ensures (forall i | 0 <= i < |Blocks(m)| :: DistinctRuns(Blocks(m)[i]))
            <==> Distinct(m.sync) && (m.noBuild || Distinct(m.builds))
  {
    if Distinct(m.sync) && (m.noBuild || Distinct(m.builds)) {
      forall i | 0 <= i < |Blocks(m)| ensures DistinctRuns(Blocks(m)[i]) { BlockFitsAt(m, i); }
    } else {
      BlockFitsAt(m, 2);
      BlockFitsAt(m, 4);
    }
  }

  /** A plan's step names are distinct exactly when the manifest lists no sync entry twice and, if it
      builds, no image twice. */
  lemma PlanDistinctIff(m: Manifest)
    ensures DistinctRuns(Plan(m)) <==> Distinct(m.sync) && (m.noBuild || Distinct(m.builds))
  {
    AllBlocksTagged(m);
    AllBlocksDistinctIff(m);
    BlocksDistinct(Blocks(m), TAGS);
  }
}
