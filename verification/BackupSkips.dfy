/** What a run that leaves strategies out does to the newest complete set: internal/backup's
    SkipMissingContainers on top of multiBackupScript. */
module BackupSkips {
  import opened Text
  import opened BackupNames
  import opened BackupSteps

  // ----- lines that all end well -----

  function DoneSpec(c: Config, d: Disk, ts: string, lines: seq<Line>): Disk
    decreases |lines|
  {
    if lines == [] then d else DoneSpec(c, LineSpec(c, d, ts, lines[0], Done), ts, lines[1..])
  }

  lemma {:induction false} DoneIs(c: Config, d: Disk, ts: string, lines: seq<Line>, fates: seq<Fate>)
    requires AllDone(fates) && |fates| >= |lines|
    ensures LinesSpec(c, d, ts, lines, fates) == DoneSpec(c, d, ts, lines)
    decreases |lines|
  {
    if lines != [] {
      assert fates[0] in fates && forall f | f in fates[1..] :: f in fates;
      DoneIs(c, LineSpec(c, d, ts, lines[0], Done), ts, lines[1..], fates[1..]);
    }
  }

  lemma {:induction false} DoneConcat(c: Config, d: Disk, ts: string, a: seq<Line>, b: seq<Line>)
    ensures DoneSpec(c, d, ts, a + b) == DoneSpec(c, DoneSpec(c, d, ts, a), ts, b)
    decreases |a|
  {
    if a == [] {
      assert a + b == b;
    } else {
      assert (a + b)[1..] == a[1..] + b;
      DoneConcat(c, LineSpec(c, d, ts, a[0], Done), ts, a[1..], b);
    }
  }

  // ----- the files of one strategy -----

  /** The names a pattern matches, with their times. */
  function View(files: map<string, File>, t: Template): map<string, nat> {
    map n | n in files && t.Matches(n) :: files[n].mtime
  }

  function NewerIn(v: map<string, nat>, n: string): set<string>
    requires n in v
  {
    set m | m in v && v[m] > v[n]
  }

  function Kept(v: map<string, nat>, keep: nat): map<string, nat> {
    map n | n in v && |NewerIn(v, n)| < keep :: v[n]
  }

  lemma SameNewer(files: map<string, File>, t: Template, n: string)
    requires n in files && t.Matches(n)
    ensures Newer(files, t, n) == NewerIn(View(files, t), n)
  {
  }

  /** The letters in front decide which pattern a name can match. */
  lemma MatchShowsPre(t: Template, n: string)
    requires WellNamed(t) && t.Matches(n)
    ensures t.pre == n[..IndexOf(n, '-') + 1]
  {
    DashEndsPre(t, n);
  }

  /** No name is matched by the patterns of two strategies. */
  lemma OnePattern(t: Template, u: Template, n: string)
    requires WellNamed(t) && WellNamed(u) && t.pre != u.pre
    ensures !(t.Matches(n) && u.Matches(n))
  {
    if t.Matches(n) { MatchShowsPre(t, n); }
    if u.Matches(n) { MatchShowsPre(u, n); }
  }

  lemma NotEnv(t: Template, n: string)
    requires WellNamed(t) && t.Matches(n)
    ensures !ENV_TEMPLATE.Matches(n)
  {
    Ends(t, n);
    Ends(ENV_TEMPLATE, n);
  }

  /** Files a pattern does not match may come and go. */
  lemma OthersComeAndGo(files: map<string, File>, t: Template, name: string, f: File, gone: set<string>)
    requires !t.Matches(name) && forall n | n in gone :: !t.Matches(n)
    ensures View(files[name := f], t) == View(files, t) && View(files - gone, t) == View(files, t)
  {
  }

  lemma PruneView(files: map<string, File>, t: Template, keep: nat)
    ensures View(files - Beyond(files, t, keep), t) == Kept(View(files, t), keep)
  {
    forall n | n in files && t.Matches(n) ensures n in Beyond(files, t, keep) <==> |NewerIn(View(files, t), n)| >= keep {
      SameNewer(files, t, n);
    }
  }

  /** Every line but a strategy's own rename and prune leaves its files alone. */
  lemma OtherLine(c: Config, d: Disk, ts: string, line: Line, j: nat)
    requires Apart(c.names) && j < |c.names| && line != Rename(j) && line != Prune(j)
    ensures View(LineSpec(c, d, ts, line, Done).files, T(c, j)) == View(d.files, T(c, j))
    ensures LineSpec(c, d, ts, line, Done).clock >= d.clock
  {
    var t := T(c, j);
    match line
    case Dump(i) =>
      if i < |c.names| {
        NameFacts(c, j, i, ts, ts);
        OthersComeAndGo(d.files, t, T(c, i).Partial(ts), File(d.clock, true), {});
      }
    case Rename(i) =>
      if i < |c.names| && T(c, i).Partial(ts) in d.files {
        NameFacts(c, j, i, ts, ts);
        var p := T(c, i).Partial(ts);
        OthersComeAndGo(d.files, t, T(c, i).Name(ts), d.files[p], {});
        OthersComeAndGo(d.files[T(c, i).Name(ts) := d.files[p]], t, p, d.files[p], {p});
      }
    case CopyEnv(there) =>
      NameFacts(c, j, j, ts, ts);
      OthersComeAndGo(d.files, t, ENV_TEMPLATE.Name(ts), File(d.clock, true), {});
    case Prune(i) =>
      if i < |c.names| {
        var b := Beyond(d.files, T(c, i), Keep(c));
        forall n | n in b ensures !t.Matches(n) { OnePattern(t, T(c, i), n); }
        NameFacts(c, j, j, ts, ts);
        OthersComeAndGo(d.files, t, T(c, j).Partial(ts), File(0, true), b);
      }
    case PruneEnv =>
      var b := Beyond(d.files, ENV_TEMPLATE, Keep(c));
      forall n | n in b ensures !t.Matches(n) { if t.Matches(n) { NotEnv(t, n); } }
      NameFacts(c, j, j, ts, ts);
      OthersComeAndGo(d.files, t, T(c, j).Partial(ts), File(0, true), b);
    case _ =>
  }

  predicate SparesStrategy(lines: seq<Line>, j: nat) {
    forall i | 0 <= i < |lines| :: lines[i] != Rename(j) && lines[i] != Prune(j)
  }

  lemma {:induction false} OtherLines(c: Config, d: Disk, ts: string, lines: seq<Line>, j: nat)
    requires Apart(c.names) && j < |c.names| && SparesStrategy(lines, j)
    ensures var d' := DoneSpec(c, d, ts, lines);
            View(d'.files, T(c, j)) == View(d.files, T(c, j)) && d'.clock >= d.clock
    decreases |lines|
  {
    if lines != [] {
      OtherLine(c, d, ts, lines[0], j);
      OtherLines(c, LineSpec(c, d, ts, lines[0], Done), ts, lines[1..], j);
    }
  }

  lemma DumpIs(c: Config, d: Disk, ts: string, j: nat)
    requires j < |c.names|
    ensures var d' := LineSpec(c, d, ts, Dump(j), Done);
            d'.files == d.files[T(c, j).Partial(ts) := File(d.clock, true)] && d'.clock == d.clock + 1
  {
  }

  lemma RenameIs(c: Config, d: Disk, ts: string, j: nat)
    requires j < |c.names| && T(c, j).Partial(ts) in d.files
    ensures var d' := LineSpec(c, d, ts, Rename(j), Done);
            && d'.files == d.files[T(c, j).Name(ts) := d.files[T(c, j).Partial(ts)]] - {T(c, j).Partial(ts)}
            && d'.clock == d.clock
  {
  }

  lemma TwoLines(c: Config, d: Disk, ts: string, a: Line, b: Line)
    ensures DoneSpec(c, d, ts, [a, b]) == LineSpec(c, LineSpec(c, d, ts, a, Done), ts, b, Done)
  {
    var d1 := LineSpec(c, d, ts, a, Done);
    assert [a, b][1..] == [b] && [b][1..] == [];
    assert DoneSpec(c, d1, ts, [b]) == DoneSpec(c, LineSpec(c, d1, ts, b, Done), ts, []);
  }

  /** A strategy's dump and rename add its artifact, newer than all. */
  lemma OwnPair(c: Config, d: Disk, ts: string, j: nat)
    requires Apart(c.names) && j < |c.names|
    ensures var d' := DoneSpec(c, d, ts, [Dump(j), Rename(j)]);
            View(d'.files, T(c, j)) == View(d.files, T(c, j))[T(c, j).Name(ts) := d.clock] && d'.clock >= d.clock
  {
    var t, f := T(c, j), File(d.clock, true);
    var p, n := t.Partial(ts), t.Name(ts);
    var d1 := LineSpec(c, d, ts, Dump(j), Done);
    var d2 := LineSpec(c, d1, ts, Rename(j), Done);
    TwoLines(c, d, ts, Dump(j), Rename(j));
    DumpIs(c, d, ts, j);
    RenameIs(c, d1, ts, j);
    NameFacts(c, j, j, ts, ts);
    assert d1.files[p] == f;
    assert d2.files == d.files[p := f][n := f] - {p};
    PutAndMove(d.files, t, p, n, f);
  }

  /** A file is written under a name the pattern does not match and moved to one it does. */
  lemma PutAndMove(files: map<string, File>, t: Template, p: string, n: string, f: File)
    requires !t.Matches(p) && t.Matches(n)
    ensures View(files[p := f][n := f] - {p}, t) == View(files, t)[n := f.mtime]
  {
  }

  // ----- a run over some of the strategies -----

  /** Strategies of the list, in order. */
  predicate Strategies(c: Config, ran: seq<nat>) {
    && (forall k | 0 <= k < |ran| :: ran[k] < |c.names|)
    && forall k, l | 0 <= k < l < |ran| :: ran[k] < ran[l]
  }

  lemma {:induction false} SparedByDumps(ran: seq<nat>, j: nat)
    requires j !in ran
    ensures SparesStrategy(Dumps(ran), j) && SparesStrategy(Prunes(ran), j)
    decreases |ran|
  {
    if ran != [] {
      SparedByDumps(ran[1..], j);
      var a, b := Dumps(ran[1..]), Prunes(ran[1..]);
      forall i | 0 <= i < |Dumps(ran)| ensures Dumps(ran)[i] != Rename(j) && Dumps(ran)[i] != Prune(j) {
        if i >= 2 { assert Dumps(ran)[i] == a[i - 2]; }
      }
      forall i | 0 <= i < |Prunes(ran)| ensures Prunes(ran)[i] != Rename(j) && Prunes(ran)[i] != Prune(j) {
        if i >= 1 { assert Prunes(ran)[i] == b[i - 1]; }
      }
    }
  }

  lemma {:induction false} DumpsSpare(ran: seq<nat>, j: nat)
    ensures forall i | 0 <= i < |Dumps(ran)| :: Dumps(ran)[i] != Prune(j)
    ensures forall i | 0 <= i < |Prunes(ran)| :: Prunes(ran)[i] != Rename(j)
    decreases |ran|
  {
    if ran != [] { DumpsSpare(ran[1..], j); }
  }

  lemma {:induction false} DumpsView(c: Config, d: Disk, ts: string, ran: seq<nat>, j: nat) returns (m: nat)
    requires Apart(c.names) && Strategies(c, ran) && j in ran
    ensures m >= d.clock
    ensures View(DoneSpec(c, d, ts, Dumps(ran)).files, T(c, j)) == View(d.files, T(c, j))[T(c, j).Name(ts) := m]
    decreases |ran|
  {
    var pair, rest := [Dump(ran[0]), Rename(ran[0])], ran[1..];
    DoneConcat(c, d, ts, pair, Dumps(rest));
    var d1 := DoneSpec(c, d, ts, pair);
    assert Strategies(c, rest);
    if j == ran[0] {
      m := d.clock;
      OwnPair(c, d, ts, j);
      SparedByDumps(rest, j);
      OtherLines(c, d1, ts, Dumps(rest), j);
    } else {
      OtherLines(c, d, ts, pair, j);
      m := DumpsView(c, d1, ts, rest, j);
    }
  }

  lemma {:induction false} PrunesView(c: Config, d: Disk, ts: string, ran: seq<nat>, j: nat)
    requires Apart(c.names) && Strategies(c, ran) && j in ran
    ensures View(DoneSpec(c, d, ts, Prunes(ran)).files, T(c, j)) == Kept(View(d.files, T(c, j)), Keep(c))
    decreases |ran|
  {
    var rest := ran[1..];
    assert Strategies(c, rest) && Prunes(ran)[1..] == Prunes(rest);
    var d1 := LineSpec(c, d, ts, Prune(ran[0]), Done);
    if j == ran[0] {
      PruneView(d.files, T(c, j), Keep(c));
      SparedByDumps(rest, j);
      OtherLines(c, d1, ts, Prunes(rest), j);
    } else {
      OtherLine(c, d, ts, Prune(ran[0]), j);
      PrunesView(c, d1, ts, rest, j);
    }
  }

  /** The script in its parts. */
  lemma ScriptParts(c: Config, d: Disk, ts: string, ran: seq<nat>, envThere: bool)
    ensures var d1 := DoneSpec(c, d, ts, [MkDir]);
            var d2 := DoneSpec(c, d1, ts, Dumps(ran));
            var d3 := DoneSpec(c, d2, ts, if c.hasEnv then [CopyEnv(envThere)] else []);
            var d4 := DoneSpec(c, d3, ts, Prunes(ran));
            DoneSpec(c, d, ts, Script(c, ran, envThere)) == DoneSpec(c, d4, ts, [PruneEnv, Report])
  {
    var env := if c.hasEnv then [CopyEnv(envThere)] else [];
    var d1 := DoneSpec(c, d, ts, [MkDir]);
    var d2 := DoneSpec(c, d1, ts, Dumps(ran));
    DoneConcat(c, d, ts, [MkDir], Dumps(ran) + Tail(c, ran, envThere));
    DoneConcat(c, d1, ts, Dumps(ran), Tail(c, ran, envThere));
    DoneConcat(c, d2, ts, env + Prunes(ran), [PruneEnv, Report]);
    DoneConcat(c, d2, ts, env, Prunes(ran));
  }

  /** What a run leaves of a strategy it runs: its files and the new one, within the limit. */
  lemma RanView(c: Config, d: Disk, ts: string, ran: seq<nat>, envThere: bool, j: nat) returns (m: nat)
    requires Apart(c.names) && Strategies(c, ran) && j in ran
    ensures m >= d.clock
    ensures View(DoneSpec(c, d, ts, Script(c, ran, envThere)).files, T(c, j))
            == Kept(View(d.files, T(c, j))[T(c, j).Name(ts) := m], Keep(c))
  {
    var env := if c.hasEnv then [CopyEnv(envThere)] else [];
    var d1 := DoneSpec(c, d, ts, [MkDir]);
    var d2 := DoneSpec(c, d1, ts, Dumps(ran));
    var d3 := DoneSpec(c, d2, ts, env);
    var d4 := DoneSpec(c, d3, ts, Prunes(ran));
    ScriptParts(c, d, ts, ran, envThere);
    OtherLines(c, d, ts, [MkDir], j);
    m := DumpsView(c, d1, ts, ran, j);
    OtherLines(c, d2, ts, env, j);
    PrunesView(c, d3, ts, ran, j);
    OtherLines(c, d4, ts, [PruneEnv, Report], j);
  }

  /** What it leaves of a strategy it skips: everything. */
  lemma SkippedView(c: Config, d: Disk, ts: string, ran: seq<nat>, envThere: bool, j: nat)
    requires Apart(c.names) && j < |c.names| && j !in ran
    ensures View(DoneSpec(c, d, ts, Script(c, ran, envThere)).files, T(c, j)) == View(d.files, T(c, j))
  {
    var env := if c.hasEnv then [CopyEnv(envThere)] else [];
    var d1 := DoneSpec(c, d, ts, [MkDir]);
    var d2 := DoneSpec(c, d1, ts, Dumps(ran));
    var d3 := DoneSpec(c, d2, ts, env);
    var d4 := DoneSpec(c, d3, ts, Prunes(ran));
    ScriptParts(c, d, ts, ran, envThere);
    SparedByDumps(ran, j);
    OtherLines(c, d, ts, [MkDir], j);
    OtherLines(c, d1, ts, Dumps(ran), j);
    OtherLines(c, d2, ts, env, j);
    OtherLines(c, d3, ts, Prunes(ran), j);
    OtherLines(c, d4, ts, [PruneEnv, Report], j);
  }

  // ----- what is left of the newest set -----

  lemma NameTells(t: Template, a: string, b: string)
    requires t.Name(a) == t.Name(b)
    ensures a == b
  {
    assert |a| == |b|;
    assert t.Name(a)[|t.pre|..|t.pre| + |a|] == a && t.Name(b)[|t.pre|..|t.pre| + |b|] == b;
  }

  /** One more file, newer than all, is one more that is newer than any. */
  lemma OneNewer(v: map<string, nat>, n: string, add: string, m: nat)
    requires n in v && add !in v && forall x | x in v :: v[x] < m
    ensures NewerIn(v[add := m], n) == NewerIn(v, n) + {add} && |NewerIn(v[add := m], n)| == |NewerIn(v, n)| + 1
  {
  }

  /** Of a strategy that ran, a file from before stays exactly when this run's makes it one of the newest. */
  lemma RanKeepsIff(c: Config, d: Disk, ts: string, ran: seq<nat>, envThere: bool, j: nat, t: string)
    requires Inv(c, d) && IsStamp(ts) && After(d.past, ts) && Strategies(c, ran) && j in ran
    requires T(c, j).Name(t) in d.files
    ensures var d' := DoneSpec(c, d.(past := d.past + [ts]), ts, Script(c, ran, envThere));
            T(c, j).Name(t) in d'.files <==> |Newer(d.files, T(c, j), T(c, j).Name(t))| + 1 < Keep(c)
  {
    var d0 := d.(past := d.past + [ts]);
    var tj, n, v := T(c, j), T(c, j).Name(t), View(d.files, T(c, j));
    var m := RanView(c, d0, ts, ran, envThere, j);
    OwnName(c, j, t);
    Unused(c, d, ts, j);
    SameNewer(d.files, tj, n);
    OneNewer(v, n, tj.Name(ts), m);
    var after := View(DoneSpec(c, d0, ts, Script(c, ran, envThere)).files, tj);
    assert n in after <==> |NewerIn(v[tj.Name(ts) := m], n)| < Keep(c);
  }

  /** What the run leaves of a set is part of what was there, or of the run's own. */
  lemma LeftWasThere(c: Config, d: Disk, ts: string, ran: seq<nat>, envThere: bool, j: nat, t: string)
    requires Apart(c.names) && Strategies(c, ran) && j < |c.names|
    requires T(c, j).Name(t) in DoneSpec(c, d.(past := d.past + [ts]), ts, Script(c, ran, envThere)).files
    ensures T(c, j).Name(t) in d.files || (j in ran && t == ts)
  {
    var d0 := d.(past := d.past + [ts]);
    OwnName(c, j, t);
    var after := View(DoneSpec(c, d0, ts, Script(c, ran, envThere)).files, T(c, j));
    assert T(c, j).Name(t) in after;
    if j in ran {
      var m := RanView(c, d0, ts, ran, envThere, j);
      if T(c, j).Name(t) == T(c, j).Name(ts) { NameTells(T(c, j), t, ts); }
    } else {
      SkippedView(c, d0, ts, ran, envThere, j);
    }
  }

  lemma WasWhole(c: Config, d: Disk, ts: string, ran: seq<nat>, envThere: bool, skipped: nat, t: string)
    requires Inv(c, d) && IsStamp(ts) && After(d.past, ts)
    requires Strategies(c, ran) && skipped < |c.names| && skipped !in ran
    requires HasAll(c, DoneSpec(c, d.(past := d.past + [ts]), ts, Script(c, ran, envThere)).files, t)
    ensures HasAll(c, d.files, t)
  {
    LeftWasThere(c, d, ts, ran, envThere, skipped, t);
    Unused(c, d, ts, skipped);
    forall j | 0 <= j < |c.names| ensures T(c, j).Name(t) in d.files { LeftWasThere(c, d, ts, ran, envThere, j, t); }
  }

  /** A complete set is of some run, and none is later than the last. */
  lemma WholeSets(c: Config, d: Disk, t: string)
    requires Inv(c, d) && HasAll(c, d.files, t)
    ensures t in d.past && d.complete != []
    ensures var last := d.complete[|d.complete| - 1]; t == last || LexLess(t, last)
  {
    OwnName(c, 0, t);
    assert T(c, 0).Name(t) in d.files;
    var u :| u in d.past && T(c, 0).Name(t) == T(c, 0).Name(u);
    NameTells(T(c, 0), t, u);
    LexTotal(t, d.complete[|d.complete| - 1]);
  }

  /** If a set is left, so is the last one: of every strategy it is the newer. */
  lemma LastOutlives(c: Config, d: Disk, ts: string, ran: seq<nat>, envThere: bool, skipped: nat, t: string)
    requires Inv(c, d) && IsStamp(ts) && After(d.past, ts) && d.complete != []
    requires Strategies(c, ran) && skipped < |c.names| && skipped !in ran
    requires HasAll(c, DoneSpec(c, d.(past := d.past + [ts]), ts, Script(c, ran, envThere)).files, t)
    ensures HasAll(c, DoneSpec(c, d.(past := d.past + [ts]), ts, Script(c, ran, envThere)).files, d.complete[|d.complete| - 1])
  {
    var last := d.complete[|d.complete| - 1];
    var d' := DoneSpec(c, d.(past := d.past + [ts]), ts, Script(c, ran, envThere));
    WasWhole(c, d, ts, ran, envThere, skipped, t);
    WholeSets(c, d, t);
    forall j | 0 <= j < |c.names| ensures T(c, j).Name(last) in d'.files {
      if j in ran {
        RanKeepsIff(c, d, ts, ran, envThere, j, t);
        RanKeepsIff(c, d, ts, ran, envThere, j, last);
        FewerNewer(c, d, j, t, last);
      } else {
        SkippedKeeps(c, d, ts, ran, envThere, j, last);
      }
    }
  }

  lemma FewerNewer(c: Config, d: Disk, j: nat, t: string, last: string)
    requires Inv(c, d) && j < |c.names| && t in d.past && last in d.past && (t == last || LexLess(t, last))
    requires T(c, j).Name(t) in d.files && T(c, j).Name(last) in d.files
    ensures |Newer(d.files, T(c, j), T(c, j).Name(last))| <= |Newer(d.files, T(c, j), T(c, j).Name(t))|
  {
    SubsetBound(Newer(d.files, T(c, j), T(c, j).Name(last)), Newer(d.files, T(c, j), T(c, j).Name(t)));
  }

  lemma SkippedKeeps(c: Config, d: Disk, ts: string, ran: seq<nat>, envThere: bool, j: nat, t: string)
    requires Apart(c.names) && j < |c.names| && j !in ran && T(c, j).Name(t) in d.files
    ensures T(c, j).Name(t) in DoneSpec(c, d.(past := d.past + [ts]), ts, Script(c, ran, envThere)).files
  {
    var d0 := d.(past := d.past + [ts]);
    OwnName(c, j, t);
    SkippedView(c, d0, ts, ran, envThere, j);
    assert T(c, j).Name(t) in View(d0.files, T(c, j));
    assert T(c, j).Name(t) in View(DoneSpec(c, d0, ts, Script(c, ran, envThere)).files, T(c, j));
  }

  /** Of one strategy, the files already newer than t's, and one more, are fewer than are kept: as many as
      configured, or fourteen. */
  predicate Room(c: Config, d: Disk, j: nat, t: string) {
    && j < |c.names| && T(c, j).Name(t) in d.files
    && |Newer(d.files, T(c, j), T(c, j).Name(t))| + 1 < if c.keepField > 0 then c.keepField else 14
  }

  /** What can be read off the directory before the run: there is room in every strategy about to run. */
  predicate RoomToSkip(c: Config, d: Disk, ran: seq<nat>, t: string) { forall j | j in ran :: Room(c, d, j, t) }

  /** A run that leaves a strategy out, with nothing going wrong: the newest complete set stays whole exactly
      when there is room, and otherwise no complete set is left at all. */
  lemma SkippingKeepsASetIff(c: Config, d: Disk, ts: string, ran: seq<nat>, envThere: bool, fates: seq<Fate>)
    requires Inv(c, d) && IsStamp(ts) && After(d.past, ts) && d.complete != []
    requires Strategies(c, ran) && exists j | 0 <= j < |c.names| :: j !in ran
    requires AllDone(fates) && |fates| >= |Script(c, ran, envThere)|
    ensures var d' := LinesSpec(c, d.(past := d.past + [ts]), ts, Script(c, ran, envThere), fates);
            && (HasAll(c, d'.files, d.complete[|d.complete| - 1]) <==> RoomToSkip(c, d, ran, d.complete[|d.complete| - 1]))
            && ((exists t :: HasAll(c, d'.files, t)) <==> RoomToSkip(c, d, ran, d.complete[|d.complete| - 1]))
  {
    var last := d.complete[|d.complete| - 1];
    var d0 := d.(past := d.past + [ts]);
    DoneIs(c, d0, ts, Script(c, ran, envThere), fates);
    LastStaysIff(c, d, ts, ran, envThere);
    var skipped :| 0 <= skipped < |c.names| && skipped !in ran;
    var d' := DoneSpec(c, d0, ts, Script(c, ran, envThere));
    if t :| HasAll(c, d'.files, t) { LastOutlives(c, d, ts, ran, envThere, skipped, t); }
  }

  lemma LastStaysIff(c: Config, d: Disk, ts: string, ran: seq<nat>, envThere: bool)
    requires Inv(c, d) && IsStamp(ts) && After(d.past, ts) && d.complete != [] && Strategies(c, ran)
    ensures HasAll(c, DoneSpec(c, d.(past := d.past + [ts]), ts, Script(c, ran, envThere)).files, d.complete[|d.complete| - 1])
            <==> RoomToSkip(c, d, ran, d.complete[|d.complete| - 1])
  {
    var last := d.complete[|d.complete| - 1];
    var files := DoneSpec(c, d.(past := d.past + [ts]), ts, Script(c, ran, envThere)).files;
    forall j: nat | j < |c.names| ensures StaysIff(c, d, ran, files, j, last) {
      if j in ran {
        RanKeepsIff(c, d, ts, ran, envThere, j, last);
      } else {
        SkippedKeeps(c, d, ts, ran, envThere, j, last);
      }
    }
    AllStayIff(c, d, ran, files, last);
  }

  predicate StaysIff(c: Config, d: Disk, ran: seq<nat>, files: map<string, File>, j: nat, t: string)
    requires j < |c.names|
  {
    T(c, j).Name(t) in files <==> (j in ran ==> Room(c, d, j, t))
  }

  lemma AllStayIff(c: Config, d: Disk, ran: seq<nat>, files: map<string, File>, t: string)
    requires Strategies(c, ran) && forall j: nat | j < |c.names| :: StaysIff(c, d, ran, files, j, t)
    ensures HasAll(c, files, t) <==> RoomToSkip(c, d, ran, t)
  {
    if HasAll(c, files, t) {
      forall j | j in ran ensures Room(c, d, j, t) { assert StaysIff(c, d, ran, files, j, t); }
    } else {
      var j: nat :| j < |c.names| && T(c, j).Name(t) !in files;
      assert StaysIff(c, d, ran, files, j, t);
    }
  }

  /** With one of each kind kept, any such run leaves no complete set. */
  lemma SkippingLosesTheSet(c: Config, d: Disk, ts: string, ran: seq<nat>, envThere: bool, fates: seq<Fate>)
    requires Inv(c, d) && IsStamp(ts) && After(d.past, ts) && d.complete != [] && c.keepField == 1
    requires Strategies(c, ran) && ran != [] && exists j | 0 <= j < |c.names| :: j !in ran
    requires AllDone(fates) && |fates| >= |Script(c, ran, envThere)|
    ensures forall t :: !HasAll(c, LinesSpec(c, d.(past := d.past + [ts]), ts, Script(c, ran, envThere), fates).files, t)
  {
    SkippingKeepsASetIff(c, d, ts, ran, envThere, fates);
    assert ran[0] in ran && !Room(c, d, ran[0], d.complete[|d.complete| - 1]);
  }
}
