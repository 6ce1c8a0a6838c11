/** The backup script line by line over the backup directory, and what every line keeps, whether it ends
    well or the run stops after or inside it. */
module BackupSteps {
  import opened Text
  import opened BackupNames

  /** A file: when it was last written, and whether the command writing it finished. */
  datatype File = File(mtime: nat, whole: bool)

  /** The directory, the host's clock, and two histories: the timestamps used, and those of the sets
      every artifact of which has had its final name. */
  datatype Disk = Disk(files: map<string, File>, clock: nat, past: seq<string>, complete: seq<string>)

  /** names are the templates artifacts() gives for the strategies; the proofs use only that they are
      told apart (NamesOfApart). */
  datatype Config = Config(names: seq<Template>, keepField: int, hasEnv: bool)

  /** How many of each kind to retain. */
  function Keep(c: Config): (k: nat)
    ensures k >= 1
  {
    if c.keepField > 0 then c.keepField else 14
  }

  function T(c: Config, i: nat): Template
    requires i < |c.names|
  {
    c.names[i]
  }

  datatype Line = MkDir | Dump(i: nat) | Rename(i: nat) | CopyEnv(there: bool) | Prune(i: nat) | PruneEnv | Report

  function Dumps(ran: seq<nat>): seq<Line> {
    if ran == [] then [] else [Dump(ran[0]), Rename(ran[0])] + Dumps(ran[1..])
  }

  function Prunes(ran: seq<nat>): seq<Line> {
    if ran == [] then [] else [Prune(ran[0])] + Prunes(ran[1..])
  }

  function Upto(n: nat): (r: seq<nat>)
    ensures |r| == n && forall i | 0 <= i < n :: r[i] == i
  {
    seq(n, i => i)
  }

  /** The script for the strategies in `ran`. No two artifacts share a pattern (GlobPicksOwn), so the
      guard against pruning one pattern twice never fires. */
  function Script(c: Config, ran: seq<nat>, envThere: bool): seq<Line> {
    [MkDir] + (Dumps(ran) + Tail(c, ran, envThere))
  }

  function Tail(c: Config, ran: seq<nat>, envThere: bool): seq<Line> {
    (if c.hasEnv then [CopyEnv(envThere)] else []) + Prunes(ran) + [PruneEnv, Report]
  }

  /** What became of a line: Done, or the script ended in it. A line the script ended in may have had
      its effect or not; a prune may have removed any part of what it would. */
  datatype Fate = Done | Stopped(touched: bool, gone: set<string>)

  /** Names a pattern matches that `keep` newer ones also match: ls -1t | tail -n +keep+1. */
  function Newer(files: map<string, File>, t: Template, name: string): set<string>
    requires name in files
  {
    set m | m in files && t.Matches(m) && files[m].mtime > files[name].mtime
  }

  function Beyond(files: map<string, File>, t: Template, keep: nat): set<string> {
    set n | n in files && t.Matches(n) && |Newer(files, t, n)| >= keep
  }

  predicate Takes(f: Fate) { f.Done? || f.touched }

  function PruneFiles(d: Disk, t: Template, keep: nat, f: Fate): Disk {
    var b := Beyond(d.files, t, keep);
    d.(files := d.files - (if f.Done? then b else b * f.gone))
  }

  predicate HasAll(c: Config, files: map<string, File>, ts: string) {
    forall i | 0 <= i < |c.names| :: T(c, i).Name(ts) in files
  }

  function Moved(c: Config, d: Disk, i: nat, ts: string): Disk
    requires i < |c.names| && T(c, i).Partial(ts) in d.files
  {
    var p, n := T(c, i).Partial(ts), T(c, i).Name(ts);
    var files := d.files[n := d.files[p]] - {p};
    d.(files := files, complete := if HasAll(c, files, ts) then d.complete + [ts] else d.complete)
  }

  function LineSpec(c: Config, d: Disk, ts: string, line: Line, f: Fate): Disk {
    match line
    case MkDir => d
    case Report => d
    case Dump(i) =>
      if i < |c.names| && Takes(f) then
        d.(files := d.files[T(c, i).Partial(ts) := File(d.clock, f.Done?)], clock := d.clock + 1)
      else d
    case Rename(i) =>
      if i < |c.names| && Takes(f) && T(c, i).Partial(ts) in d.files then Moved(c, d, i, ts) else d
    case CopyEnv(there) =>
      if there && Takes(f) then
        d.(files := d.files[ENV_TEMPLATE.Name(ts) := File(d.clock, f.Done?)], clock := d.clock + 1)
      else d
    case Prune(i) =>
      if i < |c.names| then PruneFiles(d, T(c, i), Keep(c), f) else d
    case PruneEnv => PruneFiles(d, ENV_TEMPLATE, Keep(c), f)
  }

  /** set -e: the lines in order until one does not end well. */
  function LinesSpec(c: Config, d: Disk, ts: string, lines: seq<Line>, fates: seq<Fate>): Disk
    decreases |lines|
  {
    if lines == [] || fates == [] then d
    else
      var d1 := LineSpec(c, d, ts, lines[0], fates[0]);
      if fates[0].Done? then LinesSpec(c, d1, ts, lines[1..], fates[1..]) else d1
  }

  datatype Backup = Backup(ts: string, envThere: bool, fates: seq<Fate>)

  function BackupSpec(c: Config, d: Disk, b: Backup): Disk {
    LinesSpec(c, d.(past := d.past + [b.ts]), b.ts, Script(c, Upto(|c.names|), b.envThere), b.fates)
  }

  function BackupsSpec(c: Config, d: Disk, bs: seq<Backup>): Disk
    decreases |bs|
  {
    if bs == [] then d else BackupsSpec(c, BackupSpec(c, d, bs[0]), bs[1..])
  }

  predicate AllDone(fates: seq<Fate>) { forall f | f in fates :: f.Done? }

  lemma SubsetBound(a: set<string>, b: set<string>)
    requires forall x | x in a :: x in b
    ensures |a| <= |b|
    decreases a
  {
    if x :| x in a {
      SubsetBound(a - {x}, b - {x});
    }
  }

  // ----- the invariant -----

  predicate After(past: seq<string>, ts: string) {
    forall t | t in past :: LexLess(t, ts)
  }

  /** Timestamps increase from run to run. */
  predicate Increasing(past: seq<string>, bs: seq<Backup>)
    decreases |bs|
  {
    bs != [] ==> IsStamp(bs[0].ts) && After(past, bs[0].ts) && Increasing(past + [bs[0].ts], bs[1..])
  }

  /** Every name a strategy's pattern matches is that strategy's artifact of some run, and finished. */
  ghost predicate OnlyFinished(c: Config, d: Disk) {
    forall i, name | 0 <= i < |c.names| && name in d.files && T(c, i).Matches(name) ::
      d.files[name].whole && exists t | t in d.past :: name == T(c, i).Name(t)
  }

  ghost predicate Dated(c: Config, d: Disk) {
    && (forall name | name in d.files :: d.files[name].mtime < d.clock)
    && (forall i, t, u | 0 <= i < |c.names| && t in d.past && u in d.past && LexLess(t, u)
                         && T(c, i).Name(t) in d.files && T(c, i).Name(u) in d.files ::
          d.files[T(c, i).Name(t)].mtime < d.files[T(c, i).Name(u)].mtime)
  }

  /** The last set to have been complete is still whole on disk, and no later one is. */
  ghost predicate NewestKept(c: Config, d: Disk) {
    && (d.complete != [] ==>
          var last := d.complete[|d.complete| - 1];
          last in d.past && HasAll(c, d.files, last))
    && (forall t | t in d.past && HasAll(c, d.files, t) ::
          d.complete != [] && !LexLess(d.complete[|d.complete| - 1], t))
  }

  ghost predicate Stamped(past: seq<string>) {
    forall t | t in past :: IsStamp(t)
  }

  ghost predicate Inv(c: Config, d: Disk) {
    c.names != [] && Apart(c.names) && Stamped(d.past) && OnlyFinished(c, d) && Dated(c, d) && NewestKept(c, d)
  }

  /** Inside a run with timestamp ts, the last of d.past: the artifacts renamed so far are the first k,
      and the set counts as complete once all are. */
  ghost predicate Mid(c: Config, d: Disk, ts: string, k: nat) {
    && Inv(c, d) && k <= |c.names|
    && ts in d.past && (forall t | t in d.past && t != ts :: LexLess(t, ts))
    && (forall i | 0 <= i < |c.names| :: T(c, i).Name(ts) in d.files <==> i < k)
    && (k == |c.names| ==> d.complete != [] && d.complete[|d.complete| - 1] == ts)
  }

  /** What the rename after a finished dump finds. */
  ghost predicate Fed(c: Config, d: Disk, ts: string, k: nat)
    requires k < |c.names|
  {
    var p := T(c, k).Partial(ts);
    && p in d.files && d.files[p].whole
    && forall name | name in d.files && name != p :: d.files[name].mtime < d.files[p].mtime
  }

  // ----- what each line keeps -----

  lemma NameFacts(c: Config, i: nat, j: nat, t: string, u: string)
    requires Apart(c.names) && i < |c.names| && j < |c.names| && |t| == |u|
    ensures T(c, i).Name(t) == T(c, j).Name(u) <==> i == j && t == u
    ensures T(c, i).Matches(T(c, j).Name(u)) <==> i == j
    ensures !T(c, i).Matches(T(c, j).Partial(u))
    ensures T(c, i).Name(t) != T(c, j).Partial(u)
    ensures T(c, i).Name(t) != ENV_TEMPLATE.Name(u) && !T(c, i).Matches(ENV_TEMPLATE.Name(u))
    ensures !ENV_TEMPLATE.Matches(T(c, i).Name(t))
  {
    assert i < j ==> T(c, i).pre != T(c, j).pre;
    assert j < i ==> T(c, i).pre != T(c, j).pre;
    SameNameIff(T(c, i), T(c, j), t, u);
    PicksOwn(T(c, i), T(c, j), u);
    PicksOwn(T(c, i), T(c, i), t);
    EnvApart(T(c, i), u);
    EnvApart(T(c, i), t);
  }

  /** The same artifacts, whatever else changed. */
  ghost predicate SameArtifacts(c: Config, d: Disk, d': Disk) {
    && d'.past == d.past && d'.complete == d.complete
    && (forall name | name in d'.files :: d'.files[name].mtime < d'.clock)
    && (forall i, name | 0 <= i < |c.names| && T(c, i).Matches(name) ::
          (name in d'.files <==> name in d.files) && (name in d.files ==> d'.files[name] == d.files[name]))
  }

  lemma OwnName(c: Config, i: nat, t: string)
    requires Apart(c.names) && i < |c.names|
    ensures T(c, i).Matches(T(c, i).Name(t))
  {
    PicksOwn(T(c, i), T(c, i), t);
  }

  lemma SameHas(c: Config, d: Disk, d': Disk, t: string)
    requires Apart(c.names) && SameArtifacts(c, d, d')
    ensures HasAll(c, d'.files, t) <==> HasAll(c, d.files, t)
    ensures forall i | 0 <= i < |c.names| ::
              && (T(c, i).Name(t) in d'.files <==> T(c, i).Name(t) in d.files)
              && (T(c, i).Name(t) in d.files ==> d'.files[T(c, i).Name(t)] == d.files[T(c, i).Name(t)])
  {
    forall i | 0 <= i < |c.names| ensures T(c, i).Matches(T(c, i).Name(t)) { OwnName(c, i, t); }
  }

  lemma SameDated(c: Config, d: Disk, d': Disk)
    requires Apart(c.names) && SameArtifacts(c, d, d') && Dated(c, d)
    ensures Dated(c, d')
  {
    forall i, t, u | 0 <= i < |c.names| && t in d.past && u in d.past && LexLess(t, u)
                     && T(c, i).Name(t) in d'.files && T(c, i).Name(u) in d'.files
      ensures d'.files[T(c, i).Name(t)].mtime < d'.files[T(c, i).Name(u)].mtime
    {
      SameHas(c, d, d', t);
      SameHas(c, d, d', u);
    }
  }

  lemma SameNewest(c: Config, d: Disk, d': Disk)
    requires Apart(c.names) && SameArtifacts(c, d, d') && NewestKept(c, d)
    ensures NewestKept(c, d')
  {
    forall t | t in d.past ensures HasAll(c, d'.files, t) <==> HasAll(c, d.files, t) { SameHas(c, d, d', t); }
  }

  lemma SameFinished(c: Config, d: Disk, d': Disk)
    requires SameArtifacts(c, d, d') && OnlyFinished(c, d)
    ensures OnlyFinished(c, d')
  {
  }

  lemma SameKeeps(c: Config, d: Disk, d': Disk, ts: string, k: nat)
    requires Mid(c, d, ts, k) && SameArtifacts(c, d, d')
    ensures Mid(c, d', ts, k)
  {
    SameFinished(c, d, d');
    SameDated(c, d, d');
    SameNewest(c, d, d');
    SameHas(c, d, d', ts);
  }

  /** Writing a file no strategy's pattern matches changes nothing the invariant speaks of. */
  lemma UnrelatedWrite(c: Config, d: Disk, ts: string, k: nat, name: string, whole: bool)
    requires Mid(c, d, ts, k)
    requires forall i | 0 <= i < |c.names| :: !T(c, i).Matches(name)
    ensures Mid(c, d.(files := d.files[name := File(d.clock, whole)], clock := d.clock + 1), ts, k)
  {
    SameKeeps(c, d, d.(files := d.files[name := File(d.clock, whole)], clock := d.clock + 1), ts, k);
  }

  function Dumped(c: Config, d: Disk, ts: string, k: nat, whole: bool): Disk
    requires k < |c.names|
  {
    d.(files := d.files[T(c, k).Partial(ts) := File(d.clock, whole)], clock := d.clock + 1)
  }

  lemma DumpKeeps(c: Config, d: Disk, ts: string, k: nat, f: Fate)
    requires Mid(c, d, ts, k) && k < |c.names|
    ensures Mid(c, LineSpec(c, d, ts, Dump(k), f), ts, k)
    ensures f.Done? ==> LineSpec(c, d, ts, Dump(k), f) == Dumped(c, d, ts, k, true)
  {
    if Takes(f) {
      forall i | 0 <= i < |c.names| ensures !T(c, i).Matches(T(c, k).Partial(ts)) {
        NameFacts(c, i, k, ts, ts);
      }
      UnrelatedWrite(c, d, ts, k, T(c, k).Partial(ts), f.Done?);
      assert LineSpec(c, d, ts, Dump(k), f) == Dumped(c, d, ts, k, f.Done?);
    }
  }

  lemma DumpFeeds(c: Config, d: Disk, ts: string, k: nat)
    requires k < |c.names| && forall name | name in d.files :: d.files[name].mtime < d.clock
    ensures Fed(c, Dumped(c, d, ts, k, true), ts, k)
  {
  }

  lemma EnvIs(c: Config, d: Disk, ts: string, there: bool, f: Fate, name: string)
    requires there && Takes(f) && name == ENV_TEMPLATE.Name(ts)
    ensures LineSpec(c, d, ts, CopyEnv(there), f)
            == d.(files := d.files[name := File(d.clock, f.Done?)], clock := d.clock + 1)
  {
  }

  lemma EnvKeeps(c: Config, d: Disk, ts: string, k: nat, there: bool, f: Fate)
    requires Mid(c, d, ts, k)
    ensures Mid(c, LineSpec(c, d, ts, CopyEnv(there), f), ts, k)
  {
    if there && Takes(f) {
      var name := ENV_TEMPLATE.Name(ts);
      forall i | 0 <= i < |c.names| ensures !T(c, i).Matches(name) { NameFacts(c, i, i, ts, ts); }
      UnrelatedWrite(c, d, ts, k, name, f.Done?);
      EnvIs(c, d, ts, there, f, name);
    }
  }

  /** A rename adds one artifact and touches no other. */
  lemma RenameAdds(c: Config, d: Disk, ts: string, k: nat, i: nat, t: string)
    requires Apart(c.names) && k < |c.names| && i < |c.names| && |t| == |ts| && T(c, k).Partial(ts) in d.files
    ensures var d', n := Moved(c, d, k, ts), T(c, i).Name(t);
            && (n in d'.files <==> (i == k && t == ts) || n in d.files)
            && (n in d.files && !(i == k && t == ts) ==> d'.files[n] == d.files[n])
            && (i == k && t == ts ==> d'.files[n] == d.files[T(c, k).Partial(ts)])
  {
    NameFacts(c, i, k, t, ts);
  }

  lemma RenameFinished(c: Config, d: Disk, ts: string, k: nat)
    requires Mid(c, d, ts, k) && k < |c.names| && Fed(c, d, ts, k)
    ensures OnlyFinished(c, Moved(c, d, k, ts))
  {
    var d' := Moved(c, d, k, ts);
    forall i, name | 0 <= i < |c.names| && name in d'.files && T(c, i).Matches(name)
      ensures d'.files[name].whole && exists t | t in d'.past :: name == T(c, i).Name(t)
    {
      NameFacts(c, i, k, ts, ts);
    }
  }

  lemma RenameOther(c: Config, d: Disk, ts: string, k: nat, t: string)
    requires Apart(c.names) && k < |c.names| && |t| == |ts| && t != ts && T(c, k).Partial(ts) in d.files
    ensures HasAll(c, Moved(c, d, k, ts).files, t) <==> HasAll(c, d.files, t)
  {
    forall i | 0 <= i < |c.names|
      ensures T(c, i).Name(t) in Moved(c, d, k, ts).files <==> T(c, i).Name(t) in d.files
    {
      RenameAdds(c, d, ts, k, i, t);
    }
  }

  lemma RenameCompletes(c: Config, d: Disk, ts: string, k: nat)
    requires Mid(c, d, ts, k) && k < |c.names| && Fed(c, d, ts, k)
    ensures !HasAll(c, d.files, ts)
    ensures HasAll(c, Moved(c, d, k, ts).files, ts) <==> k + 1 == |c.names|
    ensures forall i | 0 <= i < |c.names| :: T(c, i).Name(ts) in Moved(c, d, k, ts).files <==> i < k + 1
  {
    forall i | 0 <= i < |c.names| ensures T(c, i).Name(ts) in Moved(c, d, k, ts).files <==> i < k + 1 {
      RenameAdds(c, d, ts, k, i, ts);
    }
    assert T(c, k).Name(ts) !in d.files;
    if k + 1 < |c.names| { assert T(c, k + 1).Name(ts) !in Moved(c, d, k, ts).files; }
  }

  lemma NewestFrom(c: Config, d: Disk, d': Disk, ts: string, done: bool)
    requires NewestKept(c, d) && d'.past == d.past
    requires d'.complete == if done then d.complete + [ts] else d.complete
    requires !HasAll(c, d.files, ts) && (HasAll(c, d'.files, ts) <==> done)
    requires forall t | t in d.past && t != ts :: HasAll(c, d'.files, t) <==> HasAll(c, d.files, t)
    requires ts in d.past && forall t | t in d.past :: !LexLess(ts, t)
    ensures NewestKept(c, d')
  {
    if done {
      assert d'.complete[|d'.complete| - 1] == ts;
    }
  }

  lemma RenameNewest(c: Config, d: Disk, ts: string, k: nat)
    requires Mid(c, d, ts, k) && k < |c.names| && Fed(c, d, ts, k)
    ensures NewestKept(c, Moved(c, d, k, ts))
  {
    RenameCompletes(c, d, ts, k);
    forall t | t in d.past && t != ts ensures HasAll(c, Moved(c, d, k, ts).files, t) <==> HasAll(c, d.files, t) {
      RenameOther(c, d, ts, k, t);
    }
    forall t | t in d.past ensures !LexLess(ts, t) { LexTotal(t, ts); }
    NewestFrom(c, d, Moved(c, d, k, ts), ts, k + 1 == |c.names|);
  }

  lemma RenameIs(c: Config, d: Disk, ts: string, k: nat, f: Fate)
    requires k < |c.names| && T(c, k).Partial(ts) in d.files && Takes(f)
    ensures LineSpec(c, d, ts, Rename(k), f) == Moved(c, d, k, ts)
  {
  }

  lemma RenameKeeps(c: Config, d: Disk, ts: string, k: nat, f: Fate)
    requires Mid(c, d, ts, k) && k < |c.names| && Fed(c, d, ts, k)
    ensures Mid(c, LineSpec(c, d, ts, Rename(k), f), ts, if Takes(f) then k + 1 else k)
  {
    if Takes(f) {
      var d' := Moved(c, d, k, ts);
      RenameIs(c, d, ts, k, f);
      RenameFinished(c, d, ts, k);
      RenameDated(c, d, ts, k);
      RenameNewest(c, d, ts, k);
      RenameCompletes(c, d, ts, k);
    }
  }

  lemma RenameDated(c: Config, d: Disk, ts: string, k: nat)
    requires Mid(c, d, ts, k) && k < |c.names| && Fed(c, d, ts, k)
    ensures Dated(c, Moved(c, d, k, ts))
  {
    var p := T(c, k).Partial(ts);
    var d' := Moved(c, d, k, ts);
    forall i, t, u | 0 <= i < |c.names| && t in d.past && u in d.past && LexLess(t, u)
                     && T(c, i).Name(t) in d'.files && T(c, i).Name(u) in d'.files
      ensures d'.files[T(c, i).Name(t)].mtime < d'.files[T(c, i).Name(u)].mtime
    {
      RenameAdds(c, d, ts, k, i, t);
      RenameAdds(c, d, ts, k, i, u);
      NameFacts(c, i, k, t, ts);
      LexTotal(t, u);
    }
  }

  /** Removing files changes nothing as long as the set just completed stays. */
  lemma RemovalKeeps(c: Config, d: Disk, ts: string, gone: set<string>)
    requires Mid(c, d, ts, |c.names|)
    requires forall i | 0 <= i < |c.names| :: T(c, i).Name(ts) !in gone
    ensures Mid(c, d.(files := d.files - gone), ts, |c.names|)
  {
    var d' := d.(files := d.files - gone);
    assert forall t | t in d.past && HasAll(c, d'.files, t) :: HasAll(c, d.files, t);
    assert HasAll(c, d'.files, ts);
  }

  /** Nothing of a strategy is newer than the set just completed. */
  lemma OwnIsNewest(c: Config, d: Disk, ts: string, i: nat)
    requires Mid(c, d, ts, |c.names|) && i < |c.names|
    ensures Newer(d.files, T(c, i), T(c, i).Name(ts)) == {}
  {
    var own := T(c, i).Name(ts);
    forall m | m in d.files && T(c, i).Matches(m) ensures d.files[m].mtime <= d.files[own].mtime {
      var t :| t in d.past && m == T(c, i).Name(t);
    }
  }

  lemma OwnStays(c: Config, d: Disk, ts: string, i: nat)
    requires Mid(c, d, ts, |c.names|) && i < |c.names|
    ensures forall j | 0 <= j < |c.names| :: T(c, j).Name(ts) !in Beyond(d.files, T(c, i), Keep(c))
  {
    OwnIsNewest(c, d, ts, i);
    forall j | 0 <= j < |c.names| ensures T(c, j).Name(ts) !in Beyond(d.files, T(c, i), Keep(c)) {
      NameFacts(c, i, j, ts, ts);
    }
  }

  lemma PruneIs(c: Config, d: Disk, ts: string, i: nat, f: Fate, b: set<string>)
    requires i < |c.names| && b == Beyond(d.files, T(c, i), Keep(c))
    ensures LineSpec(c, d, ts, Prune(i), f) == d.(files := d.files - (if f.Done? then b else b * f.gone))
  {
  }

  lemma PruneKeeps(c: Config, d: Disk, ts: string, i: nat, f: Fate)
    requires Mid(c, d, ts, |c.names|) && i < |c.names|
    ensures Mid(c, LineSpec(c, d, ts, Prune(i), f), ts, |c.names|)
  {
    var b := Beyond(d.files, T(c, i), Keep(c));
    OwnStays(c, d, ts, i);
    PruneIs(c, d, ts, i, f, b);
    RemovalKeeps(c, d, ts, if f.Done? then b else b * f.gone);
  }

  lemma PruneEnvKeeps(c: Config, d: Disk, ts: string, f: Fate)
    requires Mid(c, d, ts, |c.names|)
    ensures Mid(c, LineSpec(c, d, ts, PruneEnv, f), ts, |c.names|)
  {
    var b := Beyond(d.files, ENV_TEMPLATE, Keep(c));
    forall j | 0 <= j < |c.names| ensures T(c, j).Name(ts) !in b {
      NameFacts(c, j, j, ts, ts);
    }
    RemovalKeeps(c, d, ts, if f.Done? then b else b * f.gone);
  }

  // ----- a whole run -----

  predicate TailLine(c: Config, l: Line) {
    l.CopyEnv? || l.PruneEnv? || l.Report? || (l.Prune? && l.i < |c.names|)
  }

  lemma {:induction false} TailKeeps(c: Config, d: Disk, ts: string, lines: seq<Line>, fates: seq<Fate>)
    requires Mid(c, d, ts, |c.names|) && forall l | l in lines :: TailLine(c, l)
    ensures Mid(c, LinesSpec(c, d, ts, lines, fates), ts, |c.names|)
    decreases |lines|
  {
    if lines != [] && fates != [] {
      assert TailLine(c, lines[0]);
      match lines[0] {
        case CopyEnv(there) => EnvKeeps(c, d, ts, |c.names|, there, fates[0]);
        case Prune(i) => PruneKeeps(c, d, ts, i, fates[0]);
        case PruneEnv => PruneEnvKeeps(c, d, ts, fates[0]);
        case _ =>
      }
      if fates[0].Done? { TailKeeps(c, LineSpec(c, d, ts, lines[0], fates[0]), ts, lines[1..], fates[1..]); }
    }
  }

  function Paired(c: Config, d: Disk, ts: string, k: nat): Disk {
    LineSpec(c, LineSpec(c, d, ts, Dump(k), Done), ts, Rename(k), Done)
  }

  lemma PairKeeps(c: Config, d: Disk, ts: string, k: nat)
    requires Mid(c, d, ts, k) && k < |c.names|
    ensures Mid(c, Paired(c, d, ts, k), ts, k + 1)
  {
    DumpKeeps(c, d, ts, k, Done);
    DumpFeeds(c, d, ts, k);
    RenameKeeps(c, Dumped(c, d, ts, k, true), ts, k, Done);
  }

  lemma PairLines(c: Config, d: Disk, ts: string, k: nat, lines: seq<Line>, fates: seq<Fate>)
    requires |fates| >= 2 && fates[0].Done? && fates[1].Done?
    ensures LinesSpec(c, d, ts, [Dump(k), Rename(k)] + lines, fates)
            == LinesSpec(c, Paired(c, d, ts, k), ts, lines, fates[2..])
  {
    assert ([Dump(k), Rename(k)] + lines)[1..][1..] == lines && fates[1..][1..] == fates[2..];
  }

  lemma {:induction false} DumpsKeep(c: Config, d: Disk, ts: string, k: nat, tail: seq<Line>, fates: seq<Fate>)
    requires Mid(c, d, ts, k) && forall l | l in tail :: TailLine(c, l)
    ensures Inv(c, LinesSpec(c, d, ts, Dumps(Upto(|c.names|)[k..]) + tail, fates))
    decreases |c.names| - k
  {
    var ran := Upto(|c.names|);
    if k == |c.names| {
      assert Dumps(ran[k..]) + tail == tail;
      TailKeeps(c, d, ts, tail, fates);
    } else {
      assert ran[k..][0] == k && ran[k..][1..] == ran[k + 1..];
      var rest := Dumps(ran[k + 1..]) + tail;
      assert Dumps(ran[k..]) + tail == [Dump(k), Rename(k)] + rest;
      PairCut(c, d, ts, k, rest, fates);
      if |fates| >= 2 && fates[0].Done? && fates[1].Done? {
        PairKeeps(c, d, ts, k);
        PairLines(c, d, ts, k, rest, fates);
        DumpsKeep(c, Paired(c, d, ts, k), ts, k + 1, tail, fates[2..]);
      }
    }
  }

  lemma PairCutIs(c: Config, d: Disk, ts: string, k: nat, lines: seq<Line>, fates: seq<Fate>)
    requires fates != [] && !(|fates| >= 2 && fates[0].Done? && fates[1].Done?)
    ensures var d1 := LineSpec(c, d, ts, Dump(k), fates[0]);
            LinesSpec(c, d, ts, [Dump(k), Rename(k)] + lines, fates)
            == if |fates| >= 2 && fates[0].Done? then LineSpec(c, d1, ts, Rename(k), fates[1]) else d1
  {
    assert ([Dump(k), Rename(k)] + lines)[1..] == [Rename(k)] + lines;
  }

  /** A run that ends inside one strategy's dump and rename. */
  lemma PairCut(c: Config, d: Disk, ts: string, k: nat, lines: seq<Line>, fates: seq<Fate>)
    requires Mid(c, d, ts, k) && k < |c.names|
    ensures !(|fates| >= 2 && fates[0].Done? && fates[1].Done?) ==>
              Inv(c, LinesSpec(c, d, ts, [Dump(k), Rename(k)] + lines, fates))
  {
    if fates != [] && !(|fates| >= 2 && fates[0].Done? && fates[1].Done?) {
      PairCutIs(c, d, ts, k, lines, fates);
      DumpKeeps(c, d, ts, k, fates[0]);
      if |fates| >= 2 && fates[0].Done? { CutAtRename(c, d, ts, k, fates[1]); }
    }
  }

  lemma CutAtRename(c: Config, d: Disk, ts: string, k: nat, f: Fate)
    requires Mid(c, d, ts, k) && k < |c.names|
    ensures Inv(c, LineSpec(c, LineSpec(c, d, ts, Dump(k), Done), ts, Rename(k), f))
  {
    DumpKeeps(c, d, ts, k, Done);
    DumpFeeds(c, d, ts, k);
    RenameKeeps(c, Dumped(c, d, ts, k, true), ts, k, f);
  }

  lemma {:induction false} PrunesAreTail(c: Config, ran: seq<nat>)
    requires forall i | i in ran :: i < |c.names|
    ensures forall l | l in Prunes(ran) :: TailLine(c, l)
    decreases |ran|
  {
    if ran != [] {
      assert forall i | i in ran[1..] :: i in ran;
      assert ran[0] in ran;
      PrunesAreTail(c, ran[1..]);
    }
  }

  lemma Unused(c: Config, d: Disk, ts: string, i: nat)
    requires Inv(c, d) && IsStamp(ts) && After(d.past, ts) && i < |c.names|
    ensures T(c, i).Name(ts) !in d.files
  {
    NameFacts(c, i, i, ts, ts);
    if T(c, i).Name(ts) in d.files {
      var t :| t in d.past && T(c, i).Name(ts) == T(c, i).Name(t);
      NameFacts(c, i, i, ts, t);
      LexTotal(t, ts);
    }
  }

  lemma StartsFinished(c: Config, d: Disk, ts: string)
    requires Inv(c, d)
    ensures OnlyFinished(c, d.(past := d.past + [ts]))
  {
    var d' := d.(past := d.past + [ts]);
    forall i, name | 0 <= i < |c.names| && name in d'.files && T(c, i).Matches(name)
      ensures exists t | t in d'.past :: name == T(c, i).Name(t)
    {
      var t :| t in d.past && name == T(c, i).Name(t);
      assert t in d'.past;
    }
  }

  lemma StartsDated(c: Config, d: Disk, ts: string)
    requires Inv(c, d) && forall i | 0 <= i < |c.names| :: T(c, i).Name(ts) !in d.files
    ensures Dated(c, d.(past := d.past + [ts]))
  {
  }

  lemma StartsNewest(c: Config, d: Disk, ts: string)
    requires Inv(c, d) && !HasAll(c, d.files, ts)
    ensures NewestKept(c, d.(past := d.past + [ts]))
  {
    if d.complete != [] { assert d.complete[|d.complete| - 1] in d.past + [ts]; }
  }

  lemma StartsMid(c: Config, d: Disk, ts: string)
    requires Inv(c, d) && IsStamp(ts) && After(d.past, ts)
    ensures Mid(c, d.(past := d.past + [ts]), ts, 0)
  {
    forall i | 0 <= i < |c.names| ensures T(c, i).Name(ts) !in d.files { Unused(c, d, ts, i); }
    assert !HasAll(c, d.files, ts) by { assert T(c, 0).Name(ts) !in d.files; }
    StartsFinished(c, d, ts);
    StartsDated(c, d, ts);
    StartsNewest(c, d, ts);
  }

  lemma TailIsTail(c: Config, there: bool)
    ensures forall l | l in Tail(c, Upto(|c.names|), there) :: TailLine(c, l)
  {
    PrunesAreTail(c, Upto(|c.names|));
  }

  lemma BackupKeeps(c: Config, d: Disk, b: Backup)
    requires Inv(c, d) && IsStamp(b.ts) && After(d.past, b.ts)
    ensures Inv(c, BackupSpec(c, d, b))
  {
    var d0 := d.(past := d.past + [b.ts]);
    StartsMid(c, d, b.ts);
    var ran := Upto(|c.names|);
    TailIsTail(c, b.envThere);
    var lines := Dumps(ran) + Tail(c, ran, b.envThere);
    assert ran[0..] == ran;
    assert ([MkDir] + lines)[1..] == lines;
    if b.fates != [] && b.fates[0].Done? {
      DumpsKeep(c, d0, b.ts, 0, Tail(c, ran, b.envThere), b.fates[1..]);
    }
  }

  lemma {:induction false} BackupsKeep(c: Config, d: Disk, bs: seq<Backup>)
    requires Inv(c, d) && Increasing(d.past, bs)
    ensures Inv(c, BackupsSpec(c, d, bs))
    decreases |bs|
  {
    if bs != [] {
      BackupKeeps(c, d, bs[0]);
      PastGrows(c, d.(past := d.past + [bs[0].ts]), bs[0].ts, Script(c, Upto(|c.names|), bs[0].envThere), bs[0].fates);
      BackupsKeep(c, BackupSpec(c, d, bs[0]), bs[1..]);
    }
  }

  lemma {:induction false} PastGrows(c: Config, d: Disk, ts: string, lines: seq<Line>, fates: seq<Fate>)
    ensures LinesSpec(c, d, ts, lines, fates).past == d.past
    decreases |lines|
  {
    if lines != [] && fates != [] && fates[0].Done? {
      PastGrows(c, LineSpec(c, d, ts, lines[0], fates[0]), ts, lines[1..], fates[1..]);
    }
  }
}
