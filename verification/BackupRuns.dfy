/** What any number of backup runs, each stopped after or inside any line, leave for restore to find:
    internal/backup's multiBackupScript and multiRestoreScript, and the single-database scripts, which
    are the case of one strategy. */
module BackupRuns {
  import opened Text
  import opened BackupNames
  import opened BackupSteps

  // ----- a run nothing goes wrong in -----

  function Matching(files: map<string, File>, t: Template): set<string> {
    set n | n in files && t.Matches(n)
  }

  lemma Oldest(files: map<string, File>, s: set<string>) returns (o: string)
    requires s != {} && forall n | n in s :: n in files
    ensures o in s && forall n | n in s :: files[o].mtime <= files[n].mtime
    decreases s
  {
    var x :| x in s;
    if s == {x} {
      o := x;
    } else {
      o := Oldest(files, s - {x});
      if files[x].mtime < files[o].mtime { o := x; }
    }
  }

  /** After a prune at most `keep` files of that pattern are left. */
  lemma PruneBounds(c: Config, d: Disk, i: nat)
    requires Inv(c, d) && i < |c.names|
    ensures |Matching(PruneFiles(d, T(c, i), Keep(c), Done).files, T(c, i))| <= Keep(c)
  {
    var t := T(c, i);
    var left := Matching(PruneFiles(d, t, Keep(c), Done).files, t);
    if left != {} {
      var o := Oldest(d.files, left);
      forall n | n in left && n != o ensures n in Newer(d.files, t, o) {
        var u :| u in d.past && o == t.Name(u);
        var v :| v in d.past && n == t.Name(v);
        LexTotal(u, v);
      }
      SubsetBound(left - {o}, Newer(d.files, t, o));
      assert o !in Beyond(d.files, t, Keep(c));
    }
  }

  lemma TailAddsNone(c: Config, d: Disk, ts: string, line: Line, i: nat)
    requires Apart(c.names) && TailLine(c, line) && i < |c.names|
    ensures forall n | n in Matching(LineSpec(c, d, ts, line, Done).files, T(c, i)) :: n in Matching(d.files, T(c, i))
  {
    NameFacts(c, i, i, ts, ts);
  }

  /** One line of the tail adds to no kind, and a prune brings its kind within the limit. */
  lemma OneTailLine(c: Config, d: Disk, ts: string, line: Line, d1: Disk, i: nat)
    requires Mid(c, d, ts, |c.names|) && TailLine(c, line) && d1 == LineSpec(c, d, ts, line, Done) && i < |c.names|
    ensures |Matching(d1.files, T(c, i))| <= |Matching(d.files, T(c, i))|
    ensures line == Prune(i) ==> |Matching(d1.files, T(c, i))| <= Keep(c)
  {
    TailAddsNone(c, d, ts, line, i);
    SubsetBound(Matching(d1.files, T(c, i)), Matching(d.files, T(c, i)));
    if line == Prune(i) { PruneBounds(c, d, i); }
  }

  lemma {:induction false} CleanTail(c: Config, d: Disk, ts: string, lines: seq<Line>, fates: seq<Fate>)
    requires Mid(c, d, ts, |c.names|) && forall l | l in lines :: TailLine(c, l)
    requires AllDone(fates) && |fates| >= |lines|
    ensures var d' := LinesSpec(c, d, ts, lines, fates);
            && Mid(c, d', ts, |c.names|)
            && forall i | 0 <= i < |c.names| ::
                 |Matching(d'.files, T(c, i))| <= |Matching(d.files, T(c, i))|
                 && (Prune(i) in lines ==> |Matching(d'.files, T(c, i))| <= Keep(c))
    decreases |lines|
  {
    if lines != [] {
      assert TailLine(c, lines[0]);
      assert fates[0] in fates;
      var d1 := LineSpec(c, d, ts, lines[0], fates[0]);
      assert fates[0].Done?;
      forall i | 0 <= i < |c.names|
        ensures |Matching(d1.files, T(c, i))| <= |Matching(d.files, T(c, i))|
        ensures lines[0] == Prune(i) ==> |Matching(d1.files, T(c, i))| <= Keep(c)
      {
        OneTailLine(c, d, ts, lines[0], d1, i);
      }
      TailKeeps(c, d, ts, [lines[0]], [fates[0]]);
      assert LinesSpec(c, d, ts, [lines[0]], [fates[0]]) == LinesSpec(c, d1, ts, [], []);
      CleanTail(c, d1, ts, lines[1..], fates[1..]);
    }
  }

  lemma DumpsStep(n: nat, k: nat, tail: seq<Line>)
    requires k < n
    ensures var ran := Upto(n); |ran| == n && Dumps(ran[k..]) + tail == [Dump(k), Rename(k)] + (Dumps(ran[k + 1..]) + tail)
  {
    var ran := Upto(n);
    assert ran[k..][0] == k && ran[k..][1..] == ran[k + 1..];
    var rest := Dumps(ran[k + 1..]);
    assert [Dump(k), Rename(k)] + rest + tail == [Dump(k), Rename(k)] + (rest + tail);
  }

  lemma AllDoneFrom(fates: seq<Fate>, n: nat)
    requires AllDone(fates) && n <= |fates|
    ensures AllDone(fates[n..]) && forall i | 0 <= i < |fates| :: fates[i].Done?
  {
    assert forall f | f in fates[n..] :: f in fates;
    assert forall i | 0 <= i < |fates| :: fates[i] in fates;
  }

  lemma {:induction false} CleanDumps(c: Config, d: Disk, ts: string, k: nat, tail: seq<Line>, fates: seq<Fate>)
      returns (d1: Disk)
    requires Mid(c, d, ts, k) && AllDone(fates)
    requires |fates| >= 2 * (|c.names| - k)
    ensures Mid(c, d1, ts, |c.names|)
    ensures LinesSpec(c, d, ts, Dumps(Upto(|c.names|)[k..]) + tail, fates)
            == LinesSpec(c, d1, ts, tail, fates[2 * (|c.names| - k)..])
    decreases |c.names| - k
  {
    var n := |c.names|;
    if k == n {
      d1 := d;
      assert Dumps(Upto(n)[k..]) + tail == tail && fates[0..] == fates;
    } else {
      DumpsStep(n, k, tail);
      AllDoneFrom(fates, 2);
      PairKeeps(c, d, ts, k);
      PairLines(c, d, ts, k, Dumps(Upto(n)[k + 1..]) + tail, fates);
      d1 := CleanDumps(c, Paired(c, d, ts, k), ts, k + 1, tail, fates[2..]);
      assert fates[2..][2 * (n - k - 1)..] == fates[2 * (n - k)..];
    }
  }

  lemma {:induction false} DumpsLength(ran: seq<nat>)
    ensures |Dumps(ran)| == 2 * |ran| && |Prunes(ran)| == |ran|
    ensures forall i | i in ran :: Prune(i) in Prunes(ran)
    decreases |ran|
  {
    if ran != [] {
      DumpsLength(ran[1..]);
      forall i | i in ran ensures Prune(i) in Prunes(ran) {
        if i != ran[0] { assert i in ran[1..]; }
      }
    }
  }

  /** A run nothing goes wrong in completes its set, and leaves at most `keep` artifacts of each
      strategy, its own among them. */
  lemma CleanBackup(c: Config, d: Disk, b: Backup)
    requires Inv(c, d) && IsStamp(b.ts) && After(d.past, b.ts)
    requires AllDone(b.fates) && |b.fates| >= |Script(c, Upto(|c.names|), b.envThere)|
    ensures var d' := BackupSpec(c, d, b);
            && d'.complete != [] && d'.complete[|d'.complete| - 1] == b.ts && HasAll(c, d'.files, b.ts)
            && forall i | 0 <= i < |c.names| :: |Matching(d'.files, T(c, i))| <= Keep(c)
  {
    var tail := Tail(c, Upto(|c.names|), b.envThere);
    var d1, fates := CleanStart(c, d, b);
    TailIsTail(c, b.envThere);
    CleanTail(c, d1, b.ts, tail, fates);
    forall i | 0 <= i < |c.names| ensures Prune(i) in tail {
      DumpsLength(Upto(|c.names|));
      assert Upto(|c.names|)[i] in Upto(|c.names|);
    }
  }

  lemma CleanStart(c: Config, d: Disk, b: Backup) returns (d1: Disk, fates: seq<Fate>)
    requires Inv(c, d) && IsStamp(b.ts) && After(d.past, b.ts)
    requires AllDone(b.fates) && |b.fates| >= |Script(c, Upto(|c.names|), b.envThere)|
    ensures Mid(c, d1, b.ts, |c.names|) && AllDone(fates)
    ensures |fates| >= |Tail(c, Upto(|c.names|), b.envThere)|
    ensures BackupSpec(c, d, b) == LinesSpec(c, d1, b.ts, Tail(c, Upto(|c.names|), b.envThere), fates)
  {
    var d0 := d.(past := d.past + [b.ts]);
    StartsMid(c, d, b.ts);
    var ran := Upto(|c.names|);
    var tail := Tail(c, ran, b.envThere);
    DumpsLength(ran);
    var rest := b.fates[1..];
    AllDoneFrom(b.fates, 1);
    d1 := CleanDumps(c, d0, b.ts, 0, tail, rest);
    fates := rest[2 * |c.names|..];
    AllDoneFrom(rest, 2 * |c.names|);
    SkipFirst(c, d0, b.ts, Dumps(ran) + tail, b.fates);
    assert ran[0..] == ran;
  }

  lemma SkipFirst(c: Config, d: Disk, ts: string, lines: seq<Line>, fates: seq<Fate>)
    requires fates != [] && fates[0].Done?
    ensures LinesSpec(c, d, ts, [MkDir] + lines, fates) == LinesSpec(c, d, ts, lines, fates[1..])
  {
    assert ([MkDir] + lines)[1..] == lines;
  }

  // ----- restore -----

  /** What a shell glob expands to: the names it matches, in order. */
  ghost predicate Globbed(listing: seq<string>, files: map<string, File>, t: Template) {
    && (forall n :: n in listing <==> n in files && t.Matches(n))
    && (forall i, j | 0 <= i < j < |listing| :: LexLess(listing[i], listing[j]))
  }

  predicate Complete(c: Config, files: map<string, File>, name: string) {
    StampOf(name).Some? && HasAll(c, files, StampOf(name).value)
  }

  /** The last name of the listing whose whole set is there. */
  function Pick(c: Config, files: map<string, File>, listing: seq<string>): Option<string>
    decreases |listing|
  {
    if listing == [] then None
    else if Complete(c, files, listing[|listing| - 1]) then Some(listing[|listing| - 1])
    else Pick(c, files, listing[..|listing| - 1])
  }

  lemma {:induction false} PickIs(c: Config, files: map<string, File>, listing: seq<string>, k: nat)
    requires k < |listing| && Complete(c, files, listing[k])
    requires forall j | k < j < |listing| :: !Complete(c, files, listing[j])
    ensures Pick(c, files, listing) == Some(listing[k])
    decreases |listing|
  {
    if k < |listing| - 1 {
      PickIs(c, files, listing[..|listing| - 1], k);
    }
  }

  lemma {:induction false} PickNone(c: Config, files: map<string, File>, listing: seq<string>)
    requires forall j | 0 <= j < |listing| :: !Complete(c, files, listing[j])
    ensures Pick(c, files, listing) == None
    decreases |listing|
  {
    if listing != [] { PickNone(c, files, listing[..|listing| - 1]); }
  }

  /** The directory before the first backup: nothing in it that a strategy's pattern matches. */
  predicate Fresh(c: Config, d: Disk) {
    && d.past == [] && d.complete == []
    && (forall name | name in d.files :: d.files[name].mtime < d.clock)
    && (forall i, name | 0 <= i < |c.names| && name in d.files :: !T(c, i).Matches(name))
  }

  predicate Usable(c: Config) {
    c.names != [] && Apart(c.names) && Short(c.names[0])
  }

  /** The configuration of any non-empty list of strategies is usable. */
  lemma StrategiesAreUsable(kinds: seq<Kind>, keepField: int, hasEnv: bool)
    requires kinds != []
    ensures Usable(Config(NamesOf(kinds), keepField, hasEnv))
  {
    NamesOfApart(kinds);
    TemplateShort(kinds, 0);
  }

  lemma FreshInv(c: Config, d: Disk)
    requires Usable(c) && Fresh(c, d)
    ensures Inv(c, d)
  {
  }

  /** After any sequence of backups, each stopped anywhere: every artifact under a final name is a
      finished dump, and the newest set that was ever complete is still whole. */
  lemma BackupsKeepTheNewestSet(c: Config, d: Disk, bs: seq<Backup>)
    requires Usable(c) && Fresh(c, d) && Increasing([], bs)
    ensures var d' := BackupsSpec(c, d, bs);
            && (forall i, name | 0 <= i < |c.names| && name in d'.files && T(c, i).Matches(name) :: d'.files[name].whole)
            && (d'.complete != [] ==> HasAll(c, d'.files, d'.complete[|d'.complete| - 1]))
  {
    FreshInv(c, d);
    BackupsKeep(c, d, bs);
  }

  lemma ListedIsArtifact(c: Config, d: Disk, name: string)
    requires Usable(c) && Inv(c, d) && name in d.files && T(c, 0).Matches(name)
    ensures StampOf(name).Some?
    ensures var t := StampOf(name).value; t in d.past && name == T(c, 0).Name(t)
  {
    var t :| t in d.past && name == T(c, 0).Name(t);
    StampOfName(T(c, 0), t);
  }

  /** ... and restore with no file named picks exactly that set, or finds nothing when no set was ever
      complete. */
  lemma RestorePicksTheNewestSet(c: Config, d: Disk, listing: seq<string>)
    requires Usable(c) && Inv(c, d) && Globbed(listing, d.files, T(c, 0))
    ensures Pick(c, d.files, listing) ==
            if d.complete == [] then None else Some(T(c, 0).Name(d.complete[|d.complete| - 1]))
  {
    forall name | name in listing
      ensures name in d.files && StampOf(name).Some? && StampOf(name).value in d.past
              && name == T(c, 0).Name(StampOf(name).value)
    {
      ListedIsArtifact(c, d, name);
    }
    if d.complete == [] {
      forall j | 0 <= j < |listing| ensures !Complete(c, d.files, listing[j]) { assert listing[j] in listing; }
      PickNone(c, d.files, listing);
    } else {
      var last := d.complete[|d.complete| - 1];
      var n := T(c, 0).Name(last);
      OwnName(c, 0, last);
      StampOfName(T(c, 0), last);
      assert n in listing;
      var k :| 0 <= k < |listing| && listing[k] == n;
      forall j | k < j < |listing| ensures !Complete(c, d.files, listing[j]) {
        assert listing[j] in listing;
        var t := StampOf(listing[j]).value;
        LexMiddle(T(c, 0).pre, last, t, T(c, 0).post);
      }
      PickIs(c, d.files, listing, k);
    }
  }

  /** Backups and restore together. */
  lemma RestoreAfterBackups(c: Config, d: Disk, bs: seq<Backup>, listing: seq<string>)
    requires Usable(c) && Fresh(c, d) && Increasing([], bs)
    requires Globbed(listing, BackupsSpec(c, d, bs).files, T(c, 0))
    ensures var d' := BackupsSpec(c, d, bs);
            Pick(c, d'.files, listing) ==
            if d'.complete == [] then None else Some(T(c, 0).Name(d'.complete[|d'.complete| - 1]))
  {
    FreshInv(c, d);
    BackupsKeep(c, d, bs);
    RestorePicksTheNewestSet(c, BackupsSpec(c, d, bs), listing);
  }

  /** The single-database form picks by modification time, and finds the same one. */
  lemma SingleRestorePicksTheNewest(c: Config, d: Disk, f: string)
    requires Usable(c) && |c.names| == 1 && Inv(c, d)
    requires f in d.files && T(c, 0).Matches(f) && Newer(d.files, T(c, 0), f) == {}
    ensures d.complete != [] && f == T(c, 0).Name(d.complete[|d.complete| - 1])
  {
    var t :| t in d.past && f == T(c, 0).Name(t);
    assert HasAll(c, d.files, t);
    var last := d.complete[|d.complete| - 1];
    var n := T(c, 0).Name(last);
    OwnName(c, 0, last);
    LexTotal(t, last);
    assert n !in Newer(d.files, T(c, 0), f);
  }

  /** The loop of the restore script over the listing. */
  method PickNewest(c: Config, files: map<string, File>, listing: seq<string>) returns (f: Option<string>)
    ensures f == Pick(c, files, listing)
  {
    f := None;
    for i := 0 to |listing|
      invariant f == Pick(c, files, listing[..i])
    {
      assert listing[..i + 1][..i] == listing[..i];
      var ts := StampOf(listing[i]);
      if ts.Some? {
        var ok := CheckAll(c, files, ts.value);
        if ok { f := Some(listing[i]); }
      }
    }
    assert listing[..|listing|] == listing;
  }

  method CheckAll(c: Config, files: map<string, File>, ts: string) returns (ok: bool)
    ensures ok <==> HasAll(c, files, ts)
  {
    for i := 0 to |c.names|
      invariant forall j | 0 <= j < i :: T(c, j).Name(ts) in files
    {
      if T(c, i).Name(ts) !in files { return false; }
    }
    return true;
  }

  /** The file whose set is restored: the one named, or the pick. */
  function Target(c: Config, files: map<string, File>, file: Option<string>, listing: seq<string>): Option<string> {
    var f := if file.Some? then file else Pick(c, files, listing);
    if f.Some? && f.value in files && Complete(c, files, f.value) then f else None
  }

  /** How many restore commands succeed before one does not. */
  function LeadingDone(loads: seq<Fate>): (n: nat)
    ensures n <= |loads| && (forall i | 0 <= i < n :: loads[i].Done?) && (n < |loads| ==> !loads[n].Done?)
  {
    if loads == [] || !loads[0].Done? then 0 else 1 + LeadingDone(loads[1..])
  }

  function Min(a: nat, b: nat): nat { if a < b then a else b }

  /** The restore script. `file` names any artifact of the set; `loads` is what becomes of its restore
      commands, the first that does not succeed ending the script. Nothing is loaded unless the whole set
      is there; what is loaded is the set's artifacts in order, up to the command that failed, and all of
      them exactly when none did. `begun` is the artifact whose command had begun when the script ended. */
  method Restore(c: Config, d: Disk, file: Option<string>, listing: seq<string>, loads: seq<Fate>)
    returns (loaded: seq<string>, begun: Option<string>, ok: bool)
    ensures var f := Target(c, d.files, file, listing);
            if f.None? then loaded == [] && begun == None && !ok
            else
              var ts := StampOf(f.value).value;
              var n := Min(LeadingDone(loads), |c.names|);
              && HasAll(c, d.files, ts)
              && |loaded| == n && (forall i | 0 <= i < n :: loaded[i] == T(c, i).Name(ts))
              && begun == (if n < |c.names| && n < |loads| then Some(T(c, n).Name(ts)) else None)
              && (ok <==> n == |c.names|)
  {
    loaded, begun, ok := [], None, false;
    var f := file;
    if file.None? { f := PickNewest(c, d.files, listing); }
    if f.None? || f.value !in d.files { return; }
    var ts := StampOf(f.value);
    if ts.None? { return; }
    var all := CheckAll(c, d.files, ts.value);
    if !all { return; }
    for i := 0 to |c.names|
      invariant |loaded| == i <= LeadingDone(loads) && begun == None
      invariant forall j | 0 <= j < i :: loaded[j] == T(c, j).Name(ts.value)
    {
      if i == |loads| { return; }
      if !loads[i].Done? {
        begun := Some(T(c, i).Name(ts.value));
        return;
      }
      loaded := loaded + [T(c, i).Name(ts.value)];
    }
    ok := true;
  }

  /** After any backups a restore without a file, none of whose commands fails, loads exactly the newest
      complete set, and one that fails in the middle has loaded a part of no other set. */
  method RestoreNewest(c: Config, d: Disk, listing: seq<string>, loads: seq<Fate>) returns (loaded: seq<string>, ok: bool)
    requires Usable(c) && Inv(c, d) && Globbed(listing, d.files, T(c, 0)) && d.complete != []
    ensures forall i | 0 <= i < |loaded| :: i < |c.names| && loaded[i] == T(c, i).Name(d.complete[|d.complete| - 1])
    ensures forall i | 0 <= i < |loaded| :: loaded[i] in d.files && d.files[loaded[i]].whole
    ensures ok <==> |loaded| == |c.names|
    ensures LeadingDone(loads) >= |c.names| ==> ok
  {
    ghost var last := d.complete[|d.complete| - 1];
    RestorePicksTheNewestSet(c, d, listing);
    StampOfName(T(c, 0), last);
    RestoreByFile(c, d, 0, last);
    var begun;
    loaded, begun, ok := Restore(c, d, None, listing, loads);
  }

  /** Naming any artifact of a complete set restores that set, every file of it a finished dump. */
  lemma RestoreByFile(c: Config, d: Disk, i: nat, ts: string)
    requires Usable(c) && Inv(c, d) && i < |c.names| && Short(T(c, i)) && IsStamp(ts) && HasAll(c, d.files, ts)
    ensures Complete(c, d.files, T(c, i).Name(ts)) && StampOf(T(c, i).Name(ts)) == Some(ts)
    ensures forall j | 0 <= j < |c.names| :: d.files[T(c, j).Name(ts)].whole
  {
    StampOfName(T(c, i), ts);
    forall j | 0 <= j < |c.names| ensures d.files[T(c, j).Name(ts)].whole { OwnName(c, j, ts); }
  }

  /** Restoring a named file: any artifact of a complete set restores that set and no other, however many
      newer ones there are, up to the command that fails. */
  method RestoreNamed(c: Config, d: Disk, i: nat, ts: string, listing: seq<string>, loads: seq<Fate>)
    returns (loaded: seq<string>, begun: Option<string>, ok: bool)
    requires Usable(c) && Inv(c, d) && i < |c.names| && Short(T(c, i)) && IsStamp(ts) && HasAll(c, d.files, ts)
    ensures forall j | 0 <= j < |loaded| :: j < |c.names| && loaded[j] == T(c, j).Name(ts)
    ensures forall j | 0 <= j < |loaded| :: loaded[j] in d.files && d.files[loaded[j]].whole
    ensures |loaded| <= |loads| && forall j | 0 <= j < |loaded| :: loads[j].Done?
    ensures ok || |loaded| == |loads| || !loads[|loaded|].Done?
    ensures begun == if |loaded| < |c.names| && |loaded| < |loads| then Some(T(c, |loaded|).Name(ts)) else None
    ensures ok <==> |loaded| == |c.names|
  {
    RestoreByFile(c, d, i, ts);
    loaded, begun, ok := Restore(c, d, Some(T(c, i).Name(ts)), listing, loads);
  }

  /** A file that is not there, has no timestamp in its name, or is of a set with an artifact missing
      restores nothing, whatever other sets there are. */
  method RestoreRefused(c: Config, d: Disk, file: string, listing: seq<string>, loads: seq<Fate>)
    returns (loaded: seq<string>, begun: Option<string>, ok: bool)
    requires file !in d.files || StampOf(file).None?
             || exists j | 0 <= j < |c.names| :: T(c, j).Name(StampOf(file).value) !in d.files
    ensures loaded == [] && begun == None && !ok
  {
    loaded, begun, ok := Restore(c, d, Some(file), listing, loads);
  }

  // ----- building the script -----

  /** multiBackupScript's loops over the strategies: `skip` leaves out a strategy whose container does
      not exist yet, and a pattern is pruned once. */
  method BuildScript(c: Config, skip: set<nat>, envThere: bool) returns (r: Option<seq<Line>>)
    requires Apart(c.names)
    ensures var ran := Ran(|c.names|, skip);
            && r == (if ran == [] then None else Some(Script(c, ran, envThere)))
            && (forall i: nat :: i in ran <==> i < |c.names| && i !in skip)
            && (forall i, j | 0 <= i < j < |ran| :: ran[i] < ran[j])
  {
    var b := [MkDir];
    var ran: seq<nat> := [];
    for i := 0 to |c.names|
      invariant ran == Ran(i, skip) && b == [MkDir] + Dumps(ran)
    {
      if i !in skip {
        DumpsAppend(ran, i);
        b := b + [Dump(i), Rename(i)];
        ran := ran + [i];
      }
    }
    RanIncreases(|c.names|, skip);
    if ran == [] { return None; }
    if c.hasEnv { b := b + [CopyEnv(envThere)]; }
    var prunes := PruneLines(c, ran);
    ScriptParts(c, ran, envThere, [MkDir], Dumps(ran), if c.hasEnv then [CopyEnv(envThere)] else [], prunes);
    r := Some(b + prunes + [PruneEnv, Report]);
  }

  lemma ScriptParts(c: Config, ran: seq<nat>, envThere: bool, first: seq<Line>, dumps: seq<Line>,
                    env: seq<Line>, prunes: seq<Line>)
    requires first == [MkDir] && dumps == Dumps(ran) && prunes == Prunes(ran)
    requires env == if c.hasEnv then [CopyEnv(envThere)] else []
    ensures first + dumps + env + prunes + [PruneEnv, Report] == Script(c, ran, envThere)
    ensures first + dumps + [] == first + dumps
  {
  }

  method PruneLines(c: Config, ran: seq<nat>) returns (b: seq<Line>)
    requires Apart(c.names) && forall i | 0 <= i < |ran| :: ran[i] < |c.names|
    requires forall i, j | 0 <= i < j < |ran| :: ran[i] < ran[j]
    ensures b == Prunes(ran)
  {
    var seen: set<Template> := {};
    b := [];
    for k := 0 to |ran|
      invariant b == Prunes(ran[..k])
      invariant forall t | t in seen :: exists j | 0 <= j < k :: t == c.names[ran[j]]
    {
      assert ran[..k + 1] == ran[..k] + [ran[k]];
      PrunesAppend(ran[..k], ran[k]);
      NotSeen(c, ran, k);
      if c.names[ran[k]] !in seen {
        seen := seen + {c.names[ran[k]]};
        b := b + [Prune(ran[k])];
      }
    }
    assert ran[..|ran|] == ran;
  }

  lemma NotSeen(c: Config, ran: seq<nat>, k: nat)
    requires Apart(c.names) && forall i | 0 <= i < |ran| :: ran[i] < |c.names|
    requires k < |ran| && forall i, j | 0 <= i < j < |ran| :: ran[i] < ran[j]
    ensures forall j | 0 <= j < k :: c.names[ran[j]] != c.names[ran[k]]
  {
  }

  function Ran(n: nat, skip: set<nat>): seq<nat> {
    if n == 0 then [] else Ran(n - 1, skip) + (if n - 1 in skip then [] else [n - 1])
  }

  lemma {:induction false} RanIncreases(n: nat, skip: set<nat>)
    ensures forall i | 0 <= i < |Ran(n, skip)| :: Ran(n, skip)[i] < n
    ensures forall i, j | 0 <= i < j < |Ran(n, skip)| :: Ran(n, skip)[i] < Ran(n, skip)[j]
    ensures forall i: nat :: i in Ran(n, skip) <==> i < n && i !in skip
    ensures skip == {} ==> Ran(n, skip) == Upto(n)
  {
    if n > 0 { RanIncreases(n - 1, skip); }
  }

  lemma {:induction false} DumpsAppend(ran: seq<nat>, i: nat)
    ensures Dumps(ran + [i]) == Dumps(ran) + [Dump(i), Rename(i)]
    decreases |ran|
  {
    if ran != [] {
      DumpsAppend(ran[1..], i);
      assert (ran + [i])[1..] == ran[1..] + [i];
    }
  }

  lemma {:induction false} PrunesAppend(ran: seq<nat>, i: nat)
    ensures Prunes(ran + [i]) == Prunes(ran) + [Prune(i)]
    decreases |ran|
  {
    if ran != [] {
      PrunesAppend(ran[1..], i);
      assert (ran + [i])[1..] == ran[1..] + [i];
    }
  }
}
