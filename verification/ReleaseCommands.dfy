/** What each command leaves on the host: which attempts are refused, what a clean one does, when a finish
    releases the rollback record and a clear drops the release's, and what is saved and put back. */
module ReleaseCommands {
  import opened Text
  import opened ReleaseState
  import opened ReleaseWorld
  import opened ReleaseSafety
  import opened ReleasePlan
  import opened ReleaseOutcomes
  import opened RollbackSafety

  // ----- refusals -----

  /** Two commits that are both known and differ. */
  predicate OtherCommit(commit: string, r: Record) { commit != "" && r.commit != "" && commit != r.commit }

  /** A fresh release is refused while there is a record. A resume is refused without one, while the earlier
      release may be running, when it cannot be resumed safely, or at another commit. Neither does anything
      under a lock, and a lock it took it gives back unless an answer of the host is lost. */
  lemma RefusedChangesNothing(w: World, op: Op)
    requires op.Release? || op.Resume?
    requires || w.lock
             || (op.Release? && w.record.Some?)
             || (op.Resume? && (w.record.None? || op.open.active || Unsafe(w.record.value)
                                || OtherCommit(op.commit, w.record.value)))
    ensures ChangesNothing(w, OpSpec(w, op)) && (w.lock ==> OpSpec(w, op) == w)
    ensures !w.lock ==>
              (OpSpec(w, op).lock <==> op.open.lock == Landed || (op.open.lock == Acked && op.open.unlock == Lost))
  {
  }

  lemma {:induction false} GoodReleaseItems(w: World, rec: Record, items: seq<Item>)
    ensures var end := GoodItems(w, rec, false, items).0;
            && w.log <= end.log && end.lock == w.lock && Begun(end.log[|w.log|..]) == RunNames(items)
            && (HasProtection(end) <==> HasProtection(w))
    decreases |items|
  {
    if items == [] {
      assert w.log[|w.log|..] == [];
    } else {
      var (w1, r1) := GoodStep(w, rec, false, items[0]);
      GoodItemLogs(w, rec, items[0]);
      GoodReleaseItems(w1, r1, items[1..]);
      var end := GoodItems(w1, r1, false, items[1..]).0;
      ReleaseOutcomes.Extends(w.log, w1.log, end.log);
    }
  }

  lemma GoodItemLogs(w: World, rec: Record, item: Item)
    ensures var w1 := GoodStep(w, rec, false, item).0;
            && w.log <= w1.log && w1.lock == w.lock && (HasProtection(w1) <==> HasProtection(w))
            && Begun(w1.log[|w.log|..]) == if item.Run? then [item.name] else []
  {
    var w1 := GoodStep(w, rec, false, item).0;
    if item.Run? {
      var r1 := Marked(rec, item.name, Started);
      var r3 := Marked(r1, item.name, Done);
      assert w1.log[|w.log|..] == GoodLog(r1, item.name, r3);
      BegunConcat([Wrote(r1)] + [Began(item.name, Some(r1), Succeeds)], [Wrote(r3)]);
      BegunConcat([Wrote(r1)], [Began(item.name, Some(r1), Succeeds)]);
    } else {
      var l := w1.log[|w.log|..];
      assert l == [] || (|l| == 1 && l[0].Saved? && l[1..] == []);
    }
  }

  /** A release in which nothing goes wrong, on a host without a record: every step of the plan in order, then
      the end; the record is gone and the rollback record is free. */
  lemma CleanReleaseRunsAll(w: World, plan: seq<Item>, commit: string)
    requires !w.lock && w.record.None?
    ensures var w' := OpSpec(w, Release(plan, commit, OPEN_WELL, AllGood(|plan|), END_WELL));
            && w'.record == None && !w'.lock && !HasProtection(w') && w.log < w'.log
            && Begun(w'.log[|w.log|..]) == RunNames(plan)
            && w'.log[|w'.log| - 1] == Finished
  {
    var o := BeginSpec(w, commit, OPEN_WELL);
    var r := FreshRecord(commit);
    GoodReleaseItems(o.w, r, plan);
    GoodItemsIs(o.w, r, false, plan);
    BeginThenFinish(w.log, o.w.log, GoodItems(o.w, r, false, plan).0.log);
  }

  lemma BeginThenFinish(log: seq<Event>, begun: seq<Event>, end: seq<Event>)
    requires begun == log + [ReleaseWorld.Fresh] && begun <= end
    ensures var done := end + [Finished];
            log < done && Begun(done[|log|..]) == Begun(end[|begun|..]) && done[|done| - 1] == Finished
  {
    var done := end + [Finished];
    assert begun[|log|..] == [ReleaseWorld.Fresh] && [ReleaseWorld.Fresh][1..] == [];
    assert done[|end|..] == [Finished] && [Finished][1..] == [];
    ReleaseOutcomes.Extends(log, begun, end);
    ReleaseOutcomes.Extends(log, end, done);
  }

  /** An attempt the client left before any step was marked takes its record away again. */
  lemma StoppedBeforeAnyStep(w: World, plan: seq<Item>, commit: string, fin: FinishFate)
    requires !w.lock && w.record.None? && plan != []
    ensures var w' := OpSpec(w, Release(plan, commit, OPEN_WELL, [], fin));
            && w'.record == (if Took(fin.remove) then None else Some(FreshRecord(commit)))
            && w'.log == w.log + [ReleaseWorld.Fresh] && w'.target == w.target
  {
  }

  // ----- what a record keeps -----

  lemma {:induction false} ItemsKeepCommit(w: World, rec: Record, resume: bool, items: seq<Item>, fates: seq<Fate>)
    requires w.record.Some? && w.record.value.commit == rec.commit
    ensures var o := ItemsSpec(w, rec, resume, items, fates);
            o.w.record.Some? && o.w.record.value.commit == rec.commit
    decreases |items|
  {
    if items != [] && fates != [] {
      var o := ItemSpec(w, rec, resume, items[0], fates[0]);
      StepKeepsCommit(w, rec, resume, items[0], fates[0]);
      if o.ok { ItemsKeepCommit(o.w, o.rec, resume, items[1..], fates[1..]); }
    }
  }

  lemma StepKeepsCommit(w: World, rec: Record, resume: bool, item: Item, f: Fate)
    requires w.record.Some? && w.record.value.commit == rec.commit
    ensures var o := ItemSpec(w, rec, resume, item, f);
            o.w.record.Some? && o.w.record.value.commit == rec.commit && o.rec.commit == rec.commit
  {
    if item.Run? {
      StepIs(w, rec, resume, item.name, f);
      var r1 := Marked(rec, item.name, Started);
      var w1 := WriteRecord(w, r1, f.before);
      if !Skipped(rec, resume, item.name) && f.before == Acked { ActedKeepsCommit(w1, r1, item.name, f); }
    }
  }

  lemma ActedKeepsCommit(w: World, r: Record, name: string, f: Fate)
    requires w.record == Some(r)
    ensures var o := Acted(w, r, name, f);
            o.w.record.Some? && o.w.record.value.commit == r.commit && o.rec.commit == r.commit
  {
    var (w2, r2) := NoteBackup(RunAction(w, name, f), r, f);
    assert w2.record.Some? && w2.record.value.commit == r.commit && r2.commit == r.commit;
    assert Marked(r2, name, Failed).commit == r.commit && Marked(r2, name, Done).commit == r.commit;
  }

  /** A record is at the commit of the release that began it, whatever came after. */
  lemma RecordIsAtItsCommit(w: World, op: Op)
    ensures var w' := OpSpec(w, op);
            w'.record.Some? ==>
              (w.record.Some? && w'.record.value.commit == w.record.value.commit)
              || (w.record.None? && op.Release? && w'.record.value.commit == op.commit)
  {
    match op
    case Release(plan, commit, open, fates, fin) =>
      var o := BeginSpec(w, commit, open);
      if o.rec.Some? { ItemsKeepCommit(o.w, o.rec.value, false, plan, fates); }
    case Resume(plan, commit, open, fates, fin) =>
      var o := ResumeSpec(w, commit, open);
      if o.rec.Some? { ItemsKeepCommit(o.w, o.rec.value, true, plan, fates); }
    case _ =>
  }

  /** The backup step's file is in the record from the first write after it that took effect. */
  lemma BackupIsNoted(w: World, rec: Record, resume: bool, name: string, f: Fate)
    requires !Skipped(rec, resume, name) && f.before == Acked && f.note.Some?
    requires f.noted != Lost || (f.action != Cut && f.after != Lost)
    ensures var o := StepSpec(w, rec, resume, name, f);
            o.w.record.Some? && o.w.record.value.backupFile == f.note.value
  {
    StepIs(w, rec, resume, name, f);
  }

  // ----- the end of a release -----

  lemma {:induction false} ItemsKeepProtection(w: World, rec: Record, resume: bool, items: seq<Item>, fates: seq<Fate>)
    ensures HasProtection(ItemsSpec(w, rec, resume, items, fates).w) <==> HasProtection(w)
    decreases |items|
  {
    if items != [] && fates != [] {
      var o := ItemSpec(w, rec, resume, items[0], fates[0]);
      if items[0].Run? { LogGrows(w, rec, resume, items[0].name, fates[0]); }
      if o.ok { ItemsKeepProtection(o.w, o.rec, resume, items[1..], fates[1..]); }
    }
  }

  /** An attempt leaves the rollback record protected or free as it was, but for one that finishes: it frees
      the record unless the client is cut, cannot read it, or the write is lost. */
  lemma FinishReleasesIff(w: World, op: Op)
    requires op.Release? || op.Resume?
    ensures var w' := OpSpec(w, op);
            HasProtection(w') <==>
              HasProtection(w)
              && (Ended(w, w') ==> op.fin.cut || !op.fin.readable || op.fin.unprotect == Lost)
  {
    var o := if op.Release? then BeginSpec(w, op.commit, op.open) else ResumeSpec(w, op.commit, op.open);
    if o.rec.Some? {
      var s := ItemsSpec(o.w, o.rec.value, op.Resume?, op.plan, op.fates);
      ItemsKeepProtection(o.w, o.rec.value, op.Resume?, op.plan, op.fates);
      ItemsNeverEnd(o.w, o.rec.value, op.Resume?, op.plan, op.fates);
      assert w.log <= o.w.log && forall k | |w.log| <= k < |o.w.log| :: o.w.log[k] != Finished;
      if s.ok { assert OpSpec(w, op).log[|s.w.log|] == Finished; }
    }
  }

  /** The command brought a release to its end. */
  predicate Ended(w: World, w': World) { exists k | |w.log| <= k < |w'.log| :: w'.log[k] == Finished }

  lemma {:induction false} ItemsNeverEnd(w: World, rec: Record, resume: bool, items: seq<Item>, fates: seq<Fate>)
    ensures var o := ItemsSpec(w, rec, resume, items, fates);
            w.log <= o.w.log && forall k | |w.log| <= k < |o.w.log| :: o.w.log[k] != Finished
    decreases |items|
  {
    if items != [] && fates != [] {
      var o := ItemSpec(w, rec, resume, items[0], fates[0]);
      ItemNeverEnds(w, rec, resume, items[0], fates[0]);
      if o.ok { ItemsNeverEnd(o.w, o.rec, resume, items[1..], fates[1..]); }
    }
  }

  lemma ItemNeverEnds(w: World, rec: Record, resume: bool, item: Item, f: Fate)
    ensures var o := ItemSpec(w, rec, resume, item, f);
            w.log <= o.w.log && forall k | |w.log| <= k < |o.w.log| :: o.w.log[k] != Finished
  {
    if item.Run? {
      StepIs(w, rec, resume, item.name, f);
      var r1 := Marked(rec, item.name, Started);
      var w1 := WriteRecord(w, r1, f.before);
      if !Skipped(rec, resume, item.name) && f.before == Acked { ActedNeverEnds(w1, r1, item.name, f); }
    }
  }

  lemma ActedNeverEnds(w: World, r: Record, name: string, f: Fate)
    ensures var o := Acted(w, r, name, f);
            w.log <= o.w.log && forall k | |w.log| <= k < |o.w.log| :: o.w.log[k] != Finished
  {
    var (w2, r2) := NoteBackup(RunAction(w, name, f), r, f);
    assert w.log <= w2.log && forall k | |w.log| <= k < |w2.log| :: w2.log[k] != Finished;
  }

  // ----- clear -----

  /** A clear drops the release's record exactly when its removal takes effect, and before that: the record
      could be read, and a half-applied release's rollback record, if there is one that is not protected
      yet, was seen to be protected. It runs nothing and saves nothing. */
  lemma ClearDropsIff(w: World, op: Op)
    requires op.Clear? && w.record.Some?
    ensures var w' := OpSpec(w, op);
            && (w'.record.None? <==>
                  op.readsRecord && op.remove != Lost
                  && (Unsafe(w.record.value) ==>
                        op.readsTarget && (w.target.None? || w.target.value.protected || op.protect == Acked)))
            && (w'.record.Some? ==> w'.record == w.record)
            && w'.running == w.running && TargetOf(w') == TargetOf(w)
            && w'.log == (if w'.record.None? then w.log + [Cleared] else w.log)
  {
  }

  /** The images of the rollback record, protected or not. */
  function TargetOf(w: World): Option<seq<Image>> {
    if w.target.Some? then Some(w.target.value.images) else None
  }

  // ----- what is saved, and what is put back -----

  /** What is recorded of the images that run: each with an id and a tag, as often as it was listed. */
  lemma {:induction false} RecordedIs(running: seq<Image>, i: Image)
    ensures multiset(Recorded(running))[i] == if i.id != "" && i.ref != "" then multiset(running)[i] else 0
    decreases |running|
  {
    if running != [] {
      RecordedIs(running[1..], i);
      assert running == [running[0]] + running[1..];
    }
  }

  /** The service is one of those named, or no name is given. */
  predicate IsAsked(svcs: set<string>, i: Image) {
    (forall n | n in svcs :: n == "") || (i.service != "" && i.service in svcs)
  }

  lemma WantedCons(i: Image, rest: seq<Image>, svcs: set<string>)
    ensures Wanted([i] + rest, svcs) == (if IsAsked(svcs, i) then [i] else []) + Wanted(rest, svcs)
  {
    assert svcs <= {""} <==> forall n | n in svcs :: n == "";
    assert ([i] + rest)[1..] == rest;
  }

  /** What is read for an update: the services named, or all of them when no name is. */
  lemma {:induction false} WantedIs(running: seq<Image>, svcs: set<string>, i: Image)
    ensures multiset(Wanted(running, svcs))[i] == if IsAsked(svcs, i) then multiset(running)[i] else 0
    decreases |running|
  {
    if running != [] {
      WantedIs(running[1..], svcs, i);
      WantedCons(running[0], running[1..], svcs);
      assert running == [running[0]] + running[1..];
    }
  }

  /** An update replaces a rollback record that is not protected with what it read, and none when it stops
      first, cannot read the record there is, or the write is lost; the release's record is not touched. */
  lemma UpdateLeaves(w: World, op: Op)
    requires op.Update?
    ensures var w' := OpSpec(w, op);
            && w'.record == w.record && w'.lock == w.lock
            && w'.running == (if op.stops || op.cut then w.running else op.left)
            && w'.target == if op.stops || !op.readsTarget || op.save == Lost || HasProtection(w) then w.target
                            else Some(Target(Recorded(Wanted(w.running, op.svcs)), false))
  {
  }

  /** A rollback changes what runs exactly when there are recorded images and they are still on the host. */
  lemma RollbackLeaves(w: World, op: Op)
    requires op.Rollback?
    ensures var w', goes := OpSpec(w, op),
                            op.readsTarget && op.present && w.target.Some? && w.target.value.images != [];
            && w'.record == w.record && w'.lock == w.lock && TargetOf(w') == TargetOf(w)
            && w'.running == (if goes then op.left else w.running)
            && w'.log == (if goes && op.up == Succeeds then w.log + [Applied] else w.log)
            && (HasProtection(w') <==>
                  HasProtection(w) && !(goes && op.up == Succeeds && op.readsAgain && op.unprotect != Lost))
  {
  }
}
