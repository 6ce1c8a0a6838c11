/** What the write-ahead record buys: over every chain of releases, resumes, clears, updates and
    rollbacks, each cut anywhere, no action runs unmarked, nothing recorded done runs again, and
    compose up and the vhost swap begin at most once per record. */
module ReleaseSafety {
  import opened Text
  import opened ReleaseState
  import opened ReleaseWorld

  // ----- what the history of a host says about its current record -----

  /** Actions begun since the current record began. */
  function BegunSince(log: seq<Event>): set<string> {
    if log == [] then {}
    else
      match log[|log| - 1]
      case Fresh => {}
      case Began(n, _, _) => BegunSince(log[..|log| - 1]) + {n}
      case _ => BegunSince(log[..|log| - 1])
  }

  /** Steps some write of the current record has called done. */
  function DoneSince(log: seq<Event>): set<string> {
    if log == [] then {}
    else
      match log[|log| - 1]
      case Fresh => {}
      case Wrote(r) => DoneSince(log[..|log| - 1]) + DoneNames(r)
      case _ => DoneSince(log[..|log| - 1])
  }

  /** Write-ahead: when an action began, the record on the host called it started. */
  ghost predicate MarkedFirst(log: seq<Event>) {
    forall k | 0 <= k < |log| && log[k].Began? ::
      log[k].seen.Some? && HasStatus(log[k].seen.value, log[k].name, Started)
  }

  ghost predicate NeverRerun(log: seq<Event>) {
    forall k | 0 <= k < |log| && log[k].Began? :: log[k].name !in DoneSince(log[..k])
  }

  ghost predicate OncePerRecord(log: seq<Event>) {
    forall k | 0 <= k < |log| && log[k].Began? && NonResumable(log[k].name) ::
      log[k].name !in BegunSince(log[..k])
  }

  ghost predicate History(log: seq<Event>) {
    MarkedFirst(log) && NeverRerun(log) && OncePerRecord(log)
  }

  lemma SinceAppend(log: seq<Event>, e: Event)
    ensures BegunSince(log + [e]) ==
            if e.Fresh? then {} else if e.Began? then BegunSince(log) + {e.name} else BegunSince(log)
    ensures DoneSince(log + [e]) ==
            if e.Fresh? then {} else if e.Wrote? then DoneSince(log) + DoneNames(e.rec) else DoneSince(log)
  {
    assert (log + [e])[..|log + [e]| - 1] == log;
  }

  lemma HistoryAppend(log: seq<Event>, e: Event)
    requires History(log)
    requires e.Began? ==>
               && e.seen.Some? && HasStatus(e.seen.value, e.name, Started)
               && e.name !in DoneSince(log)
               && (NonResumable(e.name) ==> e.name !in BegunSince(log))
    ensures History(log + [e])
  {
    var l := log + [e];
    forall k | 0 <= k < |l|
      ensures l[..k] == log[..k]
    {
    }
    assert log[..|log|] == log;
  }

  // ----- the invariant -----

  /** The record accounts for the history: what was written done is done in it, and a step that
      cannot be resumed is in it from before it began. */
  ghost predicate Accounts(r: Record, log: seq<Event>) {
    && (forall n | n in DoneSince(log) :: IsDone(r, n))
    && (forall n | n in BegunSince(log) && NonResumable(n) :: HasStep(r, n))
  }

  ghost predicate Inv(w: World) {
    History(w.log) && (w.record.Some? ==> Accounts(w.record.value, w.log))
  }

  predicate Runnable(items: seq<Item>, name: string) { Run(name) in items }

  predicate DistinctRuns(items: seq<Item>) {
    forall i, j | 0 <= i < j < |items| && items[i].Run? :: items[i] != items[j]
  }

  /** What holds of the client's copy before it runs `items`: a step it already lists is one a resume
      may skip or run again. */
  ghost predicate Ready(rec: Record, resume: bool, items: seq<Item>) {
    forall n | Runnable(items, n) && HasStep(rec, n) :: resume && (NonResumable(n) ==> IsDone(rec, n))
  }

  lemma WriteKeeps(w: World, r: Record, f: WriteFate)
    requires Inv(w) && Accounts(r, w.log)
    ensures Inv(WriteRecord(w, r, f)) && Accounts(r, WriteRecord(w, r, f).log)
  {
    SinceAppend(w.log, Wrote(r));
    HistoryAppend(w.log, Wrote(r));
    forall n ensures n in DoneNames(r) <==> IsDone(r, n) { DoneNamesIff(r, n); }
  }

  lemma MarkKeepsAccount(rec: Record, name: string, s: Status, log: seq<Event>)
    requires Accounts(rec, log) && (s == Done || name !in DoneSince(log))
    ensures Accounts(Marked(rec, name, s), log)
  {
    forall n ensures n in DoneSince(log) ==> IsDone(Marked(rec, name, s), n)
      ensures n in BegunSince(log) && NonResumable(n) ==> HasStep(Marked(rec, name, s), n)
    {
      MarkedChangesOne(rec, name, s, n);
    }
  }

  /** The end of a step: its outcome is marked, unless the client was cut. */
  function Ending(w: World, r: Record, name: string, f: Fate): StepOut {
    if f.action == Cut then StepOut(w, r, false)
    else
      var r3 := Marked(r, name, if f.action == Fails then Failed else Done);
      StepOut(WriteRecord(w, r3, f.after), r3, f.action == Succeeds && f.after == Acked)
  }

  function Acted(w1: World, r1: Record, name: string, f: Fate): StepOut {
    var (w2, r2) := NoteBackup(RunAction(w1, name, f), r1, f);
    Ending(w2, r2, name, f)
  }

  lemma StepIs(w: World, rec: Record, resume: bool, name: string, f: Fate)
    ensures var r1 := Marked(rec, name, Started);
            var w1 := WriteRecord(w, r1, f.before);
            StepSpec(w, rec, resume, name, f)
            == if resume && IsDone(rec, name) then StepOut(w, rec, true)
               else if f.before != Acked then StepOut(w1, r1, false)
               else Acted(w1, r1, name, f)
  {
  }

  /** The note keeps the steps, so it keeps what the record accounts for. */
  lemma NoteKeeps(w: World, r: Record, name: string, f: Fate)
    requires Inv(w) && Accounts(r, w.log) && name !in DoneSince(w.log) && !IsDone(r, name)
    ensures var (w', r') := NoteBackup(w, r, f);
            Inv(w') && Accounts(r', w'.log) && name !in DoneSince(w'.log)
  {
    if f.note.Some? {
      var r' := r.(backupFile := f.note.value);
      SameSteps(r, r', w.log);
      WriteKeeps(w, r', f.noted);
      SinceAppend(w.log, Wrote(r'));
      DoneNamesIff(r', name);
      assert IsDone(r', name) <==> IsDone(r, name);
    }
  }

  lemma EndingKeeps(w: World, r: Record, name: string, f: Fate)
    requires Inv(w) && Accounts(r, w.log) && name !in DoneSince(w.log)
    ensures var o := Ending(w, r, name, f); Inv(o.w) && Accounts(o.rec, o.w.log)
  {
    var s := if f.action == Fails then Failed else Done;
    MarkKeepsAccount(r, name, s, w.log);
    WriteKeeps(w, Marked(r, name, s), f.after);
  }

  lemma ActionKeeps(w1: World, r1: Record, name: string, f: Fate)
    requires Inv(w1) && w1.record == Some(r1) && HasStatus(r1, name, Started) && name !in DoneSince(w1.log)
    requires NonResumable(name) ==> name !in BegunSince(w1.log)
    ensures var o := Acted(w1, r1, name, f); Inv(o.w) && Accounts(o.rec, o.w.log)
  {
    var e := Began(name, w1.record, f.action);
    HistoryAppend(w1.log, e);
    SinceAppend(w1.log, e);
    var wa := RunAction(w1, name, f);
    NoteKeeps(wa, r1, name, f);
    var (w2, r2) := NoteBackup(wa, r1, f);
    EndingKeeps(w2, r2, name, f);
  }

  lemma AfreshKeeps(w: World, rec: Record, name: string, f: Fate)
    requires Inv(w) && Accounts(rec, w.log) && !IsDone(rec, name)
    requires NonResumable(name) ==> !HasStep(rec, name)
    ensures var o := StepSpec(w, rec, false, name, f); Inv(o.w) && Accounts(o.rec, o.w.log)
  {
    var r1 := Marked(rec, name, Started);
    var w1 := WriteRecord(w, r1, f.before);
    MarkKeepsAccount(rec, name, Started, w.log);
    MarkedChangesOne(rec, name, Started, name);
    WriteKeeps(w, r1, f.before);
    StepIs(w, rec, false, name, f);
    if f.before == Acked {
      SinceAppend(w.log, Wrote(r1));
      DoneNamesIff(r1, name);
      ActionKeeps(w1, r1, name, f);
    }
  }

  lemma StepKeeps(w: World, rec: Record, resume: bool, items: seq<Item>, f: Fate)
    requires Inv(w) && Accounts(rec, w.log)
    requires |items| > 0 && items[0].Run? && DistinctRuns(items) && Ready(rec, resume, items)
    ensures var o := StepSpec(w, rec, resume, items[0].name, f);
            Inv(o.w) && Accounts(o.rec, o.w.log) && Ready(o.rec, resume, items[1..])
  {
    var name := items[0].name;
    assert Runnable(items, name);
    var o := StepSpec(w, rec, resume, name, f);
    StepIs(w, rec, resume, name, f);
    StepIs(w, rec, false, name, f);
    if !(resume && IsDone(rec, name)) { AfreshKeeps(w, rec, name, f); }
    forall n | Runnable(items[1..], n) && HasStep(o.rec, n)
      ensures resume && (NonResumable(n) ==> IsDone(o.rec, n))
    {
      assert n != name && Runnable(items, n);
      OthersUntouched(w, rec, resume, name, f, n);
    }
  }

  lemma SameSteps(r: Record, r': Record, log: seq<Event>)
    requires r.steps == r'.steps && Accounts(r, log)
    ensures Accounts(r', log)
  {
    assert forall n :: IsDone(r, n) <==> IsDone(r', n);
    assert forall n :: HasStep(r, n) <==> HasStep(r', n);
  }

  lemma OthersUntouched(w: World, rec: Record, resume: bool, name: string, f: Fate, other: string)
    requires other != name
    ensures var o := StepSpec(w, rec, resume, name, f);
            (HasStep(o.rec, other) <==> HasStep(rec, other)) && (IsDone(o.rec, other) <==> IsDone(rec, other))
  {
    if !(resume && IsDone(rec, name)) {
      var r1 := Marked(rec, name, Started);
      MarkOther(rec, name, Started, other);
      if f.before == Acked {
        var r2 := NoteBackup(RunAction(WriteRecord(w, r1, f.before), name, f), r1, f).1;
        assert r2.steps == r1.steps;
        MarkOther(r2, name, if f.action == Fails then Failed else Done, other);
      }
    }
  }

  lemma MarkOther(r: Record, name: string, s: Status, other: string)
    requires other != name
    ensures HasStep(Marked(r, name, s), other) <==> HasStep(r, other)
    ensures IsDone(Marked(r, name, s), other) <==> IsDone(r, other)
  {
    MarkedChangesOne(r, name, s, other);
  }

  lemma SaveKeeps(w: World, running: seq<Image>, readable: bool, f: WriteFate, update: bool)
    requires Inv(w)
    ensures var w' := Save(w, running, readable, f, update);
            Inv(w') && w'.record == w.record && forall r :: Accounts(r, w.log) ==> Accounts(r, w'.log)
  {
    var e := Saved(Recorded(running), update);
    HistoryAppend(w.log, e);
    SinceAppend(w.log, e);
  }

  lemma {:induction false} ItemsKeep(w: World, rec: Record, resume: bool, items: seq<Item>, fates: seq<Fate>)
    requires Inv(w) && Accounts(rec, w.log)
    requires DistinctRuns(items) && Ready(rec, resume, items)
    ensures Inv(ItemsSpec(w, rec, resume, items, fates).w)
    decreases |items|
  {
    if items != [] && fates != [] {
      var o := ItemSpec(w, rec, resume, items[0], fates[0]);
      if items[0].Run? {
        StepKeeps(w, rec, resume, items, fates[0]);
      } else {
        SaveKeeps(w, w.running, fates[0].readable, fates[0].after, false);
        assert forall n | Runnable(items[1..], n) :: Runnable(items, n);
      }
      if o.ok { ItemsKeep(o.w, o.rec, resume, items[1..], fates[1..]); }
    }
  }

  lemma LogKeeps(w: World, e: Event)
    requires Inv(w) && !e.Fresh? && !e.Began? && !e.Wrote?
    ensures Inv(w.(log := w.log + [e]))
  {
    HistoryAppend(w.log, e);
    SinceAppend(w.log, e);
  }

  /** The plans the theorem is about: no step name twice. */
  predicate WellPlanned(op: Op) {
    (op.Release? || op.Resume?) ==> DistinctRuns(op.plan)
  }

  lemma AttemptKeeps(o: OpenOut, resume: bool, plan: seq<Item>, fates: seq<Fate>, fin: FinishFate)
    requires Inv(o.w) && DistinctRuns(plan)
    requires o.rec.Some? ==> Accounts(o.rec.value, o.w.log) && Ready(o.rec.value, resume, plan)
    ensures Inv(AttemptSpec(o, resume, plan, fates, fin))
  {
    if o.rec.Some? {
      ItemsKeep(o.w, o.rec.value, resume, plan, fates);
      FinishKeeps(ItemsSpec(o.w, o.rec.value, resume, plan, fates).w, fin);
    }
  }

  lemma BeginKeeps(w: World, commit: string, f: OpenFate, plan: seq<Item>)
    requires Inv(w)
    ensures var o := BeginSpec(w, commit, f);
            Inv(o.w) && (o.rec.Some? ==> Accounts(o.rec.value, o.w.log) && Ready(o.rec.value, false, plan))
  {
    HistoryAppend(w.log, Fresh);
    SinceAppend(w.log, Fresh);
  }

  lemma ReopenKeeps(w: World, commit: string, f: OpenFate, plan: seq<Item>)
    requires Inv(w)
    ensures var o := ResumeSpec(w, commit, f);
            Inv(o.w) && (o.rec.Some? ==> Accounts(o.rec.value, o.w.log) && Ready(o.rec.value, true, plan))
  {
    var o := ResumeSpec(w, commit, f);
    if o.rec.Some? { ReadyToResume(o.rec.value, plan); }
  }

  /** The host after the protecting part of a clear. */
  function ClearProtected(w: World, op: Op): World
    requires op.Clear?
  {
    if w.record.Some? && Unsafe(w.record.value) then SetProtected(w, true, op.readsTarget, op.protect).0 else w
  }

  lemma ClearIs(w: World, op: Op)
    requires op.Clear?
    ensures var w1, w' := ClearProtected(w, op), OpSpec(w, op);
            || w' == w || w' == w1 || w' == Remove(w1, op.remove)
            || w' == Remove(w1.(log := w1.log + [Cleared]), op.remove)
  {
  }

  lemma OpKeeps(w: World, op: Op)
    requires Inv(w) && WellPlanned(op)
    ensures Inv(OpSpec(w, op))
  {
    match op
    case Release(plan, commit, open, fates, fin) =>
      BeginKeeps(w, commit, open, plan);
      AttemptKeeps(BeginSpec(w, commit, open), false, plan, fates, fin);
    case Resume(plan, commit, open, fates, fin) =>
      ReopenKeeps(w, commit, open, plan);
      AttemptKeeps(ResumeSpec(w, commit, open), true, plan, fates, fin);
    case Clear(rr, rt, protect, remove) =>
      LogKeeps(w, Cleared);
      LogKeeps(SetProtected(w, true, rt, protect).0, Cleared);
      ClearIs(w, op);
    case Update(svcs, stops, rt, save, cut, left) =>
      SaveKeeps(w, Wanted(w.running, svcs), rt, save, true);
    case Rollback(rt, present, up, left, ra, unprotect) =>
      LogKeeps(w, Applied);
  }

  lemma ReadyToResume(r: Record, plan: seq<Item>)
    requires !Unsafe(r)
    ensures Ready(r, true, plan)
  {
  }

  lemma FinishKeeps(w: World, f: FinishFate)
    requires Inv(w)
    ensures Inv(FinishSpec(w, f))
  {
    LogKeeps(w, Finished);
  }

  lemma {:induction false} RunKeeps(w: World, ops: seq<Op>)
    requires Inv(w) && forall op | op in ops :: WellPlanned(op)
    ensures Inv(RunOps(w, ops))
    decreases |ops|
  {
    if ops != [] {
      OpKeeps(w, ops[0]);
      RunKeeps(OpSpec(w, ops[0]), ops[1..]);
    }
  }

  /** The main theorem, over every chain of commands and every cut. The plans may differ from one
      attempt to the next. */
  lemma ReleasesAreWriteAhead(w: World, ops: seq<Op>)
    requires Untouched(w) && forall op | op in ops :: WellPlanned(op)
    ensures var log := RunOps(w, ops).log;
            MarkedFirst(log) && NeverRerun(log) && OncePerRecord(log)
  {
    RunKeeps(w, ops);
  }
}
