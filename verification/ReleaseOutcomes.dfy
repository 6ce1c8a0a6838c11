/** What the record says of a step against how its last action went, over every chain of commands; and what
    follows for the attempt after a failed one. */
module ReleaseOutcomes {
  import opened Text
  import opened ReleaseState
  import opened ReleaseWorld
  import opened ReleaseSafety
  import opened ReleaseNames
  import opened ReleasePlan

  // ----- how the last action of a step went -----

  /** The outcome of the last action of that name since the current record began. */
  function LastOutcome(log: seq<Event>, name: string): Option<Outcome> {
    if log == [] then None
    else
      match log[|log| - 1]
      case Fresh => None
      case Began(n, _, how) => if n == name then Some(how) else LastOutcome(log[..|log| - 1], name)
      case _ => LastOutcome(log[..|log| - 1], name)
  }

  lemma OutcomeAppend(log: seq<Event>, e: Event, name: string)
    ensures LastOutcome(log + [e], name) ==
            if e.Fresh? then None else if e.Began? && e.name == name then Some(e.how) else LastOutcome(log, name)
  {
    assert (log + [e])[..|log|] == log;
  }

  /** Steps some action of which, since the current record began, succeeded. */
  function SucceededSince(log: seq<Event>): set<string> {
    if log == [] then {}
    else
      match log[|log| - 1]
      case Fresh => {}
      case Began(n, _, Succeeds) => SucceededSince(log[..|log| - 1]) + {n}
      case _ => SucceededSince(log[..|log| - 1])
  }

  lemma SucceededAppend(log: seq<Event>, e: Event)
    ensures SucceededSince(log + [e]) ==
            if e.Fresh? then {}
            else if e.Began? && e.how == Succeeds then SucceededSince(log) + {e.name}
            else SucceededSince(log)
  {
    assert (log + [e])[..|log|] == log;
  }

  lemma {:induction false} LastSucceeded(log: seq<Event>, name: string)
    ensures LastOutcome(log, name) == Some(Succeeds) ==> name in SucceededSince(log)
  {
    if log != [] && !log[|log| - 1].Fresh? { LastSucceeded(log[..|log| - 1], name); }
  }

  // ----- the record tells it -----

  /** What the record says of one step is how its last action went; one that is only started says nothing. */
  predicate Tells(r: Record, log: seq<Event>, name: string) {
    var last := LastOutcome(log, name);
    && (last.Some? ==> HasStep(r, name))
    && (HasStatus(r, name, Done) ==> last == Some(Succeeds))
    && (HasStatus(r, name, Failed) ==> last == Some(Fails))
  }

  ghost predicate Truthful(r: Record, log: seq<Event>) { forall n :: Tells(r, log, n) }

  /** No write ever called a step done that had not succeeded. */
  predicate DoneSucceeded(log: seq<Event>) { DoneSince(log) <= SucceededSince(log) }

  ghost predicate Honest(w: World) { DoneSucceeded(w.log) && (w.record.Some? ==> Truthful(w.record.value, w.log)) }

  ghost predicate Standing(w: World, rec: Record) { Honest(w) && Truthful(rec, w.log) }

  lemma WriteHonest(w: World, r: Record, f: WriteFate)
    requires Standing(w, r)
    ensures Standing(WriteRecord(w, r, f), r)
  {
    var e := Wrote(r);
    SinceAppend(w.log, e);
    SucceededAppend(w.log, e);
    forall n ensures n in DoneNames(r) ==> n in SucceededSince(w.log) {
      DoneNamesIff(r, n);
      assert Tells(r, w.log, n);
      LastSucceeded(w.log, n);
    }
    forall n ensures Tells(r, w.log + [e], n) {
      OutcomeAppend(w.log, e, n);
      assert Tells(r, w.log, n);
    }
  }

  /** A step may be marked as started at any time, and as done or failed when that is how it went. */
  lemma MarkTruthful(r: Record, name: string, s: Status, log: seq<Event>)
    requires Truthful(r, log)
    requires s == Done ==> LastOutcome(log, name) == Some(Succeeds)
    requires s == Failed ==> LastOutcome(log, name) == Some(Fails)
    ensures Truthful(Marked(r, name, s), log)
  {
    forall n ensures Tells(Marked(r, name, s), log, n) {
      MarkedChangesOne(r, name, s, n);
      assert Tells(r, log, n);
    }
  }

  /** An action may run for a step the record calls started. */
  lemma BeganHonest(w: World, r: Record, name: string, f: Fate)
    requires Standing(w, r) && w.record == Some(r) && HasStatus(r, name, Started)
    ensures Standing(RunAction(w, name, f), r) && LastOutcome(RunAction(w, name, f).log, name) == Some(f.action)
  {
    var e := Began(name, w.record, f.action);
    SinceAppend(w.log, e);
    SucceededAppend(w.log, e);
    OutcomeAppend(w.log, e, name);
    forall n ensures Tells(r, w.log + [e], n) {
      OutcomeAppend(w.log, e, n);
      assert Tells(r, w.log, n);
    }
  }

  lemma NoteHonest(w: World, r: Record, f: Fate, name: string)
    requires Standing(w, r)
    ensures var (w', r') := NoteBackup(w, r, f);
            Standing(w', r') && LastOutcome(w'.log, name) == LastOutcome(w.log, name)
  {
    if f.note.Some? {
      var r' := r.(backupFile := f.note.value);
      forall n ensures Tells(r', w.log, n) { assert Tells(r, w.log, n); }
      WriteHonest(w, r', f.noted);
      OutcomeAppend(w.log, Wrote(r'), name);
    }
  }

  lemma EndingHonest(w: World, r: Record, name: string, f: Fate)
    requires Standing(w, r) && LastOutcome(w.log, name) == Some(f.action)
    ensures var o := Ending(w, r, name, f); Standing(o.w, o.rec)
  {
    if f.action != Cut {
      var s := if f.action == Fails then Failed else Done;
      MarkTruthful(r, name, s, w.log);
      WriteHonest(w, Marked(r, name, s), f.after);
    }
  }

  lemma StepHonest(w: World, rec: Record, resume: bool, name: string, f: Fate)
    requires Standing(w, rec)
    ensures var o := StepSpec(w, rec, resume, name, f); Standing(o.w, o.rec)
  {
    StepIs(w, rec, resume, name, f);
    var r1 := Marked(rec, name, Started);
    var w1 := WriteRecord(w, r1, f.before);
    MarkTruthful(rec, name, Started, w.log);
    WriteHonest(w, r1, f.before);
    if f.before == Acked {
      MarkedChangesOne(rec, name, Started, name);
      BeganHonest(w1, r1, name, f);
      NoteHonest(RunAction(w1, name, f), r1, f, name);
      var (w2, r2) := NoteBackup(RunAction(w1, name, f), r1, f);
      EndingHonest(w2, r2, name, f);
    }
  }

  /** An event that is no action, no write and no beginning of a record. */
  lemma OtherHonest(w: World, e: Event)
    requires Honest(w) && !e.Fresh? && !e.Began? && !e.Wrote?
    ensures Honest(w.(log := w.log + [e]))
    ensures forall r | Truthful(r, w.log) :: Truthful(r, w.log + [e])
  {
    SinceAppend(w.log, e);
    SucceededAppend(w.log, e);
    forall n ensures LastOutcome(w.log + [e], n) == LastOutcome(w.log, n) { OutcomeAppend(w.log, e, n); }
    forall r | Truthful(r, w.log) ensures Truthful(r, w.log + [e]) {
      forall n ensures Tells(r, w.log + [e], n) { assert Tells(r, w.log, n); }
    }
  }

  lemma {:induction false} ItemsHonest(w: World, rec: Record, resume: bool, items: seq<Item>, fates: seq<Fate>)
    requires Standing(w, rec)
    ensures Honest(ItemsSpec(w, rec, resume, items, fates).w)
    decreases |items|
  {
    if items != [] && fates != [] {
      var o := ItemSpec(w, rec, resume, items[0], fates[0]);
      if items[0].Run? {
        StepHonest(w, rec, resume, items[0].name, fates[0]);
      } else {
        OtherHonest(w, Saved(Recorded(w.running), false));
      }
      if o.ok { ItemsHonest(o.w, o.rec, resume, items[1..], fates[1..]); }
    }
  }

  lemma AttemptHonest(o: OpenOut, resume: bool, plan: seq<Item>, fates: seq<Fate>, fin: FinishFate)
    requires Honest(o.w) && (o.rec.Some? ==> Truthful(o.rec.value, o.w.log))
    ensures Honest(AttemptSpec(o, resume, plan, fates, fin))
  {
    if o.rec.Some? {
      ItemsHonest(o.w, o.rec.value, resume, plan, fates);
      OtherHonest(ItemsSpec(o.w, o.rec.value, resume, plan, fates).w, Finished);
    }
  }

  lemma BeginHonest(w: World, commit: string, f: OpenFate)
    requires Honest(w)
    ensures var o := BeginSpec(w, commit, f); Honest(o.w) && (o.rec.Some? ==> Truthful(o.rec.value, o.w.log))
  {
    var e := ReleaseWorld.Fresh;
    SinceAppend(w.log, e);
    SucceededAppend(w.log, e);
    forall n ensures Tells(FreshRecord(commit), w.log + [e], n) { OutcomeAppend(w.log, e, n); }
  }

  lemma ClearHonest(w: World, op: Op)
    requires Honest(w) && op.Clear?
    ensures Honest(OpSpec(w, op))
  {
    OtherHonest(w, Cleared);
    OtherHonest(ClearProtected(w, op), Cleared);
    ClearIs(w, op);
  }

  lemma UpdateHonest(w: World, op: Op)
    requires Honest(w) && op.Update?
    ensures Honest(OpSpec(w, op))
  {
    OtherHonest(w, Saved(Recorded(Wanted(w.running, op.svcs)), true));
  }

  lemma RollbackHonest(w: World, op: Op)
    requires Honest(w) && op.Rollback?
    ensures Honest(OpSpec(w, op))
  {
    OtherHonest(w, Applied);
  }

  lemma OpHonest(w: World, op: Op)
    requires Honest(w)
    ensures Honest(OpSpec(w, op))
  {
    match op
    case Release(plan, commit, open, fates, fin) =>
      BeginHonest(w, commit, open);
      AttemptHonest(BeginSpec(w, commit, open), false, plan, fates, fin);
    case Resume(plan, commit, open, fates, fin) =>
      AttemptHonest(ResumeSpec(w, commit, open), true, plan, fates, fin);
    case Clear(rr, rt, protect, remove) =>
      ClearHonest(w, op);
    case Update(svcs, stops, rt, save, cut, left) =>
      UpdateHonest(w, op);
    case Rollback(rt, present, up, left, ra, unprotect) =>
      RollbackHonest(w, op);
  }

  lemma {:induction false} RunHonest(w: World, ops: seq<Op>)
    requires Honest(w)
    ensures Honest(RunOps(w, ops))
    decreases |ops|
  {
    if ops != [] {
      OpHonest(w, ops[0]);
      RunHonest(OpSpec(w, ops[0]), ops[1..]);
    }
  }

  /** Over every chain of commands from an untouched host, with any plans and cut anywhere: a step is
      recorded done only if its action succeeded under that record, and what the record on the host says
      of a step is how its last action went. */
  lemma DoneMeansSucceeded(w: World, ops: seq<Op>)
    requires Untouched(w)
    ensures DoneSucceeded(RunOps(w, ops).log)
    ensures var w' := RunOps(w, ops); w'.record.Some? ==> Truthful(w'.record.value, w'.log)
  {
    RunHonest(w, ops);
  }

  // ----- what one step leaves -----

  predicate Skipped(rec: Record, resume: bool, name: string) { resume && IsDone(rec, name) }

  /** A step that is not skipped, by what its writes and its action met: the action runs only once the host
      has acknowledged the mark; the release goes on only if it succeeded and that was acknowledged too; and
      the record on the host calls the step failed, done, or still started. */
  lemma StepLeaves(w: World, rec: Record, resume: bool, name: string, f: Fate)
    requires !Skipped(rec, resume, name)
    ensures var o := StepSpec(w, rec, resume, name, f);
            && w.log <= o.w.log
            && Begun(o.w.log[|w.log|..]) == (if f.before == Acked then [name] else [])
            && (o.ok <==> f.before == Acked && f.action == Succeeds && f.after == Acked)
            && (f.before == Lost ==> o.w == w)
            && (f.before != Lost ==> o.w.record.Some? && HasStatus(o.w.record.value, name,
                  if f.before == Landed || f.action == Cut || f.after == Lost then Started
                  else if f.action == Fails then Failed else Done))
    ensures f.before == Acked ==> StepSpec(w, rec, resume, name, f).w.running == f.left
  {
    StepIs(w, rec, resume, name, f);
    var r1 := Marked(rec, name, Started);
    var w1 := WriteRecord(w, r1, f.before);
    MarkedChangesOne(rec, name, Started, name);
    WroteOnly(w, r1, f.before);
    if f.before == Acked { ActedLeaves(w, w1, r1, name, f); }
  }

  lemma WroteOnly(w: World, r: Record, f: WriteFate)
    ensures var w' := WriteRecord(w, r, f); w.log <= w'.log && Begun(w'.log[|w.log|..]) == []
  {
    var w' := WriteRecord(w, r, f);
    if Took(f) { assert w'.log[|w.log|..] == [Wrote(r)] && [Wrote(r)][1..] == []; } else { assert w.log[|w.log|..] == []; }
  }

  lemma Extends(a: seq<Event>, b: seq<Event>, c: seq<Event>)
    requires a <= b <= c
    ensures a <= c && Begun(c[|a|..]) == Begun(b[|a|..]) + Begun(c[|b|..])
  {
    assert c[|a|..] == b[|a|..] + c[|b|..];
    BegunConcat(b[|a|..], c[|b|..]);
  }

  lemma NoteWrites(w: World, r: Record, f: Fate, name: string)
    requires w.record == Some(r) && HasStatus(r, name, Started)
    ensures var (w', r') := NoteBackup(w, r, f);
            && w.log <= w'.log && Begun(w'.log[|w.log|..]) == [] && w'.running == w.running
            && w'.record.Some? && HasStatus(w'.record.value, name, Started) && r'.steps == r.steps
  {
    if f.note.Some? { WroteOnly(w, r.(backupFile := f.note.value), f.noted); } else { assert w.log[|w.log|..] == []; }
  }

  lemma EndingWrites(w: World, r: Record, name: string, f: Fate)
    requires w.record.Some? && HasStatus(w.record.value, name, Started)
    ensures var o := Ending(w, r, name, f);
            && w.log <= o.w.log && Begun(o.w.log[|w.log|..]) == [] && o.w.running == w.running
            && o.w.record.Some? && HasStatus(o.w.record.value, name,
                 if f.action == Cut || f.after == Lost then Started else if f.action == Fails then Failed else Done)
            && (o.ok <==> f.action == Succeeds && f.after == Acked)
  {
    if f.action == Cut {
      assert w.log[|w.log|..] == [];
    } else {
      var s := if f.action == Fails then Failed else Done;
      MarkedChangesOne(r, name, s, name);
      WroteOnly(w, Marked(r, name, s), f.after);
    }
  }

  lemma ActedLeaves(w: World, w1: World, r1: Record, name: string, f: Fate)
    requires w.log <= w1.log && Begun(w1.log[|w.log|..]) == [] && w1.record == Some(r1) && HasStatus(r1, name, Started)
    ensures var o := Acted(w1, r1, name, f);
            && w.log <= o.w.log && Begun(o.w.log[|w.log|..]) == [name] && o.w.running == f.left
            && o.w.record.Some? && HasStatus(o.w.record.value, name,
                 if f.action == Cut || f.after == Lost then Started else if f.action == Fails then Failed else Done)
            && (o.ok <==> f.action == Succeeds && f.after == Acked)
  {
    var wa := RunAction(w1, name, f);
    var (w2, r2) := NoteBackup(wa, r1, f);
    var o := Ending(w2, r2, name, f);
    var e := Began(name, w1.record, f.action);
    assert wa.log[|w1.log|..] == [e] && [e][1..] == [];
    NoteWrites(wa, r1, f, name);
    EndingWrites(w2, r2, name, f);
    Extends(w.log, w1.log, wa.log);
    Extends(w.log, wa.log, w2.log);
    Extends(w.log, w2.log, o.w.log);
  }

  // ----- the attempt after a failed one -----

  /** A command leaves everything but the lock of the record as it was. */
  predicate ChangesNothing(w: World, w': World) {
    w'.record == w.record && w'.target == w.target && w'.running == w.running && w'.log == w.log
  }

  /** Once compose up or the vhost swap has begun and not succeeded, the record is unsafe: no resume and no
      fresh release changes anything, whatever the host answers. */
  lemma FailedIsRefused(w0: World, ops: seq<Op>, name: string, next: Op)
    requires Untouched(w0) && NonResumable(name) && (next.Resume? || next.Release?)
    requires var w := RunOps(w0, ops);
             w.record.Some? && LastOutcome(w.log, name) in {Some(Fails), Some(Cut)}
    ensures var w := RunOps(w0, ops);
            Unsafe(w.record.value) && ChangesNothing(w, OpSpec(w, next))
  {
    var w := RunOps(w0, ops);
    RunHonest(w0, ops);
    assert Tells(w.record.value, w.log, name);
    var i := Find(w.record.value.steps, name);
    assert w.record.value.steps[i].status != Done;
  }

  /** Any other step whose last action did not succeed runs again when a resume goes well, and a step whose
      recorded action did succeed does not. */
  lemma ResumeRunsWhatFailed(w0: World, ops: seq<Op>, plan: seq<Item>, commit: string, name: string)
    requires Untouched(w0) && DistinctRuns(plan) && (forall op | op in ops :: OnPlan(op, plan)) && Run(name) in plan
    requires var w := RunOps(w0, ops);
             && !w.lock && w.record.Some? && !Unsafe(w.record.value)
             && (commit == "" || w.record.value.commit == "" || commit == w.record.value.commit)
    ensures var w := RunOps(w0, ops);
            var w' := OpSpec(w, Resume(plan, commit, OPEN_WELL, AllGood(|plan|), END_WELL));
            && w.log <= w'.log
            && (LastOutcome(w.log, name) != Some(Succeeds) ==> name in Begun(w'.log[|w.log|..]))
            && (IsDone(w.record.value, name) ==> name !in Begun(w'.log[|w.log|..]))
  {
    var w, names := RunOps(w0, ops), RunNames(plan);
    var r := w.record.value;
    CleanResumeRunsTheRest(w0, ops, plan, commit);
    RunHonest(w0, ops);
    assert Tells(r, w.log, name);
    RunAlong(w0, ops, plan);
    RunNamesMember(plan, name);
    RunNamesDistinct(plan);
    DoneBefore(r, names, name);
  }

  lemma DoneBefore(r: Record, names: seq<string>, name: string)
    requires Distinct(names) && Along(r, names) && name in names
    ensures name in names[DoneCount(r)..] <==> !IsDone(r, name)
  {
    var k :| 0 <= k < |names| && names[k] == name;
    var i := Find(r.steps, name);
    if i < |r.steps| { assert names[i] == name && i == k; }
    if k < |r.steps| { assert r.steps[k].name == name && i == k; }
    if k >= DoneCount(r) { assert names[DoneCount(r)..][k - DoneCount(r)] == name; }
    if name in names[DoneCount(r)..] {
      var j :| 0 <= j < |names[DoneCount(r)..]| && names[DoneCount(r)..][j] == name;
      assert names[DoneCount(r) + j] == name;
    }
  }
}
