/** What protects the rollback record when a half-applied release is cleared, over every chain of
    commands; and the two orders in which the protection does not do what its messages say. */
module RollbackSafety {
  import opened Text
  import opened ReleaseState
  import opened ReleaseWorld

  /** A release reached its end, or a rollback was applied. */
  predicate Lifts(e: Event) { e.Finished? || e.Applied? }

  ghost predicate NoLift(log: seq<Event>, from: nat) {
    forall k | from <= k < |log| :: !Lifts(log[k])
  }

  /** The rollback record holds imgs, and either is protected or a half-applied release is still on
      the host, which a clear will protect it for. */
  ghost predicate Guarded(w: World, imgs: seq<Image>) {
    && w.target.Some? && w.target.value.images == imgs
    && (w.target.value.protected || (w.record.Some? && Unsafe(w.record.value)))
  }

  /** An update saves over an unprotected record even while a half-applied release is on the host. */
  predicate Overwrites(w: World, op: Op) {
    op.Update? && !op.stops && op.readsTarget && Took(op.save)
    && w.target.Some? && !w.target.value.protected
  }

  predicate Protected(w: World, imgs: seq<Image>) {
    w.target.Some? && w.target.value == Target(imgs, true)
  }

  lemma LogGrows(w: World, rec: Record, resume: bool, name: string, f: Fate)
    ensures var o := StepSpec(w, rec, resume, name, f);
            w.log <= o.w.log && o.w.target == w.target
  {
    if !(resume && IsDone(rec, name)) && f.before == Acked {
      var r1 := Marked(rec, name, Started);
      var w1 := RunAction(WriteRecord(w, r1, f.before), name, f);
      assert w.log <= w1.log && w1.target == w.target;
      var (w2, r2) := NoteBackup(w1, r1, f);
      assert w1.log <= w2.log && w2.target == w.target;
    }
  }

  /** No step of a release touches a protected rollback record. */
  lemma {:induction false} ItemsKeepProtected(w: World, rec: Record, resume: bool, items: seq<Item>, fates: seq<Fate>)
    requires w.target.Some? && w.target.value.protected
    ensures var o := ItemsSpec(w, rec, resume, items, fates);
            o.w.target == w.target && w.log <= o.w.log
    decreases |items|
  {
    if items != [] && fates != [] {
      var o := ItemSpec(w, rec, resume, items[0], fates[0]);
      if items[0].Run? { LogGrows(w, rec, resume, items[0].name, fates[0]); }
      if o.ok { ItemsKeepProtected(o.w, o.rec, resume, items[1..], fates[1..]); }
    }
  }

  lemma FinishLogs(w: World, f: FinishFate)
    ensures |w.log| < |FinishSpec(w, f).log| && Lifts(FinishSpec(w, f).log[|w.log|])
  {
  }

  lemma RollbackLogs(w: World, op: Op)
    requires op.Rollback? && op.readsTarget && op.present && op.up == Succeeds
    requires w.target.Some? && w.target.value.images != []
    ensures |w.log| < |OpSpec(w, op).log| && Lifts(OpSpec(w, op).log[|w.log|])
  {
  }

  lemma AttemptKeeps(w: World, o: OpenOut, resume: bool, plan: seq<Item>, fates: seq<Fate>, fin: FinishFate)
    requires w.log <= o.w.log && w.target == o.w.target && (o.rec.None? && w.record.Some? ==> o.w.record == w.record)
    requires w.target.Some? && (w.target.value.protected || o.rec.None?)
    requires NoLift(AttemptSpec(o, resume, plan, fates, fin).log, |w.log|)
    ensures var w' := AttemptSpec(o, resume, plan, fates, fin);
            w.log <= w'.log && w'.target == w.target && (o.rec.None? && w.record.Some? ==> w'.record == w.record)
  {
    if o.rec.Some? {
      ItemsKeepProtected(o.w, o.rec.value, resume, plan, fates);
      var s := ItemsSpec(o.w, o.rec.value, resume, plan, fates);
      if s.ok {
        FinishLogs(s.w, fin);
        assert false;
      }
    }
  }

  lemma OpKeepsGuard(w: World, op: Op, imgs: seq<Image>)
    requires Guarded(w, imgs) && !Overwrites(w, op)
    requires NoLift(OpSpec(w, op).log, |w.log|)
    ensures Guarded(OpSpec(w, op), imgs) && w.log <= OpSpec(w, op).log
  {
    match op
    case Release(plan, commit, open, fates, fin) =>
      var o := BeginSpec(w, commit, open);
      AttemptKeeps(w, o, false, plan, fates, fin);
    case Resume(plan, commit, open, fates, fin) =>
      var o := ResumeSpec(w, commit, open);
      AttemptKeeps(w, o, true, plan, fates, fin);
    case Clear(rr, rt, protect, remove) =>
    case Update(svcs, stops, rt, save, cut, left) =>
    case Rollback(rt, present, up, left, ra, unprotect) =>
      if rt && w.target.value.images != [] && present && up == Succeeds {
        RollbackLogs(w, op);
        assert false;
      }
  }

  ghost predicate NeverOverwrites(w: World, ops: seq<Op>)
    decreases |ops|
  {
    ops != [] ==> !Overwrites(w, ops[0]) && NeverOverwrites(OpSpec(w, ops[0]), ops[1..])
  }

  lemma OpLogGrows(w: World, op: Op)
    ensures w.log <= OpSpec(w, op).log
  {
    if op.Release? {
      var o := BeginSpec(w, op.commit, op.open);
      if o.rec.Some? { ItemsLogGrows(o.w, o.rec.value, false, op.plan, op.fates); }
    } else if op.Resume? {
      var o := ResumeSpec(w, op.commit, op.open);
      if o.rec.Some? { ItemsLogGrows(o.w, o.rec.value, true, op.plan, op.fates); }
    }
  }

  lemma {:induction false} ItemsLogGrows(w: World, rec: Record, resume: bool, items: seq<Item>, fates: seq<Fate>)
    ensures w.log <= ItemsSpec(w, rec, resume, items, fates).w.log
    decreases |items|
  {
    if items != [] && fates != [] {
      var o := ItemSpec(w, rec, resume, items[0], fates[0]);
      if items[0].Run? { LogGrows(w, rec, resume, items[0].name, fates[0]); }
      if o.ok { ItemsLogGrows(o.w, o.rec, resume, items[1..], fates[1..]); }
    }
  }

  lemma {:induction false} RunLogGrows(w: World, ops: seq<Op>)
    ensures w.log <= RunOps(w, ops).log
    decreases |ops|
  {
    if ops != [] {
      OpLogGrows(w, ops[0]);
      RunLogGrows(OpSpec(w, ops[0]), ops[1..]);
    }
  }

  /** What an update saves when it overwrites. */
  function Captured(w: World, op: Op): seq<Image>
    requires op.Update?
  {
    Recorded(Wanted(w.running, op.svcs))
  }

  /** What the last overwriting update among the commands saved. */
  function LastCaptured(w: World, ops: seq<Op>): Option<seq<Image>>
    decreases |ops|
  {
    if ops == [] then None
    else
      var later := LastCaptured(OpSpec(w, ops[0]), ops[1..]);
      if later.Some? then later
      else if Overwrites(w, ops[0]) then Some(Captured(w, ops[0]))
      else None
  }

  lemma {:induction false} NoneCapturedIff(w: World, ops: seq<Op>)
    ensures LastCaptured(w, ops).None? <==> NeverOverwrites(w, ops)
    decreases |ops|
  {
    if ops != [] { NoneCapturedIff(OpSpec(w, ops[0]), ops[1..]); }
  }

  lemma OverwriteKeepsGuard(w: World, op: Op, imgs: seq<Image>)
    requires Guarded(w, imgs) && Overwrites(w, op)
    ensures Guarded(OpSpec(w, op), Captured(w, op))
  {
  }

  lemma NoLiftSplit(w: World, ops: seq<Op>)
    requires ops != [] && NoLift(RunOps(w, ops).log, |w.log|)
    ensures NoLift(OpSpec(w, ops[0]).log, |w.log|)
    ensures NoLift(RunOps(OpSpec(w, ops[0]), ops[1..]).log, |OpSpec(w, ops[0]).log|)
  {
    var w1 := OpSpec(w, ops[0]);
    OpLogGrows(w, ops[0]);
    RunLogGrows(w1, ops[1..]);
    var end := RunOps(w1, ops[1..]).log;
    assert forall k | |w.log| <= k < |w1.log| :: w1.log[k] == end[k];
  }

  /** From a half-applied release on, through its clear and whatever comes after, until a release finishes
      or a rollback is applied: the record holds the images it held, or those the last overwriting
      update read. */
  lemma {:induction false} GuardedExactly(w: World, ops: seq<Op>, imgs: seq<Image>)
    requires Guarded(w, imgs) && NoLift(RunOps(w, ops).log, |w.log|)
    ensures var last := LastCaptured(w, ops);
            Guarded(RunOps(w, ops), if last.Some? then last.value else imgs)
    decreases |ops|
  {
    if ops != [] {
      NoLiftSplit(w, ops);
      if Overwrites(w, ops[0]) {
        OverwriteKeepsGuard(w, ops[0], imgs);
        GuardedExactly(OpSpec(w, ops[0]), ops[1..], Captured(w, ops[0]));
      } else {
        OpKeepsGuard(w, ops[0], imgs);
        GuardedExactly(OpSpec(w, ops[0]), ops[1..], imgs);
      }
    }
  }

  /** So it still holds them exactly when no update saved over them, or the last one that did read the very
      same images. */
  lemma StillHeldIff(w: World, ops: seq<Op>, imgs: seq<Image>)
    requires Guarded(w, imgs) && NoLift(RunOps(w, ops).log, |w.log|)
    ensures var w' := RunOps(w, ops);
            w'.target.Some? && (w'.target.value.images == imgs <==> LastCaptured(w, ops) in {None, Some(imgs)})
  {
    GuardedExactly(w, ops, imgs);
  }

  /** In particular as long as no update saves over them before the clear. */
  lemma GuardedUntilLifted(w: World, ops: seq<Op>, imgs: seq<Image>)
    requires Guarded(w, imgs) && NeverOverwrites(w, ops)
    requires NoLift(RunOps(w, ops).log, |w.log|)
    ensures Guarded(RunOps(w, ops), imgs)
  {
    NoneCapturedIff(w, ops);
    GuardedExactly(w, ops, imgs);
  }

  /** Clearing a half-applied release drops its record only with the rollback record protected, or
      with none there to protect. */
  lemma ClearProtects(w: World, op: Op)
    requires op.Clear? && w.record.Some? && Unsafe(w.record.value)
    ensures var w' := OpSpec(w, op);
            w'.record.None? ==>
              if w.target.None? then w'.target.None? else Protected(w', w.target.value.images)
  {
  }

  lemma {:induction false} ProtectedNeverOverwrites(w: World, ops: seq<Op>, imgs: seq<Image>)
    requires Protected(w, imgs) && NoLift(RunOps(w, ops).log, |w.log|)
    ensures NeverOverwrites(w, ops) && Protected(RunOps(w, ops), imgs)
    decreases |ops|
  {
    if ops != [] {
      NoLiftSplit(w, ops);
      OpKeepsProtected(w, ops[0], imgs);
      ProtectedNeverOverwrites(OpSpec(w, ops[0]), ops[1..], imgs);
    }
  }

  lemma OpKeepsProtected(w: World, op: Op, imgs: seq<Image>)
    requires Protected(w, imgs) && NoLift(OpSpec(w, op).log, |w.log|)
    ensures Protected(OpSpec(w, op), imgs)
  {
    if op.Release? {
      AttemptKeeps(w, BeginSpec(w, op.commit, op.open), false, op.plan, op.fates, op.fin);
    } else if op.Resume? {
      AttemptKeeps(w, ResumeSpec(w, op.commit, op.open), true, op.plan, op.fates, op.fin);
    } else if op.Rollback? {
      if op.readsTarget && imgs != [] && op.present && op.up == Succeeds {
        RollbackLogs(w, op);
        assert false;
      }
    }
  }

  /** After the clear nothing replaces the record, updates included, until a release finishes or a
      rollback is applied. */
  lemma ClearedStaysProtected(w: World, clear: Op, ops: seq<Op>)
    requires clear.Clear? && w.record.Some? && Unsafe(w.record.value) && w.target.Some?
    requires OpSpec(w, clear).record.None?
    requires NoLift(RunOps(OpSpec(w, clear), ops).log, |OpSpec(w, clear).log|)
    ensures Protected(RunOps(OpSpec(w, clear), ops), w.target.value.images)
  {
    ClearProtects(w, clear);
    ProtectedNeverOverwrites(OpSpec(w, clear), ops, w.target.value.images);
  }

  lemma RunTwo(w: World, a: Op, b: Op)
    ensures RunOps(w, [a, b]) == OpSpec(OpSpec(w, a), b)
  {
    assert [a, b][1..] == [b] && [b][1..] == [];
    assert RunOps(OpSpec(w, a), [b]) == RunOps(OpSpec(OpSpec(w, a), b), []);
  }

  lemma UpdateSaves(w: World, update: Op)
    requires w.target.Some? && update.Update?
    ensures var w1 := OpSpec(w, update);
            && w1.record == w.record && w1.target.Some?
            && w1.target.value.images == if Overwrites(w, update) then Captured(w, update) else w.target.value.images
  {
  }

  lemma ClearTakesIt(w: World, clear: Op)
    requires w.target.Some? && w.record.Some? && Unsafe(w.record.value) && clear == Clear(true, true, Acked, Acked)
    ensures Protected(OpSpec(w, clear), w.target.value.images)
  {
  }

  /** Before the clear one command does replace it: an update, run while the half-applied release is
      still on the host, saves what that release left running, and the clear then protects that. */
  lemma UpdateBeforeClearCaptures(w: World, update: Op, clear: Op)
    requires w.target.Some? && w.record.Some? && Unsafe(w.record.value)
    requires clear == Clear(true, true, Acked, Acked) && update.Update?
    ensures var imgs := w.target.value.images;
            Protected(RunOps(w, [update, clear]), if Overwrites(w, update) then Captured(w, update) else imgs)
  {
    RunTwo(w, update, clear);
    UpdateSaves(w, update);
    ClearTakesIt(OpSpec(w, update), clear);
  }

  /** It takes four ordinary commands on a host that ran `good`: the deploy is cut off and leaves `broken`
      running, an update saves that, and after the clear the record to roll back to holds `broken`. */
  lemma BrokenImagesCaptured(good: Image, broken: Image)
    requires good.id != "" && good.ref != "" && broken.id != "" && broken.ref != ""
    ensures var w := World(None, false, None, [good], []);
            var plan := [Run("check-names"), SaveImages, Run("deploy")];
            var open := OpenFate(Acked, true, Acked, Acked, false);
            var fates := [Fate(Acked, Succeeds, [good], None, Acked, Acked, true),
                          Fate(Acked, Succeeds, [good], None, Acked, Acked, true),
                          Fate(Acked, Cut, [broken], None, Acked, Acked, true)];
            var release := Release(plan, "", open, fates, FinishFate(Acked, false, true, Acked));
            var half := OpSpec(w, release);
            var ops := [Update({}, false, true, Acked, false, [broken]), Clear(true, true, Acked, Acked)];
            && plan == Plan(Manifest(true, false, false, [], false, true, [], 0, false, 0, false))
            && half.target == Some(Target([good], false)) && half.running == [broken]
            && half.record.Some? && Unsafe(half.record.value)
            && Protected(RunOps(half, ops), [broken])
  {
    var w := World(None, false, None, [good], []);
    var plan := [Run("check-names"), SaveImages, Run("deploy")];
    var open := OpenFate(Acked, true, Acked, Acked, false);
    var well := Fate(Acked, Succeeds, [good], None, Acked, Acked, true);
    var cut := Fate(Acked, Cut, [broken], None, Acked, Acked, true);
    var o := BeginSpec(w, "", open);
    HalfApplied(o.w, o.rec.value, plan, [well, well, cut], good, broken);
    var half := OpSpec(w, Release(plan, "", open, [well, well, cut], FinishFate(Acked, false, true, Acked)));
    UpdateBeforeClearCaptures(half, Update({}, false, true, Acked, false, [broken]), Clear(true, true, Acked, Acked));
    AllRecorded(broken);
    ShortPlan();
  }

  /** The plan of a compose stack without backups, builds, hooks or verification. */
  lemma ShortPlan()
    ensures Plan(Manifest(true, false, false, [], false, true, [], 0, false, 0, false))
            == [Run("check-names"), SaveImages, Run("deploy")]
  {
    var a, b := [Run("check-names"), SaveImages], [Run("deploy")];
    var bs := Blocks(Manifest(true, false, false, [], false, true, [], 0, false, 0, false));
    var tail := [b] + ([[]] + ([[]] + ([[]] + [])));
    assert bs == [[]] + ([[]] + ([[]] + ([a] + ([[]] + ([[]] + tail)))));
    TailIs(b);
    FrontIs(a, tail);
  }

  lemma ConcatCons(x: seq<Item>, rest: seq<seq<Item>>)
    ensures Concat([x] + rest) == x + Concat(rest)
  {
    assert ([x] + rest)[1..] == rest;
  }

  lemma TailIs(b: seq<Item>)
    ensures Concat([b] + ([[]] + ([[]] + ([[]] + [])))) == b
  {
    ConcatCons(b, [[]] + ([[]] + ([[]] + [])));
    ConcatCons([], [[]] + ([[]] + []));
    ConcatCons([], [[]] + []);
    ConcatCons([], []);
  }

  lemma FrontIs(a: seq<Item>, tail: seq<seq<Item>>)
    ensures Concat([[]] + ([[]] + ([[]] + ([a] + ([[]] + ([[]] + tail)))))) == a + Concat(tail)
  {
    ConcatCons([], [[]] + ([[]] + ([a] + ([[]] + ([[]] + tail)))));
    ConcatCons([], [[]] + ([a] + ([[]] + ([[]] + tail))));
    ConcatCons([], [a] + ([[]] + ([[]] + tail)));
    ConcatCons(a, [[]] + ([[]] + tail));
    ConcatCons([], [[]] + tail);
    ConcatCons([], tail);
  }

  lemma AllRecorded(i: Image)
    requires i.id != "" && i.ref != ""
    ensures Recorded(Wanted([i], {})) == [i] && Recorded([i]) == [i]
  {
    assert [i][1..] == [];
  }

  lemma HalfApplied(w: World, rec: Record, plan: seq<Item>, fates: seq<Fate>, good: Image, broken: Image)
    requires good.id != "" && good.ref != "" && rec.steps == [] && w.target == None && w.running == [good]
    requires plan == [Run("check-names"), SaveImages, Run("deploy")]
    requires var well := Fate(Acked, Succeeds, [good], None, Acked, Acked, true);
             fates == [well, well, Fate(Acked, Cut, [broken], None, Acked, Acked, true)]
    ensures var s := ItemsSpec(w, rec, false, plan, fates);
            && !s.ok && s.rec.steps != [] && s.w.target == Some(Target([good], false)) && s.w.running == [broken]
            && s.w.record == Some(s.rec) && Unsafe(s.rec)
  {
    var o1 := ItemSpec(w, rec, false, plan[0], fates[0]);
    var o2 := ItemSpec(o1.w, o1.rec, false, plan[1], fates[1]);
    var o3 := ItemSpec(o2.w, o2.rec, false, plan[2], fates[2]);
    AllRecorded(good);
    assert o1.rec.steps == [Step("check-names", Done)];
    assert o3.rec.steps == [Step("check-names", Done), Step("deploy", Started)];
    assert o3.rec.steps[1].status != Done && NonResumable(o3.rec.steps[1].name);
    assert plan[1..] == [SaveImages, Run("deploy")] && plan[1..][1..] == [Run("deploy")];
    assert ItemsSpec(o2.w, o2.rec, false, plan[1..][1..], fates[1..][1..]) == o3;
    assert ItemsSpec(o1.w, o1.rec, false, plan[1..], fates[1..]) == o3;
  }

  // ----- when a record that was released is protected again -----

  /** The clear of a half-applied release that protects the rollback record. */
  predicate ProtectingClear(w: World, op: Op) {
    op.Clear? && op.readsRecord && w.record.Some? && Unsafe(w.record.value)
    && op.readsTarget && w.target.Some? && Took(op.protect)
  }

  predicate HasProtection(w: World) { w.target.Some? && w.target.value.protected }

  lemma {:induction false} ItemsNeverProtect(w: World, rec: Record, resume: bool, items: seq<Item>, fates: seq<Fate>)
    requires !HasProtection(w)
    ensures !HasProtection(ItemsSpec(w, rec, resume, items, fates).w)
    decreases |items|
  {
    if items != [] && fates != [] {
      var o := ItemSpec(w, rec, resume, items[0], fates[0]);
      if items[0].Run? { LogGrows(w, rec, resume, items[0].name, fates[0]); }
      if o.ok { ItemsNeverProtect(o.w, o.rec, resume, items[1..], fates[1..]); }
    }
  }

  /** One command protects an unprotected record exactly when it is such a clear. */
  lemma OpProtectsIff(w: World, op: Op)
    requires !HasProtection(w)
    ensures HasProtection(OpSpec(w, op)) <==> ProtectingClear(w, op)
  {
    if op.Release? {
      var o := BeginSpec(w, op.commit, op.open);
      if o.rec.Some? { ItemsNeverProtect(o.w, o.rec.value, false, op.plan, op.fates); }
    } else if op.Resume? {
      var o := ResumeSpec(w, op.commit, op.open);
      if o.rec.Some? { ItemsNeverProtect(o.w, o.rec.value, true, op.plan, op.fates); }
    }
  }

  ghost predicate SomeProtectingClear(w: World, ops: seq<Op>)
    decreases |ops|
  {
    ops != [] && (ProtectingClear(w, ops[0]) || SomeProtectingClear(OpSpec(w, ops[0]), ops[1..]))
  }

  /** Over any commands after which no release finished and no rollback was applied, a record that was
      unprotected is protected exactly when one of them was the clear of a half-applied release. */
  lemma {:induction false} ProtectedAgainIff(w: World, ops: seq<Op>)
    requires !HasProtection(w) && NoLift(RunOps(w, ops).log, |w.log|)
    ensures HasProtection(RunOps(w, ops)) <==> SomeProtectingClear(w, ops)
    decreases |ops|
  {
    if ops != [] {
      var w1 := OpSpec(w, ops[0]);
      NoLiftSplit(w, ops);
      OpProtectsIff(w, ops[0]);
      if HasProtection(w1) {
        ProtectedNeverOverwrites(w1, ops[1..], w1.target.value.images);
      } else {
        ProtectedAgainIff(w1, ops[1..]);
      }
    }
  }

  /** A rollback that was applied and released its record. */
  predicate AppliedAndReleased(w: World, op: Op) {
    op.Rollback? && op.readsTarget && op.present && op.up == Succeeds && op.readsAgain && Took(op.unprotect)
    && w.target.Some? && w.target.value.images != []
  }

  /** After such a rollback the record is not protected, and it stays so over any commands but the clear
      of a release that is still half applied: a rollback leaves that release's record where it is. */
  lemma ReleasedUntilCleared(w: World, rollback: Op, ops: seq<Op>)
    requires AppliedAndReleased(w, rollback)
    requires NoLift(RunOps(OpSpec(w, rollback), ops).log, |OpSpec(w, rollback).log|)
    ensures var w1 := OpSpec(w, rollback);
            && w1.record == w.record && w1.target == Some(Target(w.target.value.images, false))
            && (HasProtection(RunOps(w1, ops)) <==> SomeProtectingClear(w1, ops))
  {
    ProtectedAgainIff(OpSpec(w, rollback), ops);
  }

  /** The order the hint on a half-applied release names, rollback and then clear, for any answers of the
      host: the record the rollback released is protected again exactly when the clear could read both
      records and its write took effect. */
  lemma ClearAfterRollbackIff(w: World, rollback: Op, clear: Op)
    requires AppliedAndReleased(w, rollback) && w.record.Some? && Unsafe(w.record.value) && clear.Clear?
    ensures HasProtection(RunOps(w, [rollback, clear])) <==> clear.readsRecord && clear.readsTarget && Took(clear.protect)
  {
    var w1 := OpSpec(w, rollback);
    assert RunOps(w, [rollback, clear]) == RunOps(w1, [clear]);
    assert RunOps(w1, [clear]) == RunOps(OpSpec(w1, clear), []);
    OpProtectsIff(w1, clear);
  }

  /** Then the next update does not record what it replaces, and a second rollback goes back past it. */
  lemma RollbackThenClearReprotects(w: World, rollback: Op, clear: Op, ops: seq<Op>)
    requires AppliedAndReleased(w, rollback) && w.record.Some? && Unsafe(w.record.value)
    requires clear.Clear? && clear.readsRecord && clear.readsTarget && Took(clear.protect)
    requires var w2 := RunOps(w, [rollback, clear]); NoLift(RunOps(w2, ops).log, |w2.log|)
    ensures Protected(RunOps(RunOps(w, [rollback, clear]), ops), w.target.value.images)
  {
    var w1 := OpSpec(w, rollback);
    var w2 := OpSpec(w1, clear);
    assert RunOps(w, [rollback, clear]) == RunOps(w1, [clear]);
    assert RunOps(w1, [clear]) == RunOps(w2, []);
    ProtectedNeverOverwrites(w2, ops, w.target.value.images);
  }
}
