/** The plan of a release: when its step names are distinct, what happens when they are not, and what
    the record of a chain of attempts at one plan looks like. */
module ReleasePlan {
  import opened Text
  import opened ReleaseState
  import opened ReleaseWorld
  import opened ReleaseSafety
  import opened ReleaseNames

  // ----- a repeated name re-runs a finished step -----

  const GOOD := Fate(Acked, Succeeds, [], None, Acked, Acked, true)

  function AllGood(n: nat): (fates: seq<Fate>)
    ensures |fates| == n && forall i | 0 <= i < n :: fates[i] == GOOD
  {
    seq(n, _ => GOOD)
  }

  lemma StillRerun(log: seq<Event>, more: seq<Event>)
    requires !NeverRerun(log) && log <= more
    ensures !NeverRerun(more)
  {
    var k :| 0 <= k < |log| && log[k].Began? && log[k].name in DoneSince(log[..k]);
    assert more[k] == log[k] && more[..k] == log[..k];
  }

  /** A release in which nothing goes wrong, step by step. */
  function GoodStep(w: World, rec: Record, resume: bool, item: Item): (World, Record) {
    match item
    case SaveImages => (if IsDone(rec, "deploy") then w else Save(w, w.running, true, Acked, false), rec)
    case Run(name) =>
      if resume && IsDone(rec, name) then (w, rec)
      else
        var r1 := Marked(rec, name, Started);
        var r3 := Marked(r1, name, Done);
        (w.(record := Some(r3), running := [], log := w.log + GoodLog(r1, name, r3)), r3)
  }

  function GoodLog(r1: Record, name: string, r3: Record): seq<Event> {
    [Wrote(r1)] + [Began(name, Some(r1), Succeeds)] + [Wrote(r3)]
  }

  function GoodItems(w: World, rec: Record, resume: bool, items: seq<Item>): (World, Record)
    decreases |items|
  {
    if items == [] then (w, rec)
    else
      var (w1, r1) := GoodStep(w, rec, resume, items[0]);
      GoodItems(w1, r1, resume, items[1..])
  }

  lemma GoodStepIs(w: World, rec: Record, resume: bool, item: Item)
    ensures var (w1, r1) := GoodStep(w, rec, resume, item);
            ItemSpec(w, rec, resume, item, GOOD) == StepOut(w1, r1, true)
  {
    if item.Run? && !(resume && IsDone(rec, item.name)) {
      var r1 := Marked(rec, item.name, Started);
      var r3 := Marked(r1, item.name, Done);
      assert w.log + [Wrote(r1)] + [Began(item.name, Some(r1), Succeeds)] + [Wrote(r3)] == w.log + GoodLog(r1, item.name, r3);
    }
  }

  lemma {:induction false} GoodItemsIs(w: World, rec: Record, resume: bool, items: seq<Item>)
    ensures var (w1, r1) := GoodItems(w, rec, resume, items);
            ItemsSpec(w, rec, resume, items, AllGood(|items|)) == StepOut(w1, r1, true)
    decreases |items|
  {
    if items != [] {
      GoodStepIs(w, rec, resume, items[0]);
      var (w1, r1) := GoodStep(w, rec, resume, items[0]);
      assert AllGood(|items|)[1..] == AllGood(|items| - 1);
      GoodItemsIs(w1, r1, resume, items[1..]);
    }
  }

  lemma GoodStepAgain(w: World, rec: Record, item: Item)
    ensures var w1 := GoodStep(w, rec, false, item).0;
            && w.log <= w1.log && DoneSince(w.log) <= DoneSince(w1.log)
            && (item.Run? ==> item.name in DoneSince(w1.log))
            && (item.Run? && item.name in DoneSince(w.log) ==> !NeverRerun(w1.log))
  {
    match item
    case SaveImages => SinceAppend(w.log, Saved(Recorded(w.running), false));
    case Run(name) =>
      var r1 := Marked(rec, name, Started);
      var r3 := Marked(r1, name, Done);
      var e1, e2, e3 := Wrote(r1), Began(name, Some(r1), Succeeds), Wrote(r3);
      assert w.log + GoodLog(r1, name, r3) == w.log + [e1] + [e2] + [e3];
      SinceAppend(w.log, e1);
      SinceAppend(w.log + [e1], e2);
      SinceAppend(w.log + [e1] + [e2], e3);
      MarkedChangesOne(r1, name, Done, name);
      DoneNamesIff(r3, name);
      if name in DoneSince(w.log) {
        BadEntry(w.log + [e1], e2, e3);
      }
  }

  lemma BadEntry(log: seq<Event>, e: Event, next: Event)
    requires e.Began? && e.name in DoneSince(log)
    ensures !NeverRerun(log + [e] + [next])
  {
    var l := log + [e] + [next];
    assert l[|log|] == e && l[..|log|] == log;
  }

  /** When the rest has no repeat, a repeat involves the first item. */
  lemma StillDistinct(items: seq<Item>, i: nat, j: nat)
    requires 0 <= i < j < |items| && items[i].Run? && items[i] == items[j]
    requires DistinctRuns(items[1..])
    ensures i == 0
  {
    var rest := items[1..];
    assert forall k | 0 < k < |items| :: rest[k - 1] == items[k];
  }

  lemma {:induction false} RepeatReruns(w: World, rec: Record, items: seq<Item>)
    ensures var log := GoodItems(w, rec, false, items).0.log;
            && w.log <= log
            && ((exists n :: Runnable(items, n) && n in DoneSince(w.log)) ==> !NeverRerun(log))
            && (!DistinctRuns(items) ==> !NeverRerun(log))
    decreases |items|
  {
    if items != [] {
      GoodStepAgain(w, rec, items[0]);
      var (w1, r1) := GoodStep(w, rec, false, items[0]);
      var rest := items[1..];
      RepeatReruns(w1, r1, rest);
      var log := GoodItems(w1, r1, false, rest).0.log;
      if !NeverRerun(w1.log) { StillRerun(w1.log, log); }
      if n :| Runnable(items, n) && n in DoneSince(w.log) {
        if items[0] != Run(n) { assert Runnable(rest, n); }
      }
      if !DistinctRuns(items) && DistinctRuns(rest) {
        var i, j :| 0 <= i < j < |items| && items[i].Run? && items[i] == items[j];
        assert rest[j - 1] == items[j];
        assert Runnable(rest, items[j].name);
        StillDistinct(items, i, j);
      }
    }
  }

  const OPEN_WELL := OpenFate(Acked, true, Acked, Acked, false)
  const END_WELL := FinishFate(Acked, false, true, Acked)

  predicate OnPlan(op: Op, plan: seq<Item>) {
    (op.Release? || op.Resume?) ==> op.plan == plan
  }

  ghost predicate NeverRerunsFor(plan: seq<Item>) {
    forall w: World, ops: seq<Op> | Untouched(w) && (forall op | op in ops :: OnPlan(op, plan)) ::
      NeverRerun(RunOps(w, ops).log)
  }

  /** A step recorded done is never run again, in any chain of attempts at a plan, exactly when the
      plan has no name twice: a fresh release does not look at what its record says. */
  lemma NeverRerunsIff(plan: seq<Item>)
    ensures NeverRerunsFor(plan) <==> DistinctRuns(plan)
  {
    if DistinctRuns(plan) {
      forall w: World, ops: seq<Op> | Untouched(w) && (forall op | op in ops :: OnPlan(op, plan))
        ensures NeverRerun(RunOps(w, ops).log)
      {
        ReleasesAreWriteAhead(w, ops);
      }
    } else {
      var w := World(None, false, None, [], []);
      var op := Release(plan, "", OPEN_WELL, AllGood(|plan|), END_WELL);
      var o := BeginSpec(w, "", OPEN_WELL);
      RepeatReruns(o.w, FreshRecord(""), plan);
      GoodItemsIs(o.w, FreshRecord(""), false, plan);
      var s := ItemsSpec(o.w, FreshRecord(""), false, plan, AllGood(|plan|));
      StillRerun(s.w.log, FinishSpec(s.w, END_WELL).log);
      assert RunOps(w, [op]) == RunOps(OpSpec(w, op), []);
      assert forall p | p in [op] :: p == op;
    }
  }

  // ----- the record of one plan is a prefix of it -----

  function RunNames(items: seq<Item>): seq<string> {
    if items == [] then []
    else (if items[0].Run? then [items[0].name] else []) + RunNames(items[1..])
  }

  lemma {:induction false} RunNamesMember(items: seq<Item>, n: string)
    ensures n in RunNames(items) <==> Run(n) in items
    decreases |items|
  {
    if items != [] {
      RunNamesMember(items[1..], n);
      assert items == [items[0]] + items[1..];
    }
  }

  lemma {:induction false} RunNamesDistinct(items: seq<Item>)
    requires DistinctRuns(items)
    ensures Distinct(RunNames(items))
    decreases |items|
  {
    if items != [] {
      var rest := items[1..];
      RunNamesDistinct(rest);
      if items[0].Run? {
        var names := RunNames(rest);
        forall j | 0 <= j < |names| ensures names[j] != items[0].name {
          RunNamesMember(rest, names[j]);
          assert names[j] in names;
        }
      }
    }
  }

  /** The record lists the first steps of the plan in order, all of them done but perhaps the last. */
  ghost predicate Along(r: Record, names: seq<string>) {
    && |r.steps| <= |names|
    && (forall i | 0 <= i < |r.steps| :: r.steps[i].name == names[i])
    && (forall i | 0 <= i < |r.steps| - 1 :: r.steps[i].status == Done)
  }

  ghost predicate DoneAre(r: Record, names: seq<string>) {
    forall n :: IsDone(r, n) <==> n in names
  }

  ghost predicate DonePrefix(r: Record, names: seq<string>) {
    exists d | 0 <= d <= |names| :: DoneAre(r, names[..d])
  }

  lemma AlongIsDonePrefix(r: Record, names: seq<string>)
    requires Distinct(names) && Along(r, names)
    ensures DonePrefix(r, names)
  {
    var k := |r.steps|;
    var d := if k > 0 && r.steps[k - 1].status != Done then k - 1 else k;
    forall n ensures IsDone(r, n) <==> n in names[..d] {
      var i := Find(r.steps, n);
      if i < k { assert n == names[i]; }
      if n in names[..d] {
        var j :| 0 <= j < d && names[..d][j] == n;
        assert r.steps[j].name == n && i == j;
      }
    }
    assert DoneAre(r, names[..d]);
  }

  /** Where an attempt stands: the first c steps are done, and a fresh attempt has none beyond. */
  ghost predicate At(r: Record, names: seq<string>, c: nat, resume: bool) {
    && Along(r, names) && c <= |r.steps|
    && (forall i | 0 <= i < c :: r.steps[i].status == Done)
    && (!resume ==> |r.steps| == c)
  }

  lemma MarkAlong(r: Record, names: seq<string>, c: nat, resume: bool, s: Status)
    requires Distinct(names) && At(r, names, c, resume) && c < |names|
    requires c < |r.steps| ==> r.steps[c].status != Done
    ensures var m := Marked(r, names[c], s);
            && Along(m, names) && |m.steps| == c + 1 && m.steps[c].status == s
            && forall i | 0 <= i < c :: m.steps[i].status == Done
  {
    var i := Find(r.steps, names[c]);
    if c < |r.steps| {
      assert i == c;
    } else {
      assert i == |r.steps|;
    }
  }

  lemma StepAlong(w: World, rec: Record, resume: bool, names: seq<string>, c: nat, f: Fate)
    requires Distinct(names) && c < |names| && At(rec, names, c, resume)
    requires w.record.Some? && Along(w.record.value, names)
    ensures var o := StepSpec(w, rec, resume, names[c], f);
            && o.w.record.Some? && Along(o.w.record.value, names)
            && (o.ok ==> At(o.rec, names, c + 1, resume))
  {
    var name := names[c];
    if resume && IsDone(rec, name) {
      var i := Find(rec.steps, name);
      assert names[i] == names[c] && i == c;
    } else {
      if c < |rec.steps| { assert Find(rec.steps, name) == c; }
      StepAfresh(w, rec, resume, names, c, f);
    }
  }

  lemma StepAfresh(w: World, rec: Record, resume: bool, names: seq<string>, c: nat, f: Fate)
    requires Distinct(names) && c < |names| && At(rec, names, c, resume)
    requires c < |rec.steps| ==> rec.steps[c].status != Done
    requires w.record.Some? && Along(w.record.value, names)
    requires !(resume && IsDone(rec, names[c]))
    ensures var o := StepSpec(w, rec, resume, names[c], f);
            && o.w.record.Some? && Along(o.w.record.value, names)
            && (o.ok ==> At(o.rec, names, c + 1, resume))
  {
    var name := names[c];
    var r1 := Marked(rec, name, Started);
    MarkAlong(rec, names, c, resume, Started);
    var r2 := if f.note.None? then r1 else r1.(backupFile := f.note.value);
    MarkAlong(r2, names, c, true, Failed);
    MarkAlong(r2, names, c, true, Done);
    StepWrites(w, rec, resume, name, f);
  }

  /** Whatever its fate, a step leaves on the host what was there or one of its own marks. */
  lemma StepWrites(w: World, rec: Record, resume: bool, name: string, f: Fate)
    requires !(resume && IsDone(rec, name))
    ensures var o := StepSpec(w, rec, resume, name, f);
            var r1 := Marked(rec, name, Started);
            var r2 := if f.note.None? then r1 else r1.(backupFile := f.note.value);
            && o.w.record in [w.record, Some(r1), Some(r2), Some(Marked(r2, name, Failed)), Some(Marked(r2, name, Done))]
            && (o.ok ==> o.rec == Marked(r2, name, Done))
  {
  }

  lemma ItemAlong(w: World, rec: Record, resume: bool, items: seq<Item>, f: Fate, names: seq<string>, c: nat, c1: nat)
    requires Distinct(names) && c <= |names| && items != [] && names[c..] == RunNames(items) && At(rec, names, c, resume)
    requires w.record.Some? && Along(w.record.value, names) && c1 == if items[0].Run? then c + 1 else c
    ensures var o := ItemSpec(w, rec, resume, items[0], f);
            && o.w.record.Some? && Along(o.w.record.value, names)
            && (o.ok ==> At(o.rec, names, c1, resume))
    ensures c1 <= |names| && names[c1..] == RunNames(items[1..])
  {
    if items[0].Run? {
      assert names[c..][0] == items[0].name;
      assert names[c + 1..] == names[c..][1..];
      StepAlong(w, rec, resume, names, c, f);
    }
  }

  lemma {:induction false} ItemsAlong(w: World, rec: Record, resume: bool, items: seq<Item>, fates: seq<Fate>,
                                      names: seq<string>, c: nat)
    requires Distinct(names) && c <= |names| && names[c..] == RunNames(items) && At(rec, names, c, resume)
    requires w.record.Some? && Along(w.record.value, names)
    ensures var o := ItemsSpec(w, rec, resume, items, fates);
            && o.w.record.Some? && Along(o.w.record.value, names)
            && (o.ok ==> o.rec.steps != [] || names == []) && (o.ok ==> At(o.rec, names, |names|, resume))
    decreases |items|
  {
    if items == [] {
      assert c == |names|;
    } else if fates != [] {
      var o := ItemSpec(w, rec, resume, items[0], fates[0]);
      var c1 := if items[0].Run? then c + 1 else c;
      ItemAlong(w, rec, resume, items, fates[0], names, c, c1);
      if o.ok { ItemsAlong(o.w, o.rec, resume, items[1..], fates[1..], names, c1); }
    }
  }

  ghost predicate RecordAlong(w: World, names: seq<string>) {
    w.record.Some? ==> Along(w.record.value, names)
  }

  lemma AttemptAlong(o: OpenOut, resume: bool, plan: seq<Item>, fates: seq<Fate>, fin: FinishFate)
    requires DistinctRuns(plan) && RecordAlong(o.w, RunNames(plan))
    requires o.rec.Some? ==> o.w.record == o.rec && (resume || o.rec.value.steps == [])
    ensures RecordAlong(AttemptSpec(o, resume, plan, fates, fin), RunNames(plan))
  {
    if o.rec.Some? {
      RunNamesDistinct(plan);
      ItemsAlong(o.w, o.rec.value, resume, plan, fates, RunNames(plan), 0);
    }
  }

  lemma OpAlong(w: World, op: Op, plan: seq<Item>)
    requires DistinctRuns(plan) && OnPlan(op, plan) && RecordAlong(w, RunNames(plan))
    ensures RecordAlong(OpSpec(w, op), RunNames(plan))
  {
    if op.Release? {
      AttemptAlong(BeginSpec(w, op.commit, op.open), false, plan, op.fates, op.fin);
    } else if op.Resume? {
      AttemptAlong(ResumeSpec(w, op.commit, op.open), true, plan, op.fates, op.fin);
    }
  }

  lemma {:induction false} RunAlong(w: World, ops: seq<Op>, plan: seq<Item>)
    requires DistinctRuns(plan) && RecordAlong(w, RunNames(plan))
    requires forall op | op in ops :: OnPlan(op, plan)
    ensures RecordAlong(RunOps(w, ops), RunNames(plan))
    decreases |ops|
  {
    if ops != [] {
      OpAlong(w, ops[0], plan);
      RunAlong(OpSpec(w, ops[0]), ops[1..], plan);
    }
  }

  /** Over every chain of attempts at one plan, whatever was cut: the steps the host's record calls
      done are always a prefix of the plan. */
  lemma DoneIsAlwaysAPrefix(w: World, ops: seq<Op>, plan: seq<Item>)
    requires Untouched(w) && DistinctRuns(plan) && forall op | op in ops :: OnPlan(op, plan)
    ensures var r := RunOps(w, ops).record;
            r.Some? ==> DonePrefix(r.value, RunNames(plan))
  {
    RunAlong(w, ops, plan);
    RunNamesDistinct(plan);
    var r := RunOps(w, ops).record;
    if r.Some? { AlongIsDonePrefix(r.value, RunNames(plan)); }
  }

  // ----- a resume runs exactly what is left -----

  /** The actions a stretch of the log began, in order. */
  function Begun(log: seq<Event>): seq<string> {
    if log == [] then []
    else (if log[0].Began? then [log[0].name] else []) + Begun(log[1..])
  }

  lemma {:induction false} BegunConcat(a: seq<Event>, b: seq<Event>)
    ensures Begun(a + b) == Begun(a) + Begun(b)
    decreases |a|
  {
    if a == [] {
      assert a + b == b;
    } else {
      assert (a + b)[1..] == a[1..] + b;
      BegunConcat(a[1..], b);
    }
  }

  /** How many leading steps of the record are done. */
  function DoneCount(r: Record): nat {
    if r.steps != [] && r.steps[|r.steps| - 1].status != Done then |r.steps| - 1 else |r.steps|
  }

  lemma GoodResumeStep(w: World, rec: Record, names: seq<string>, c: nat)
    requires Distinct(names) && c < |names| && At(rec, names, c, true) && c <= DoneCount(rec)
    ensures var (w1, r1) := GoodStep(w, rec, true, Run(names[c]));
            && At(r1, names, c + 1, true) && w1.lock == w.lock
            && (c < DoneCount(rec) ==> w1 == w && r1 == rec)
            && (c == DoneCount(rec) ==>
                  DoneCount(r1) == c + 1 && exists l :: w1.log == w.log + l && Begun(l) == [names[c]])
  {
    var name := names[c];
    if c < |rec.steps| { assert Find(rec.steps, name) == c; }
    if c == DoneCount(rec) {
      assert !IsDone(rec, name);
      var r1 := Marked(rec, name, Started);
      MarkAlong(rec, names, c, true, Started);
      MarkAlong(r1, names, c, true, Done);
      var r3 := Marked(r1, name, Done);
      BegunConcat([Wrote(r1)] + [Began(name, Some(r1), Succeeds)], [Wrote(r3)]);
      BegunConcat([Wrote(r1)], [Began(name, Some(r1), Succeeds)]);
      assert Begun(GoodLog(r1, name, r3)) == [name];
    }
  }

  /** What a resume in which nothing goes wrong has done when its items are through. */
  ghost predicate BeganRest(w: World, end: World, names: seq<string>, c: nat) {
    && w.log <= end.log && end.lock == w.lock && c <= |names| && Begun(end.log[|w.log|..]) == names[c..]
  }

  lemma GoodSave(w: World, rec: Record)
    ensures var (w1, r1) := GoodStep(w, rec, true, SaveImages);
            && r1 == rec && w1.lock == w.lock
            && (w1.log == w.log || (|w1.log| == |w.log| + 1 && w.log <= w1.log && w1.log[|w.log|].Saved?))
  {
  }

  lemma SaveThenRest(w: World, w1: World, end: World, names: seq<string>, c: nat)
    requires w1.log == w.log || (|w1.log| == |w.log| + 1 && w.log <= w1.log && w1.log[|w.log|].Saved?)
    requires w1.lock == w.lock && BeganRest(w1, end, names, c)
    ensures BeganRest(w, end, names, c)
  {
    SavedBeginsNothing(w, w1, end.log);
  }

  /** A resume in which nothing goes wrong, from where the first c steps are done. */
  lemma {:induction false} GoodResumeItems(w: World, rec: Record, items: seq<Item>, names: seq<string>, c: nat)
    requires Distinct(names) && c <= |names| && names[c..] == RunNames(items)
    requires At(rec, names, c, true) && c <= DoneCount(rec)
    ensures BeganRest(w, GoodItems(w, rec, true, items).0, names, DoneCount(rec))
    decreases |items|, 1
  {
    if items == [] {
      assert w.log[|w.log|..] == [];
    } else if items[0].Run? {
      GoodResumeRun(w, rec, items, names, c);
    } else {
      var (w1, r1) := GoodStep(w, rec, true, items[0]);
      GoodSave(w, rec);
      GoodResumeItems(w1, r1, items[1..], names, c);
      SaveThenRest(w, w1, GoodItems(w1, r1, true, items[1..]).0, names, DoneCount(rec));
    }
  }

  lemma {:induction false} GoodResumeRun(w: World, rec: Record, items: seq<Item>, names: seq<string>, c: nat)
    requires Distinct(names) && c <= |names| && names[c..] == RunNames(items)
    requires At(rec, names, c, true) && c <= DoneCount(rec) && items != [] && items[0].Run?
    ensures BeganRest(w, GoodItems(w, rec, true, items).0, names, DoneCount(rec))
    decreases |items|, 0
  {
    var (w1, r1) := GoodStep(w, rec, true, items[0]);
    assert names[c..][0] == items[0].name && names[c + 1..] == names[c..][1..];
    GoodResumeStep(w, rec, names, c);
    GoodResumeItems(w1, r1, items[1..], names, c + 1);
    RunThenRest(w, w1, rec, r1, GoodItems(w1, r1, true, items[1..]).0, names, c);
  }

  lemma RunThenRest(w: World, w1: World, rec: Record, r1: Record, end: World, names: seq<string>, c: nat)
    requires c < |names| && c <= DoneCount(rec) && w1.lock == w.lock
    requires c < DoneCount(rec) ==> w1 == w && r1 == rec
    requires c == DoneCount(rec) ==> DoneCount(r1) == c + 1 && exists l :: w1.log == w.log + l && Begun(l) == [names[c]]
    requires BeganRest(w1, end, names, DoneCount(r1))
    ensures BeganRest(w, end, names, DoneCount(rec))
  {
    if c == DoneCount(rec) {
      var l :| w1.log == w.log + l && Begun(l) == [names[c]];
      BegunJoin(w.log, l, end.log, names, c);
    }
  }

  lemma BegunJoin(log: seq<Event>, l: seq<Event>, end: seq<Event>, names: seq<string>, c: nat)
    requires c < |names| && log + l <= end
    requires Begun(l) == [names[c]] && Begun(end[|log + l|..]) == names[c + 1..]
    ensures log <= end && Begun(end[|log|..]) == names[c..]
  {
    assert end[|log|..] == l + end[|log + l|..];
    BegunConcat(l, end[|log + l|..]);
    assert names[c..] == [names[c]] + names[c + 1..];
  }

  lemma SavedBeginsNothing(w: World, w1: World, log: seq<Event>)
    requires w1.log == w.log || (|w1.log| == |w.log| + 1 && w.log <= w1.log && w1.log[|w.log|].Saved?)
    requires w1.log <= log
    ensures w.log <= log && Begun(log[|w.log|..]) == Begun(log[|w1.log|..])
  {
    if w1.log != w.log {
      assert log[|w.log|] == w1.log[|w.log|];
      assert log[|w.log|..][1..] == log[|w1.log|..];
    }
  }

  /** After any chain of cut attempts at a plan, one resume that nothing goes wrong in begins exactly
      the steps the record does not call done, in plan order, and finishes the release. */
  lemma CleanResumeRunsTheRest(w0: World, ops: seq<Op>, plan: seq<Item>, commit: string)
    requires Untouched(w0) && DistinctRuns(plan) && forall op | op in ops :: OnPlan(op, plan)
    requires var w := RunOps(w0, ops);
             !w.lock && w.record.Some? && !Unsafe(w.record.value) && !CommitClash(commit, w.record.value)
    ensures var w := RunOps(w0, ops);
            var w' := OpSpec(w, Resume(plan, commit, OPEN_WELL, AllGood(|plan|), END_WELL));
            && w'.record == None && !w'.lock && w.log < w'.log
            && DoneCount(w.record.value) <= |RunNames(plan)|
            && Begun(w'.log[|w.log|..]) == RunNames(plan)[DoneCount(w.record.value)..]
            && w'.log[|w'.log| - 1] == Finished
  {
    RunAlong(w0, ops, plan);
    CleanResume(RunOps(w0, ops), plan, commit);
  }

  lemma CleanResume(w: World, plan: seq<Item>, commit: string)
    requires DistinctRuns(plan) && RecordAlong(w, RunNames(plan))
    requires !w.lock && w.record.Some? && !Unsafe(w.record.value) && !CommitClash(commit, w.record.value)
    ensures var w' := OpSpec(w, Resume(plan, commit, OPEN_WELL, AllGood(|plan|), END_WELL));
            && w'.record == None && !w'.lock && w.log < w'.log
            && DoneCount(w.record.value) <= |RunNames(plan)|
            && Begun(w'.log[|w.log|..]) == RunNames(plan)[DoneCount(w.record.value)..]
            && w'.log[|w'.log| - 1] == Finished
  {
    var names := RunNames(plan);
    RunNamesDistinct(plan);
    var o := ResumeSpec(w, commit, OPEN_WELL);
    assert o.rec == w.record;
    GoodResumeItems(o.w, o.rec.value, plan, names, 0);
    GoodItemsIs(o.w, o.rec.value, true, plan);
    CleanEnd(w.log, ItemsSpec(o.w, o.rec.value, true, plan, AllGood(|plan|)).w);
  }

  lemma CleanEnd(log: seq<Event>, s: World)
    requires log <= s.log
    ensures var end := FinishSpec(s, END_WELL);
            && end.record == None && !end.lock && log < end.log
            && Begun(end.log[|log|..]) == Begun(s.log[|log|..]) && end.log[|end.log| - 1] == Finished
  {
    var end := FinishSpec(s, END_WELL);
    assert end.log == s.log + [Finished];
    assert end.log[|log|..] == s.log[|log|..] + [Finished];
    BegunConcat(s.log[|log|..], [Finished]);
  }
}
