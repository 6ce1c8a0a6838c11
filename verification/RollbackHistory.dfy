/** Where the images of the rollback record come from: over every chain of commands with the plans a release
    really has, a release saves them before its deploy begins and never after. */
module RollbackHistory {
  import opened Text
  import opened ReleaseState
  import opened ReleaseWorld
  import opened ReleaseSafety
  import opened RollbackSafety

  // ----- plans save before they deploy -----

  predicate SavesFirst(items: seq<Item>) {
    forall i, j | 0 <= i < j < |items| && items[i] == Run("deploy") :: items[j] != SaveImages
  }

  predicate NoSave(items: seq<Item>) { forall i | 0 <= i < |items| :: items[i] != SaveImages }

  predicate NoDeploy(items: seq<Item>) { forall i | 0 <= i < |items| :: items[i] != Run("deploy") }

  lemma SavesThenDeploys(a: seq<Item>, b: seq<Item>)
    requires NoDeploy(a) && NoSave(b)
    ensures SavesFirst(a + b)
  {
  }

  lemma {:induction false} ConcatSplit(blocks: seq<seq<Item>>, k: nat)
    requires k <= |blocks|
    ensures Concat(blocks) == Concat(blocks[..k]) + Concat(blocks[k..])
    decreases k
  {
    if k == 0 {
      assert blocks[0..] == blocks;
    } else {
      ConcatSplit(blocks[1..], k - 1);
      assert blocks[..k] == [blocks[0]] + blocks[1..][..k - 1] && blocks[1..][k - 1..] == blocks[k..];
      assert blocks[..k][1..] == blocks[1..][..k - 1];
    }
  }

  lemma {:induction false} NoDeployIn(blocks: seq<seq<Item>>)
    requires forall b | b in blocks :: NoDeploy(b)
    ensures NoDeploy(Concat(blocks))
  {
    if blocks != [] {
      assert blocks[0] in blocks && forall b | b in blocks[1..] :: b in blocks;
      NoDeployIn(blocks[1..]);
    }
  }

  lemma {:induction false} NoSaveIn(blocks: seq<seq<Item>>)
    requires forall b | b in blocks :: NoSave(b)
    ensures NoSave(Concat(blocks))
  {
    if blocks != [] {
      assert blocks[0] in blocks && forall b | b in blocks[1..] :: b in blocks;
      NoSaveIn(blocks[1..]);
    }
  }

  lemma PrefixedNoDeploy(prefix: string, names: seq<string>)
    requires prefix == "sync:" || prefix == "build:"
    ensures NoDeploy(Runs(prefix, names))
  {
    forall i | 0 <= i < |names| ensures Runs(prefix, names)[i] != Run("deploy") {
      assert (prefix + names[i])[0] == prefix[0] && prefix[0] != "deploy"[0];
    }
  }

  lemma NumberedNoDeploy(n: nat)
    ensures NoDeploy(Numbered("pre:", n))
  {
    forall i | 0 <= i < n ensures Numbered("pre:", n)[i] != Run("deploy") {
      assert ("pre:" + Decimal(i + 1))[0] == 'p' && "deploy"[0] == 'd';
    }
  }

  /** The plan of every manifest saves the images, if at all, before it deploys. */
  lemma PlanSavesFirst(m: Manifest)
    ensures SavesFirst(Plan(m))
  {
    var bs := Blocks(m);
    PrefixedNoDeploy("sync:", m.sync);
    PrefixedNoDeploy("build:", m.builds);
    NumberedNoDeploy(m.pre);
    assert bs[..6] == [bs[0], bs[1], bs[2], bs[3], bs[4], bs[5]] && bs[6..] == [bs[6], bs[7], bs[8], bs[9]];
    NoDeployIn(bs[..6]);
    NoSaveIn(bs[6..]);
    ConcatSplit(bs, 6);
    SavesThenDeploys(Concat(bs[..6]), Concat(bs[6..]));
  }

  // ----- no late save -----

  /** No release saved images once its record's deploy had begun. */
  ghost predicate EarlySaves(log: seq<Event>) {
    forall k | 0 <= k < |log| && log[k].Saved? && !log[k].update :: "deploy" !in BegunSince(log[..k])
  }

  ghost predicate Listed(log: seq<Event>, r: Record) { "deploy" in BegunSince(log) ==> HasStep(r, "deploy") }

  ghost predicate Sound(w: World) { EarlySaves(w.log) && (w.record.Some? ==> Listed(w.log, w.record.value)) }

  /** Where an attempt stands: once the deploy has begun, no image is saved unless the deploy is done. */
  ghost predicate Standing(w: World, rec: Record, items: seq<Item>) {
    Listed(w.log, rec) && ("deploy" in BegunSince(w.log) && !NoSave(items) ==> IsDone(rec, "deploy"))
  }

  lemma EarlyAppend(log: seq<Event>, e: Event)
    requires EarlySaves(log) && (e.Saved? && !e.update ==> "deploy" !in BegunSince(log))
    ensures EarlySaves(log + [e])
  {
    var l := log + [e];
    forall k | 0 <= k < |l| && l[k].Saved? && !l[k].update ensures "deploy" !in BegunSince(l[..k]) {
      assert l[..k] == log[..k];
      assert log[..|log|] == log;
    }
  }

  lemma WriteSound(w: World, r: Record, f: WriteFate)
    requires Sound(w) && Listed(w.log, r)
    ensures var w' := WriteRecord(w, r, f);
            Sound(w') && ("deploy" in BegunSince(w'.log) <==> "deploy" in BegunSince(w.log))
  {
    EarlyAppend(w.log, Wrote(r));
    SinceAppend(w.log, Wrote(r));
  }

  lemma MarkLists(r: Record, name: string, s: Status)
    ensures HasStep(Marked(r, name, s), name)
    ensures HasStep(r, "deploy") ==> HasStep(Marked(r, name, s), "deploy")
    ensures name != "deploy" ==> (IsDone(Marked(r, name, s), "deploy") <==> IsDone(r, "deploy"))
  {
    MarkedChangesOne(r, name, s, "deploy");
  }

  /** What a step of another name leaves as it was. */
  ghost predicate DeployUntouched(w: World, rec: Record, o: StepOut) {
    ("deploy" in BegunSince(o.w.log) <==> "deploy" in BegunSince(w.log))
    && (IsDone(o.rec, "deploy") <==> IsDone(rec, "deploy"))
  }

  ghost predicate GoodOut(w: World, rec: Record, name: string, o: StepOut) {
    Sound(o.w) && Listed(o.w.log, o.rec) && (name != "deploy" ==> DeployUntouched(w, rec, o))
  }

  lemma StepSound(w: World, rec: Record, resume: bool, name: string, f: Fate)
    requires Sound(w) && Listed(w.log, rec)
    ensures GoodOut(w, rec, name, StepSpec(w, rec, resume, name, f))
  {
    StepIs(w, rec, resume, name, f);
    var r1 := Marked(rec, name, Started);
    var w1 := WriteRecord(w, r1, f.before);
    MarkLists(rec, name, Started);
    WriteSound(w, r1, f.before);
    if f.before == Acked { ActionSound(w1, r1, name, f); }
  }

  /** From the action of a step on: it runs, notes a backup, and its outcome is marked. */
  lemma ActionSound(w1: World, r1: Record, name: string, f: Fate)
    requires Sound(w1) && w1.record == Some(r1) && Listed(w1.log, r1) && HasStep(r1, name)
    ensures GoodOut(w1, r1, name, Acted(w1, r1, name, f))
  {
    var e := Began(name, w1.record, f.action);
    EarlyAppend(w1.log, e);
    SinceAppend(w1.log, e);
    var wa := RunAction(w1, name, f);
    var (w2, r2) := NoteBackup(wa, r1, f);
    if f.note.Some? { WriteSound(wa, r2, f.noted); }
    EndingSound(w2, r2, name, f);
  }

  lemma EndingSound(w: World, r: Record, name: string, f: Fate)
    requires Sound(w) && Listed(w.log, r)
    ensures GoodOut(w, r, name, Ending(w, r, name, f))
  {
    var s := if f.action == Fails then Failed else Done;
    MarkLists(r, name, s);
    WriteSound(w, Marked(r, name, s), f.after);
  }

  lemma SaveSound(w: World, running: seq<Image>, readable: bool, f: WriteFate, update: bool)
    requires Sound(w) && (update || "deploy" !in BegunSince(w.log))
    ensures var w' := Save(w, running, readable, f, update);
            Sound(w') && w'.record == w.record && ("deploy" in BegunSince(w'.log) <==> "deploy" in BegunSince(w.log))
  {
    EarlyAppend(w.log, Saved(Recorded(running), update));
    SinceAppend(w.log, Saved(Recorded(running), update));
  }

  lemma {:induction false} ItemsSound(w: World, rec: Record, resume: bool, items: seq<Item>, fates: seq<Fate>)
    requires Sound(w) && SavesFirst(items) && Standing(w, rec, items)
    ensures Sound(ItemsSpec(w, rec, resume, items, fates).w)
    decreases |items|
  {
    if items != [] && fates != [] {
      var o := ItemSpec(w, rec, resume, items[0], fates[0]);
      TailSaves(items);
      if items[0].Run? {
        StepSound(w, rec, resume, items[0].name, fates[0]);
      } else if !IsDone(rec, "deploy") {
        assert !NoSave(items) by { assert items[0] == SaveImages; }
        SaveSound(w, w.running, fates[0].readable, fates[0].after, false);
      }
      if o.ok { ItemsSound(o.w, o.rec, resume, items[1..], fates[1..]); }
    }
  }

  lemma TailSaves(items: seq<Item>)
    requires items != [] && SavesFirst(items)
    ensures SavesFirst(items[1..]) && (NoSave(items) ==> NoSave(items[1..]))
    ensures items[0] == Run("deploy") ==> NoSave(items[1..])
  {
    var t := items[1..];
    forall i | 0 <= i < |t| ensures items[0] == Run("deploy") ==> t[i] != SaveImages { assert t[i] == items[i + 1]; }
  }

  lemma LogSound(w: World, e: Event)
    requires Sound(w) && !e.Saved? && !e.Began?
    ensures Sound(w.(log := w.log + [e]))
  {
    EarlyAppend(w.log, e);
    SinceAppend(w.log, e);
  }

  lemma AttemptSound(o: OpenOut, resume: bool, plan: seq<Item>, fates: seq<Fate>, fin: FinishFate)
    requires Sound(o.w) && SavesFirst(plan) && (o.rec.Some? ==> Standing(o.w, o.rec.value, plan))
    ensures Sound(AttemptSpec(o, resume, plan, fates, fin))
  {
    if o.rec.Some? {
      ItemsSound(o.w, o.rec.value, resume, plan, fates);
      LogSound(ItemsSpec(o.w, o.rec.value, resume, plan, fates).w, Finished);
    }
  }

  lemma BeginSound(w: World, commit: string, f: OpenFate, plan: seq<Item>)
    requires Sound(w)
    ensures var o := BeginSpec(w, commit, f); Sound(o.w) && (o.rec.Some? ==> Standing(o.w, o.rec.value, plan))
  {
    EarlyAppend(w.log, ReleaseWorld.Fresh);
    SinceAppend(w.log, ReleaseWorld.Fresh);
  }

  /** A resume is refused while the deploy is listed and not done. */
  lemma ReopenSound(w: World, commit: string, f: OpenFate, plan: seq<Item>)
    requires Sound(w)
    ensures var o := ResumeSpec(w, commit, f); Sound(o.w) && (o.rec.Some? ==> Standing(o.w, o.rec.value, plan))
  {
    var o := ResumeSpec(w, commit, f);
    if o.rec.Some? {
      var r := o.rec.value;
      var i := Find(r.steps, "deploy");
      assert i < |r.steps| ==> r.steps[i].name == "deploy" && NonResumable("deploy");
    }
  }

  /** A release or resume runs the plan of some manifest. */
  ghost predicate OfManifest(op: Op) {
    (op.Release? || op.Resume?) ==> exists m :: op.plan == Plan(m)
  }

  lemma OpSound(w: World, op: Op)
    requires Sound(w) && OfManifest(op)
    ensures Sound(OpSpec(w, op))
  {
    if op.Release? || op.Resume? {
      var m :| op.plan == Plan(m);
      PlanSavesFirst(m);
    }
    match op
    case Release(plan, commit, open, fates, fin) =>
      BeginSound(w, commit, open, plan);
      AttemptSound(BeginSpec(w, commit, open), false, plan, fates, fin);
    case Resume(plan, commit, open, fates, fin) =>
      ReopenSound(w, commit, open, plan);
      AttemptSound(ResumeSpec(w, commit, open), true, plan, fates, fin);
    case Clear(rr, rt, protect, remove) =>
      LogSound(SetProtected(w, true, rt, protect).0, Cleared);
      LogSound(w, Cleared);
    case Update(svcs, stops, rt, save, cut, left) =>
      SaveSound(w, Wanted(w.running, svcs), rt, save, true);
    case Rollback(rt, present, up, left, ra, unprotect) =>
      LogSound(w.(running := left), Applied);
  }

  lemma {:induction false} RunSound(w: World, ops: seq<Op>)
    requires Sound(w) && forall op | op in ops :: OfManifest(op)
    ensures Sound(RunOps(w, ops))
    decreases |ops|
  {
    if ops != [] {
      assert ops[0] in ops && forall op | op in ops[1..] :: op in ops;
      OpSound(w, ops[0]);
      RunSound(OpSpec(w, ops[0]), ops[1..]);
    }
  }

  /** Over every chain of commands from an untouched host: a release saves the running images only before
      the deploy of its record has begun, in whatever attempt; after that only an update does. */
  lemma ReleasesSaveBeforeDeploy(w: World, ops: seq<Op>)
    requires Untouched(w) && forall op | op in ops :: OfManifest(op)
    ensures EarlySaves(RunOps(w, ops).log)
  {
    RunSound(w, ops);
  }

  // ----- what the rollback record holds -----

  function TargetImages(w: World): Option<seq<Image>> {
    if w.target.Some? then Some(w.target.value.images) else None
  }

  /** The images of the last save in the log, or what was recorded before it. */
  function LastSaved(log: seq<Event>, before: Option<seq<Image>>): Option<seq<Image>> {
    if log == [] then before
    else if log[|log| - 1].Saved? then Some(log[|log| - 1].images)
    else LastSaved(log[..|log| - 1], before)
  }

  lemma LastSavedAppend(log: seq<Event>, e: Event, before: Option<seq<Image>>)
    ensures LastSaved(log + [e], before) == if e.Saved? then Some(e.images) else LastSaved(log, before)
  {
    assert (log + [e])[..|log|] == log;
  }

  ghost predicate Tells(w: World, before: Option<seq<Image>>) { TargetImages(w) == LastSaved(w.log, before) }

  lemma AppendTells(w: World, e: Event, w': World, before: Option<seq<Image>>)
    requires Tells(w, before) && !e.Saved? && w'.log == w.log + [e] && TargetImages(w') == TargetImages(w)
    ensures Tells(w', before)
  {
    LastSavedAppend(w.log, e, before);
  }

  lemma SaveTells(w: World, running: seq<Image>, readable: bool, f: WriteFate, update: bool, before: Option<seq<Image>>)
    requires Tells(w, before)
    ensures Tells(Save(w, running, readable, f, update), before)
  {
    LastSavedAppend(w.log, Saved(Recorded(running), update), before);
  }

  lemma WriteTells(w: World, r: Record, f: WriteFate, before: Option<seq<Image>>)
    requires Tells(w, before)
    ensures Tells(WriteRecord(w, r, f), before)
  {
    if Took(f) { AppendTells(w, Wrote(r), WriteRecord(w, r, f), before); }
  }

  lemma NoteTells(w: World, r: Record, f: Fate, before: Option<seq<Image>>)
    requires Tells(w, before)
    ensures Tells(NoteBackup(w, r, f).0, before)
  {
    if f.note.Some? { WriteTells(w, r.(backupFile := f.note.value), f.noted, before); }
  }

  lemma EndingTells(w: World, r: Record, name: string, f: Fate, before: Option<seq<Image>>)
    requires Tells(w, before)
    ensures Tells(Ending(w, r, name, f).w, before)
  {
    WriteTells(w, Marked(r, name, if f.action == Fails then Failed else Done), f.after, before);
  }

  lemma ActedTells(w1: World, r1: Record, name: string, f: Fate, before: Option<seq<Image>>)
    requires Tells(w1, before)
    ensures Tells(Acted(w1, r1, name, f).w, before)
  {
    var wa := RunAction(w1, name, f);
    AppendTells(w1, Began(name, w1.record, f.action), wa, before);
    NoteTells(wa, r1, f, before);
    var (w2, r2) := NoteBackup(wa, r1, f);
    EndingTells(w2, r2, name, f, before);
  }

  lemma StepTells(w: World, rec: Record, resume: bool, name: string, f: Fate, before: Option<seq<Image>>)
    requires Tells(w, before)
    ensures Tells(StepSpec(w, rec, resume, name, f).w, before)
  {
    StepIs(w, rec, resume, name, f);
    var r1 := Marked(rec, name, Started);
    WriteTells(w, r1, f.before, before);
    ActedTells(WriteRecord(w, r1, f.before), r1, name, f, before);
  }

  lemma {:induction false} ItemsTell(w: World, rec: Record, resume: bool, items: seq<Item>, fates: seq<Fate>,
                                     before: Option<seq<Image>>)
    requires Tells(w, before)
    ensures Tells(ItemsSpec(w, rec, resume, items, fates).w, before)
    decreases |items|
  {
    if items != [] && fates != [] {
      var o := ItemSpec(w, rec, resume, items[0], fates[0]);
      if items[0].Run? {
        StepTells(w, rec, resume, items[0].name, fates[0], before);
      } else {
        SaveTells(w, w.running, fates[0].readable, fates[0].after, false, before);
      }
      if o.ok { ItemsTell(o.w, o.rec, resume, items[1..], fates[1..], before); }
    }
  }

  lemma FinishTells(w: World, f: FinishFate, before: Option<seq<Image>>)
    requires Tells(w, before)
    ensures Tells(FinishSpec(w, f), before)
  {
    AppendTells(w, Finished, FinishSpec(w, f), before);
  }

  lemma AttemptTells(o: OpenOut, resume: bool, plan: seq<Item>, fates: seq<Fate>, fin: FinishFate,
                     before: Option<seq<Image>>)
    requires Tells(o.w, before)
    ensures Tells(AttemptSpec(o, resume, plan, fates, fin), before)
  {
    if o.rec.Some? {
      ItemsTell(o.w, o.rec.value, resume, plan, fates, before);
      FinishTells(ItemsSpec(o.w, o.rec.value, resume, plan, fates).w, fin, before);
    }
  }

  lemma BeginTells(w: World, commit: string, f: OpenFate, before: Option<seq<Image>>)
    requires Tells(w, before)
    ensures Tells(BeginSpec(w, commit, f).w, before)
  {
    LastSavedAppend(w.log, ReleaseWorld.Fresh, before);
  }

  lemma ReopenTells(w: World, commit: string, f: OpenFate, before: Option<seq<Image>>)
    requires Tells(w, before)
    ensures Tells(ResumeSpec(w, commit, f).w, before)
  {
  }

  lemma ProtectTells(w: World, on: bool, readable: bool, f: WriteFate, before: Option<seq<Image>>)
    requires Tells(w, before)
    ensures Tells(SetProtected(w, on, readable, f).0, before)
  {
  }

  lemma ClearTells(w: World, op: Op, before: Option<seq<Image>>)
    requires Tells(w, before) && op.Clear?
    ensures Tells(OpSpec(w, op), before)
  {
    var w1 := ClearProtected(w, op);
    ProtectTells(w, true, op.readsTarget, op.protect, before);
    AppendTells(w1, Cleared, w1.(log := w1.log + [Cleared]), before);
    ClearIs(w, op);
  }

  lemma RollbackTells(w: World, op: Op, before: Option<seq<Image>>)
    requires Tells(w, before) && op.Rollback?
    ensures Tells(OpSpec(w, op), before)
  {
    var w1 := w.(running := op.left);
    var w2 := w1.(log := w1.log + [Applied]);
    AppendTells(w1, Applied, w2, before);
    ProtectTells(w2, false, op.readsAgain, op.unprotect, before);
  }

  lemma OpTells(w: World, op: Op, before: Option<seq<Image>>)
    requires Tells(w, before)
    ensures Tells(OpSpec(w, op), before)
  {
    match op
    case Release(plan, commit, open, fates, fin) =>
      BeginTells(w, commit, open, before);
      AttemptTells(BeginSpec(w, commit, open), false, plan, fates, fin, before);
    case Resume(plan, commit, open, fates, fin) =>
      ReopenTells(w, commit, open, before);
      AttemptTells(ResumeSpec(w, commit, open), true, plan, fates, fin, before);
    case Update(svcs, stops, rt, save, cut, left) =>
      SaveTells(w, Wanted(w.running, svcs), rt, save, true, before);
    case Clear(rr, rt, protect, remove) =>
      ClearTells(w, op, before);
    case Rollback(rt, present, up, left, ra, unprotect) =>
      RollbackTells(w, op, before);
  }

  lemma {:induction false} RunTells(w: World, ops: seq<Op>, before: Option<seq<Image>>)
    requires Tells(w, before)
    ensures Tells(RunOps(w, ops), before)
    decreases |ops|
  {
    if ops != [] {
      OpTells(w, ops[0], before);
      RunTells(OpSpec(w, ops[0]), ops[1..], before);
    }
  }

  /** Event k is the beginning of the current record's deploy, and no update has saved since. */
  predicate DeployBegan(log: seq<Event>, k: nat) {
    && k < |log| && log[k].Began? && log[k].name == "deploy"
    && forall i | k < i < |log| :: !log[i].Fresh? && !(log[i].Saved? && log[i].update)
  }

  lemma {:induction false} StillBegun(log: seq<Event>, k: nat)
    requires k < |log| && log[k].Began? && log[k].name == "deploy" && forall i | k < i < |log| :: !log[i].Fresh?
    ensures "deploy" in BegunSince(log)
    decreases |log|
  {
    if k < |log| - 1 { StillBegun(log[..|log| - 1], k); }
  }

  lemma {:induction false} NoSaveSince(log: seq<Event>, k: nat, before: Option<seq<Image>>)
    requires k < |log| && !log[k].Saved? && EarlySaves(log) && DeployBegan(log, k)
    ensures LastSaved(log, before) == LastSaved(log[..k], before)
    decreases |log|
  {
    var rest := log[..|log| - 1];
    if k < |log| - 1 {
      StillBegun(rest, k);
      assert rest[..k] == log[..k];
      forall i | 0 <= i < |rest| && rest[i].Saved? && !rest[i].update ensures "deploy" !in BegunSince(rest[..i]) {
        assert rest[..i] == log[..i];
      }
      NoSaveSince(rest, k, before);
    }
  }

  /** Over every chain from an untouched host: once a record's deploy has begun, and until an update saves,
      the rollback record holds what was recorded before that deploy began. */
  lemma HoldsWhatWasBeforeDeploy(w: World, ops: seq<Op>, k: nat)
    requires Untouched(w) && forall op | op in ops :: OfManifest(op)
    requires DeployBegan(RunOps(w, ops).log, k)
    ensures var w' := RunOps(w, ops);
            TargetImages(w') == LastSaved(w'.log[..k], TargetImages(w))
  {
    ReleasesSaveBeforeDeploy(w, ops);
    RunTells(w, ops, TargetImages(w));
    NoSaveSince(RunOps(w, ops).log, k, TargetImages(w));
  }

  /** The whole promise: a half-applied release is cleared, no update having saved since its deploy began.
      From then on, updates and new releases included, until a release finishes or a rollback is applied,
      the record holds what was recorded before that deploy, not what the deploy left running. */
  lemma ClearedRecordPredatesDeploy(w: World, ops: seq<Op>, k: nat, clear: Op, later: seq<Op>)
    requires Untouched(w) && forall op | op in ops :: OfManifest(op)
    requires var half := RunOps(w, ops);
             && DeployBegan(half.log, k) && half.record.Some? && Unsafe(half.record.value) && half.target.Some?
             && clear.Clear? && OpSpec(half, clear).record.None?
             && NoLift(RunOps(OpSpec(half, clear), later).log, |OpSpec(half, clear).log|)
    ensures var half := RunOps(w, ops);
            TargetImages(RunOps(OpSpec(half, clear), later)) == LastSaved(half.log[..k], TargetImages(w))
  {
    HoldsWhatWasBeforeDeploy(w, ops, k);
    ClearedStaysProtected(RunOps(w, ops), clear, later);
  }
}
