/** What release, resume, clear, update and rollback do to one host, as functions over its state.
    Every remote call is an oracle: a fate says whether it took effect and whether the client learned
    so. A client that dies is a client that never learns, so the fates also cover a cut anywhere. */
module ReleaseWorld {
  import opened Text
  import opened ReleaseState

  /** One service as it runs: internal/rollback's Image. */
  datatype Image = Image(service: string, ref: string, id: string)

  /** The rollback record next to the backups. */
  datatype Target = Target(images: seq<Image>, protected: bool)

  datatype Event =
    | Fresh                                       // a release began a new record
    | Wrote(rec: Record)                          // the record on the host was replaced
    | Began(name: string, seen: Option<Record>, how: Outcome)  // an action started and how it went; seen is the record then
    | Saved(images: seq<Image>, update: bool)     // the rollback record was replaced, by an update or a release
    | Finished                                    // a release reached its end
    | Applied                                     // a rollback put the recorded images back
    | Cleared                                     // a release record was dropped by --clear

  datatype World = World(record: Option<Record>, lock: bool, target: Option<Target>,
                         running: seq<Image>, log: seq<Event>)

  /** Acked: done and confirmed. Landed: done, but the client never heard. Lost: not done. */
  datatype WriteFate = Acked | Landed | Lost

  predicate Took(f: WriteFate) { f != Lost }

  datatype Outcome = Succeeds | Fails | Cut

  /** What happens to one item of the plan. `left` is what runs on the host once the action has run
      or stopped part way; `note` is the backup file the backup step records while it runs. */
  datatype Fate = Fate(before: WriteFate, action: Outcome, left: seq<Image>, note: Option<string>,
                       noted: WriteFate, after: WriteFate, readable: bool)

  datatype OpenFate = OpenFate(lock: WriteFate, readable: bool, write: WriteFate, unlock: WriteFate, active: bool)

  datatype FinishFate = FinishFate(remove: WriteFate, cut: bool, readable: bool, unprotect: WriteFate)

  // ----- the plan -----

  /** What of a manifest and its flags decides the steps. */
  datatype Manifest = Manifest(noBackup: bool, managed: bool, strategies: bool, sync: seq<string>,
                               noCompose: bool, noBuild: bool, builds: seq<string>, pre: nat,
                               tls: bool, post: nat, verify: bool)

  datatype Item = Run(name: string) | SaveImages

  function Runs(prefix: string, names: seq<string>): (items: seq<Item>)
    ensures |items| == |names|
    ensures forall i | 0 <= i < |names| :: items[i] == Run(prefix + names[i])
  {
    seq(|names|, i requires 0 <= i < |names| => Run(prefix + names[i]))
  }

  function Numbered(prefix: string, n: nat): (items: seq<Item>)
    ensures |items| == n
    ensures forall i | 0 <= i < n :: items[i] == Run(prefix + Decimal(i + 1))
  {
    seq(n, i requires 0 <= i < n => Run(prefix + Decimal(i + 1)))
  }

  function When(b: bool, items: seq<Item>): seq<Item> { if b then items else [] }

  function Blocks(m: Manifest): seq<seq<Item>> {
    [ When(!m.noBackup && m.managed, [Run("managed-snapshot")]),
      When(!m.noBackup && m.strategies, [Run("backup")]),
      Runs("sync:", m.sync),
      When(!m.noCompose, [Run("check-names"), SaveImages]),
      When(!m.noBuild, Runs("build:", m.builds)),
      Numbered("pre:", m.pre),
      When(!m.noCompose, [Run("deploy")]),
      When(m.tls, [Run("tls")]),
      Numbered("post:", m.post),
      When(m.verify, [Run("verify")]) ]
  }

  /** The ordered steps of releaseStack, with the saving of the images in its place among them. */
  function Plan(m: Manifest): seq<Item> { Concat(Blocks(m)) }

  // ----- single effects -----

  function WriteRecord(w: World, r: Record, f: WriteFate): World {
    if Took(f) then w.(record := Some(r), log := w.log + [Wrote(r)]) else w
  }

  function RunAction(w: World, name: string, f: Fate): World {
    w.(running := f.left, log := w.log + [Began(name, w.record, f.action)])
  }

  function Remove(w: World, f: WriteFate): World {
    if Took(f) then w.(record := None, lock := false) else w
  }

  function Unlock(w: World, f: WriteFate): World {
    if Took(f) then w.(lock := false) else w
  }

  /** Only a service with a running image and a tag to put it back under can be rolled back. */
  function Recorded(running: seq<Image>): seq<Image> {
    if running == [] then []
    else if running[0].id == "" || running[0].ref == "" then Recorded(running[1..])
    else [running[0]] + Recorded(running[1..])
  }

  /** rollback.Save: a protected record is kept, and so is one that cannot be read. */
  function Save(w: World, running: seq<Image>, readable: bool, f: WriteFate, update: bool): World {
    if !readable || (w.target.Some? && w.target.value.protected) || !Took(f) then w
    else w.(target := Some(Target(Recorded(running), false)), log := w.log + [Saved(Recorded(running), update)])
  }

  /** compose.Images: the services asked for, all of them when none is named. */
  function Wanted(running: seq<Image>, svcs: set<string>): seq<Image> {
    if running == [] then []
    else (if svcs <= {""} || (running[0].service != "" && running[0].service in svcs) then [running[0]] else [])
         + Wanted(running[1..], svcs)
  }

  /** rollback.SetProtected, with whether it returned no error. */
  function SetProtected(w: World, on: bool, readable: bool, f: WriteFate): (World, bool) {
    if !readable then (w, false)
    else if w.target.None? || w.target.value.protected == on then (w, true)
    else (if Took(f) then w.(target := Some(w.target.value.(protected := on))) else w, f == Acked)
  }

  // ----- one step -----

  datatype StepOut = StepOut(w: World, rec: Record, ok: bool)

  /** The record while the action runs: the backup step writes the file it made into it. */
  function NoteBackup(w: World, r: Record, f: Fate): (World, Record) {
    if f.note.None? then (w, r)
    else
      var r' := r.(backupFile := f.note.value);
      (WriteRecord(w, r', f.noted), r')
  }

  function StepSpec(w: World, rec: Record, resume: bool, name: string, f: Fate): StepOut {
    if resume && IsDone(rec, name) then StepOut(w, rec, true)
    else
      var r1 := Marked(rec, name, Started);
      var w1 := WriteRecord(w, r1, f.before);
      if f.before != Acked then StepOut(w1, r1, false)
      else
        var (w2, r2) := NoteBackup(RunAction(w1, name, f), r1, f);
        match f.action
        case Cut => StepOut(w2, r2, false)
        case Fails =>
          var r3 := Marked(r2, name, Failed);
          StepOut(WriteRecord(w2, r3, f.after), r3, false)
        case Succeeds =>
          var r3 := Marked(r2, name, Done);
          StepOut(WriteRecord(w2, r3, f.after), r3, f.after == Acked)
  }

  function ItemSpec(w: World, rec: Record, resume: bool, item: Item, f: Fate): StepOut {
    match item
    case Run(name) => StepSpec(w, rec, resume, name, f)
    case SaveImages =>
      if IsDone(rec, "deploy") then StepOut(w, rec, true)
      else StepOut(Save(w, w.running, f.readable, f.after, false), rec, true)
  }

  /** The items in order until one stops the release or the client is cut (no fates left). */
  function ItemsSpec(w: World, rec: Record, resume: bool, items: seq<Item>, fates: seq<Fate>): StepOut
    decreases |items|
  {
    if items == [] then StepOut(w, rec, true)
    else if fates == [] then StepOut(w, rec, false)
    else
      var o := ItemSpec(w, rec, resume, items[0], fates[0]);
      if o.ok then ItemsSpec(o.w, o.rec, resume, items[1..], fates[1..]) else o
  }

  function FinishSpec(w: World, f: FinishFate): World {
    var w1 := Remove(w.(log := w.log + [Finished]), f.remove);
    if f.cut then w1 else SetProtected(w1, false, f.readable, f.unprotect).0
  }

  // ----- opening a record -----

  function FreshRecord(commit: string): Record { Record(commit, "", []) }

  datatype OpenOut = OpenOut(w: World, rec: Option<Record>)

  /** releasestate.Begin. */
  function BeginSpec(w: World, commit: string, f: OpenFate): OpenOut {
    if w.lock || f.lock == Lost then OpenOut(w, None)
    else if f.lock == Landed then OpenOut(w.(lock := true), None)
    else
      var w1 := w.(lock := true);
      if !f.readable || w1.record.Some? then OpenOut(Unlock(w1, f.unlock), None)
      else
        var r := FreshRecord(commit);
        var w2 := if Took(f.write) then w1.(record := Some(r), log := w1.log + [Fresh]) else w1;
        OpenOut(Unlock(w2, f.unlock), if f.write == Acked then Some(r) else None)
  }

  predicate CommitClash(commit: string, r: Record) {
    commit != "" && r.commit != "" && commit != r.commit
  }

  /** releasestate.Open and the refusals of --resume after it. */
  function ResumeSpec(w: World, commit: string, f: OpenFate): OpenOut {
    if w.lock || f.lock == Lost then OpenOut(w, None)
    else if f.lock == Landed then OpenOut(w.(lock := true), None)
    else
      var w1 := Unlock(w.(lock := true), f.unlock);
      if !f.readable || w.record.None? || f.active || Unsafe(w.record.value) || CommitClash(commit, w.record.value)
      then OpenOut(w1, None)
      else OpenOut(w1, w.record)
  }

  // ----- whole commands -----

  datatype Op =
    | Release(plan: seq<Item>, commit: string, open: OpenFate, fates: seq<Fate>, fin: FinishFate)
    | Resume(plan: seq<Item>, commit: string, open: OpenFate, fates: seq<Fate>, fin: FinishFate)
    | Clear(readsRecord: bool, readsTarget: bool, protect: WriteFate, remove: WriteFate)
    | Update(svcs: set<string>, stops: bool, readsTarget: bool, save: WriteFate, cut: bool, left: seq<Image>)
    | Rollback(readsTarget: bool, present: bool, up: Outcome, left: seq<Image>, readsAgain: bool, unprotect: WriteFate)

  /** An attempt that stops before any step is marked removes its record; one that is cut removes nothing,
      which is a lost removal. */
  function AttemptSpec(o: OpenOut, resume: bool, plan: seq<Item>, fates: seq<Fate>, fin: FinishFate): World {
    if o.rec.None? then o.w
    else
      var s := ItemsSpec(o.w, o.rec.value, resume, plan, fates);
      if s.ok then FinishSpec(s.w, fin)
      else if s.rec.steps == [] then Remove(s.w, fin.remove)
      else s.w
  }

  function ClearSpec(w: World, readsRecord: bool, readsTarget: bool, protect: WriteFate, remove: WriteFate): World {
    if !readsRecord then w
    else
      var (w1, ok) := if w.record.Some? && Unsafe(w.record.value)
                      then SetProtected(w, true, readsTarget, protect) else (w, true);
      if !ok then w1
      else if w.record.Some? && Took(remove) then Remove(w1.(log := w1.log + [Cleared]), remove)
      else Remove(w1, remove)
  }

  /** stack update: the images read first are saved just before the first compose up. */
  function UpdateSpec(w: World, svcs: set<string>, stops: bool, readsTarget: bool, save: WriteFate, cut: bool,
                      left: seq<Image>): World
  {
    if stops then w
    else
      var w1 := Save(w, Wanted(w.running, svcs), readsTarget, save, true);
      if cut then w1 else w1.(running := left)
  }

  function RollbackSpec(w: World, readsTarget: bool, present: bool, up: Outcome, left: seq<Image>,
                        readsAgain: bool, unprotect: WriteFate): World
  {
    if !readsTarget || w.target.None? || w.target.value.images == [] || !present then w
    else
      var w1 := w.(running := left);
      if up != Succeeds then w1
      else SetProtected(w1.(log := w1.log + [Applied]), false, readsAgain, unprotect).0
  }

  function OpSpec(w: World, op: Op): World {
    match op
    case Release(plan, commit, open, fates, fin) => AttemptSpec(BeginSpec(w, commit, open), false, plan, fates, fin)
    case Resume(plan, commit, open, fates, fin) => AttemptSpec(ResumeSpec(w, commit, open), true, plan, fates, fin)
    case Clear(rr, rt, protect, remove) => ClearSpec(w, rr, rt, protect, remove)
    case Update(svcs, stops, rt, save, cut, left) => UpdateSpec(w, svcs, stops, rt, save, cut, left)
    case Rollback(rt, present, up, left, ra, unprotect) => RollbackSpec(w, rt, present, up, left, ra, unprotect)
  }

  function RunOps(w: World, ops: seq<Op>): World
    decreases |ops|
  {
    if ops == [] then w else RunOps(OpSpec(w, ops[0]), ops[1..])
  }

  /** A host before the first release: nothing recorded, anything running. */
  predicate Untouched(w: World) {
    w.record == None && w.log == []
  }
}
