/** The commands as the program runs them, over a host it changes and a record it keeps in memory:
    internal/cli's relRun.step, releaseStack, runReleaseClear, recordRollback, runStackRollback and
    recordingRunner. Each method is proved against its function in ReleaseWorld. */
module ReleaseRun {
  import opened Text
  import opened ReleaseState
  import opened ReleaseWorld

  class Host {
    var record: Option<Record>
    var lock: bool
    var target: Option<Target>
    var running: seq<Image>
    ghost var log: seq<Event>

    ghost function State(): World
      reads this
    {
      World(record, lock, target, running, log)
    }

    method Write(r: Record, f: WriteFate) returns (ok: bool)
      modifies this
      ensures State() == WriteRecord(old(State()), r, f) && ok == (f == Acked)
    {
      if f != Lost {
        record := Some(r);
        log := log + [Wrote(r)];
      }
      ok := f == Acked;
    }

    method RemoveRecord(f: WriteFate)
      modifies this
      ensures State() == Remove(old(State()), f)
    {
      if f != Lost {
        record, lock := None, false;
      }
    }

    method Note(ghost e: Event)
      modifies this`log
      ensures log == old(log) + [e]
    {
      log := log + [e];
    }

    method SaveTarget(imgs: seq<Image>, readable: bool, f: WriteFate, ghost update: bool) returns (kept: bool)
      modifies this
      ensures State() == Save(old(State()), imgs, readable, f, update)
      ensures kept <==> readable && old(target).Some? && old(target).value.protected
    {
      if !readable { return false; }
      if target.Some? && target.value.protected { return true; }
      var kepts := FromCompose(imgs);
      if f != Lost {
        target := Some(Target(kepts, false));
        log := log + [Saved(kepts, update)];
      }
      return false;
    }

    method Protect(on: bool, readable: bool, f: WriteFate) returns (ok: bool)
      modifies this
      ensures (State(), ok) == SetProtected(old(State()), on, readable, f)
    {
      if !readable { return false; }
      if target.None? || target.value.protected == on { return true; }
      if f != Lost { target := Some(target.value.(protected := on)); }
      return f == Acked;
    }

    method Acquire(f: WriteFate) returns (ok: bool)
      modifies this
      ensures ok <==> !old(lock) && f == Acked
      ensures State() == if old(lock) || f == Lost then old(State()) else old(State()).(lock := true)
    {
      if lock { return false; }
      if f != Lost { lock := true; }
      return f == Acked;
    }

    method Release(f: WriteFate)
      modifies this
      ensures State() == Unlock(old(State()), f)
    {
      if f != Lost { lock := false; }
    }
  }

  /** rollback.FromCompose: the services with a running image and a tag. */
  method FromCompose(imgs: seq<Image>) returns (r: seq<Image>)
    ensures r == Recorded(imgs)
  {
    r := [];
    for i := 0 to |imgs|
      invariant r + Recorded(imgs[i..]) == Recorded(imgs)
    {
      assert imgs[i..][1..] == imgs[i + 1..];
      if imgs[i].id != "" && imgs[i].ref != "" {
        assert r + ([imgs[i]] + Recorded(imgs[i + 1..])) == r + [imgs[i]] + Recorded(imgs[i + 1..]);
        r := r + [imgs[i]];
      }
    }
    assert imgs[|imgs|..] == [];
  }

  class RelRun {
    const host: Host
    const st: State
    const resume: bool

    constructor (host: Host, st: State, resume: bool)
      ensures this.host == host && this.st == st && this.resume == resume
    {
      this.host, this.st, this.resume := host, st, resume;
    }

    /** relRun.step: mark and write started, run, mark and write the outcome. */
    method Step(name: string, f: Fate) returns (ok: bool)
      modifies host, st
      ensures StepOut(host.State(), st.rec, ok) == StepSpec(old(host.State()), old(st.rec), resume, name, f)
    {
      if resume {
        var done := st.CheckDone(name);
        if done { return true; }
      }
      st.Mark(name, Started);
      var written := host.Write(st.rec, f.before);
      if !written { return false; }
      host.Note(Began(name, host.record, f.action));
      host.running := f.left;
      if f.note.Some? {
        st.rec := st.rec.(backupFile := f.note.value);
        var _ := host.Write(st.rec, f.noted);
      }
      match f.action
      case Cut =>
        return false;
      case Fails =>
        st.Mark(name, Failed);
        var _ := host.Write(st.rec, f.after);
        return false;
      case Succeeds =>
        st.Mark(name, Done);
        ok := host.Write(st.rec, f.after);
    }

    method RunItem(item: Item, f: Fate) returns (ok: bool)
      modifies host, st
      ensures StepOut(host.State(), st.rec, ok) == ItemSpec(old(host.State()), old(st.rec), resume, item, f)
    {
      match item
      case Run(name) =>
        ok := Step(name, f);
      case SaveImages =>
        var deployed := st.CheckDone("deploy");
        if !deployed {
          var imgs := host.running;
          var _ := host.SaveTarget(imgs, f.readable, f.after, false);
        }
        ok := true;
    }

    /** The body of releaseStack between opening the record and the finish. */
    method RunPlan(items: seq<Item>, fates: seq<Fate>) returns (ok: bool)
      modifies host, st
      ensures StepOut(host.State(), st.rec, ok) == ItemsSpec(old(host.State()), old(st.rec), resume, items, fates)
    {
      ghost var goal := ItemsSpec(host.State(), st.rec, resume, items, fates);
      var i := 0;
      assert items[0..] == items && fates[0..] == fates;
      while i < |items|
        invariant 0 <= i <= |items| && i <= |fates|
        invariant ItemsSpec(host.State(), st.rec, resume, items[i..], fates[i..]) == goal
      {
        if i == |fates| { return false; }
        ghost var w, rec := host.State(), st.rec;
        ok := RunItem(items[i], fates[i]);
        OneItem(w, rec, resume, items, fates, i, StepOut(host.State(), st.rec, ok));
        if !ok { return false; }
        i := i + 1;
      }
      return true;
    }
  }

  lemma OneItem(w: World, rec: Record, resume: bool, items: seq<Item>, fates: seq<Fate>, i: nat, o: StepOut)
    requires i < |items| && i < |fates| && o == ItemSpec(w, rec, resume, items[i], fates[i])
    ensures ItemsSpec(w, rec, resume, items[i..], fates[i..])
            == if o.ok then ItemsSpec(o.w, o.rec, resume, items[i + 1..], fates[i + 1..]) else o
  {
    assert items[i..][1..] == items[i + 1..] && fates[i..][1..] == fates[i + 1..];
  }

  method Finish(host: Host, f: FinishFate)
    modifies host
    ensures host.State() == FinishSpec(old(host.State()), f)
  {
    host.Note(Finished);
    host.RemoveRecord(f.remove);
    if !f.cut {
      var _ := host.Protect(false, f.readable, f.unprotect);
    }
  }

  /** releasestate.Begin: read and write under the lock. */
  method Begin(host: Host, commit: string, f: OpenFate) returns (r: Option<Record>)
    modifies host
    ensures OpenOut(host.State(), r) == BeginSpec(old(host.State()), commit, f)
  {
    var locked := host.Acquire(f.lock);
    if !locked { return None; }
    if !f.readable || host.record.Some? {
      host.Release(f.unlock);
      return None;
    }
    var r0 := FreshRecord(commit);
    if f.write != Lost {
      host.record := Some(r0);
      host.Note(Fresh);
    }
    host.Release(f.unlock);
    return if f.write == Acked then Some(r0) else None;
  }

  /** releasestate.Open and the refusals that follow it in releaseStack. */
  method Reopen(host: Host, commit: string, f: OpenFate) returns (r: Option<Record>)
    modifies host
    ensures OpenOut(host.State(), r) == ResumeSpec(old(host.State()), commit, f)
  {
    var locked := host.Acquire(f.lock);
    if !locked { return None; }
    var prev := host.record;
    host.Release(f.unlock);
    if !f.readable || prev.None? || f.active { return None; }
    var st := new State(prev.value);
    var bad := st.CheckUnsafe();
    if bad { return None; }
    if commit != "" && prev.value.commit != "" && commit != prev.value.commit { return None; }
    return prev;
  }

  /** stack release, with or without --resume. */
  method ReleaseStack(host: Host, resume: bool, plan: seq<Item>, commit: string, open: OpenFate,
                      fates: seq<Fate>, fin: FinishFate)
    modifies host
    ensures host.State() == OpSpec(old(host.State()), if resume then Op.Resume(plan, commit, open, fates, fin)
                                                      else Op.Release(plan, commit, open, fates, fin))
  {
    var rec: Option<Record>;
    if resume {
      rec := Reopen(host, commit, open);
    } else {
      rec := Begin(host, commit, open);
    }
    if rec.None? { return; }
    var st := new State(rec.value);
    var rr := new RelRun(host, st, resume);
    var ok := rr.RunPlan(plan, fates);
    if ok {
      Finish(host, fin);
    } else if |st.rec.steps| == 0 {
      host.RemoveRecord(fin.remove);
    }
  }

  /** stack release --clear. */
  method ReleaseClear(host: Host, readsRecord: bool, readsTarget: bool, protect: WriteFate, remove: WriteFate)
    modifies host
    ensures host.State() == OpSpec(old(host.State()), Clear(readsRecord, readsTarget, protect, remove))
  {
    if !readsRecord { return; }
    var prev := host.record;
    if prev.Some? {
      var st := new State(prev.value);
      var bad := st.CheckUnsafe();
      if bad {
        var ok := host.Protect(true, readsTarget, protect);
        if !ok { return; }
      }
      if remove != Lost { host.Note(Cleared); }
    }
    host.RemoveRecord(remove);
  }

  /** stack rollback. */
  method StackRollback(host: Host, readsTarget: bool, present: bool, up: Outcome, left: seq<Image>,
                       readsAgain: bool, unprotect: WriteFate)
    modifies host
    ensures host.State() == OpSpec(old(host.State()), Rollback(readsTarget, present, up, left, readsAgain, unprotect))
  {
    if !readsTarget { return; }
    var rec := host.target;
    if rec.None? || rec.value.images == [] || !present { return; }
    host.running := left;
    if up != Succeeds { return; }
    host.Note(Applied);
    var _ := host.Protect(false, readsAgain, unprotect);
  }

  /** compose.Images: the loop over the services, skipping those not asked for. */
  method ReadImages(running: seq<Image>, svcs: set<string>) returns (r: seq<Image>)
    ensures r == Wanted(running, svcs)
  {
    var wanted := svcs - {""};
    r := [];
    assert running[0..] == running && [] + Wanted(running, svcs) == Wanted(running, svcs);
    for i := 0 to |running|
      invariant r + Wanted(running[i..], svcs) == Wanted(running, svcs)
    {
      assert running[i..][1..] == running[i + 1..];
      var svc := running[i].service;
      if |wanted| > 0 && svc !in wanted {
        assert r + [] == r && [] + Wanted(running[i + 1..], svcs) == Wanted(running[i + 1..], svcs);
        continue;
      }
      assert r + ([running[i]] + Wanted(running[i + 1..], svcs)) == r + [running[i]] + Wanted(running[i + 1..], svcs);
      r := r + [running[i]];
    }
    assert running[|running|..] == [] && r + [] == r;
  }

  /** recordingRunner: the images read first are the ones saved, once, before the first Up. */
  class RecordingRunner {
    const host: Host
    var imgs: Option<seq<Image>>
    var saved: bool

    constructor (host: Host)
      ensures this.host == host && imgs == None && !saved
    {
      this.host, imgs, saved := host, None, false;
    }

    method Images(svcs: set<string>) returns (r: seq<Image>)
      modifies this
      ensures r == Wanted(host.running, svcs) && saved == old(saved)
      ensures imgs == if !saved && old(imgs).None? then Some(r) else old(imgs)
    {
      r := ReadImages(host.running, svcs);
      if !saved && imgs.None? { imgs := Some(r); }
    }

    method Up(readable: bool, save: WriteFate, cut: bool, left: seq<Image>)
      modifies this, host
      ensures saved && imgs == old(imgs)
      ensures var w := if old(saved) then old(host.State())
                       else Save(old(host.State()), if old(imgs).Some? then old(imgs).value else [], readable, save, true);
              host.State() == if cut then w else w.(running := left)
    {
      if !saved {
        saved := true;
        var _ := host.SaveTarget(if imgs.Some? then imgs.value else [], readable, save, true);
      }
      if !cut { host.running := left; }
    }
  }

  /** stack update, with the second compose up of a failed health check when `undo` says so. */
  method StackUpdate(host: Host, svcs: set<string>, stops: bool, readsTarget: bool, save: WriteFate, cut: bool,
                     left: seq<Image>, undo: Option<seq<Image>>)
    modifies host
    ensures host.State() == OpSpec(old(host.State()),
                                   Update(svcs, stops, readsTarget, save, cut,
                                          if undo.Some? then undo.value else left))
  {
    var rec := new RecordingRunner(host);
    var imgs := rec.Images(svcs);
    if stops { return; }
    rec.Up(readsTarget, save, cut, left);
    if !cut && undo.Some? { rec.Up(readsTarget, save, false, undo.value); }
  }
}
