/** Bringing a GitHub runner up on a VM: internal/ghrunner's Install and Remove, over any chain of attempts
    each stopped anywhere. */
module RunnerInstall {
  import opened RunnerScripts

  // ----- Install -----

  /** What one attempt meets: the repo's visibility, the connection, the release and the token, how far
      each script gets, and the VM's luck. */
  datatype Meets = Meets(private: bool, dials: bool, probes: bool, release: bool, token: bool,
                         installCut: nat, configCut: nat, serviceCut: nat, luck: Luck)

  datatype Cmd = Probe | InstallCmd | ConfigCmd | ServiceCmd | StartCmd

  datatype Report = Report(alreadyReady: bool, installed: bool, configured: bool, serviceInstalled: bool,
                           started: bool, limitsApplied: bool)

  const NONE := Report(false, false, false, false, false, false)

  /** The VM afterwards, the commands sent to it, the report, and whether Install returned no error. */
  datatype Outcome = Outcome(vm: Vm, sent: seq<Cmd>, rep: Report, ok: bool)

  predicate KnownArch(uname: string) { uname == "aarch64" || uname == "arm64" || uname == "x86_64" }

  predicate ReadyState(vm: Vm) { vm.marker && vm.runner && vm.service != "" }

  function InstallSpec(vm: Vm, limits: bool, m: Meets): Outcome {
    if !m.private || !m.dials then Outcome(vm, [], NONE, false)
    else if !m.probes || !KnownArch(vm.uname) then Outcome(vm, [Probe], NONE, false)
    else
      var out := if ReadyState(vm) then ReadySpec(vm, limits, m) else UnpackSpec(vm, m);
      out.(sent := [Probe] + out.sent)
  }

  function ReadySpec(vm: Vm, limits: bool, m: Meets): Outcome {
    if vm.active && !limits then Outcome(vm, [], NONE.(alreadyReady := true), true)
    else
      var (after, ok) := RunScript(if limits then SERVICE else START, vm, m.luck, m.serviceCut);
      Outcome(after, [if limits then ServiceCmd else StartCmd],
              NONE.(alreadyReady := vm.active, started := ok && !vm.active, limitsApplied := ok && limits), ok)
  }

  /** The missing steps, as the probe saw them; the probe itself is not among the commands. */
  function UnpackSpec(vm: Vm, m: Meets): Outcome {
    if vm.marker then ConfigSpec(vm, vm, m, [], NONE)
    else if !m.release then Outcome(vm, [], NONE, false)
    else
      var (after, ok) := RunScript(INSTALL, vm, m.luck, m.installCut);
      if ok then ConfigSpec(vm, after, m, [InstallCmd], NONE.(installed := true))
      else Outcome(after, [InstallCmd], NONE, false)
  }

  /** `seen` is the VM as the probe saw it: what was done since does not change what is still to do. */
  function ConfigSpec(seen: Vm, vm: Vm, m: Meets, sent: seq<Cmd>, rep: Report): Outcome {
    if seen.runner then ServiceSpec(seen, vm, m, sent, rep)
    else if !m.token then Outcome(vm, sent, rep, false)
    else
      var (after, ok) := RunScript(CONFIG, vm, m.luck, m.configCut);
      if ok then ServiceSpec(seen, after, m, sent + [ConfigCmd], rep.(configured := true))
      else Outcome(after, sent + [ConfigCmd], rep, false)
  }

  function ServiceSpec(seen: Vm, vm: Vm, m: Meets, sent: seq<Cmd>, rep: Report): Outcome {
    var (after, ok) := RunScript(SERVICE, vm, m.luck, m.serviceCut);
    Outcome(after, sent + [ServiceCmd], rep.(serviceInstalled := seen.service == "", started := ok), ok)
  }

  class Host {
    var vm: Vm
    var sent: seq<Cmd>

    constructor (vm: Vm)
      ensures this.vm == vm && sent == []
    {
      this.vm := vm;
      sent := [];
    }

    method Run(cmd: Cmd, ls: seq<Line>, k: Luck, cut: nat) returns (ok: bool)
      modifies this
      ensures (vm, ok) == RunScript(ls, old(vm), k, cut) && sent == old(sent) + [cmd]
    {
      sent := sent + [cmd];
      ok := true;
      var left := cut;
      assert ls[0..] == ls;
      for i := 0 to |ls|
        invariant ok && sent == old(sent) + [cmd]
        invariant RunScript(ls[i..], vm, k, left) == RunScript(ls, old(vm), k, cut)
      {
        assert ls[i..][1..] == ls[i + 1..];
        if left == 0 { return false; }
        var next := Effect(ls[i], vm, k);
        if next.None? { return false; }
        vm := next.value;
        left := left - 1;
      }
    }
  }

  method Install(h: Host, limits: bool, m: Meets) returns (rep: Report, ok: bool)
    modifies h
    ensures var out := InstallSpec(old(h.vm), limits, m);
            h.vm == out.vm && h.sent == old(h.sent) + out.sent && rep == out.rep && ok == out.ok
  {
    rep := NONE;
    if !m.private { return rep, false; }
    if !m.dials { return rep, false; }
    ghost var was := h.sent;
    h.sent := h.sent + [Probe];
    if !m.probes { return rep, false; }
    var st := h.vm;
    if !KnownArch(st.uname) { return rep, false; }

    if st.marker && st.runner && st.service != "" {
      rep, ok := Installed(h, st, limits, m);
      AfterProbe(was, ReadySpec(st, limits, m).sent);
    } else {
      rep, ok := Unpacking(h, st, m);
      AfterProbe(was, UnpackSpec(st, m).sent);
    }
  }

  lemma AfterProbe(was: seq<Cmd>, sent: seq<Cmd>)
    ensures was + [Probe] + sent == was + ([Probe] + sent)
  {
  }

  /** Registered and with its unit: active, or just stopped. */
  method Installed(h: Host, st: Vm, limits: bool, m: Meets) returns (rep: Report, ok: bool)
    requires st == h.vm && ReadyState(st)
    modifies h
    ensures var out := ReadySpec(old(h.vm), limits, m);
            h.vm == out.vm && h.sent == old(h.sent) + out.sent && rep == out.rep && ok == out.ok
  {
    rep := NONE;
    if st.active {
      rep := rep.(alreadyReady := true);
      if limits {
        ok := h.Run(ServiceCmd, SERVICE, m.luck, m.serviceCut);
        if !ok { return; }
        rep := rep.(limitsApplied := true);
      }
      return rep, true;
    }
    if limits {
      ok := h.Run(ServiceCmd, SERVICE, m.luck, m.serviceCut);
    } else {
      ok := h.Run(StartCmd, START, m.luck, m.serviceCut);
    }
    if !ok { return; }
    rep := rep.(started := true, limitsApplied := limits);
  }

  method Unpacking(h: Host, st: Vm, m: Meets) returns (rep: Report, ok: bool)
    requires st == h.vm
    modifies h
    ensures var out := UnpackSpec(old(h.vm), m);
            h.vm == out.vm && h.sent == old(h.sent) + out.sent && rep == out.rep && ok == out.ok
  {
    rep := NONE;
    ghost var sent: seq<Cmd> := [];
    assert h.sent == h.sent + sent;
    if !st.marker {
      if !m.release { return rep, false; }
      ok := h.Run(InstallCmd, INSTALL, m.luck, m.installCut);
      sent := [InstallCmd];
      if !ok { return; }
      rep := rep.(installed := true);
    }
    rep, ok := Configuring(h, st, m, rep, sent, old(h.sent));
  }

  method Configuring(h: Host, st: Vm, m: Meets, rep0: Report, ghost sent: seq<Cmd>, ghost was: seq<Cmd>)
    returns (rep: Report, ok: bool)
    requires h.sent == was + sent && !rep0.started
    modifies h
    ensures var out := ConfigSpec(st, old(h.vm), m, sent, rep0);
            h.vm == out.vm && h.sent == was + out.sent && rep == out.rep && ok == out.ok
  {
    rep := rep0;
    ghost var sent' := sent;
    if !st.runner {
      if !m.token { return rep, false; }
      ok := h.Run(ConfigCmd, CONFIG, m.luck, m.configCut);
      sent' := sent + [ConfigCmd];
      assert was + sent + [ConfigCmd] == was + sent';
      if !ok { return; }
      rep := rep.(configured := true);
    }
    assert was + sent' + [ServiceCmd] == was + (sent' + [ServiceCmd]);
    rep := rep.(serviceInstalled := st.service == "");
    ok := h.Run(ServiceCmd, SERVICE, m.luck, m.serviceCut);
    if !ok { return; }
    rep := rep.(started := true);
  }

  // ----- what every attempt keeps -----

  lemma NoMark(ls: seq<Line>)
    requires ls == CONFIG || ls == SERVICE || ls == START
    ensures Mark !in ls
  {
  }

  lemma ServiceKeeps(seen: Vm, vm: Vm, m: Meets, sent: seq<Cmd>, rep: Report)
    ensures var out := ServiceSpec(seen, vm, m, sent, rep);
            && Keeps(vm, out.vm) && out.vm.registrations == vm.registrations && out.sent == sent + [ServiceCmd]
            && (Sound(vm) && GoodUnit(m.luck.unitName) ==> Sound(out.vm))
  {
    NoMark(SERVICE);
    ScriptKeeps(SERVICE, vm, m.luck, m.serviceCut);
    if Sound(vm) && GoodUnit(m.luck.unitName) { ScriptSound(SERVICE, vm, m.luck, m.serviceCut); }
  }

  lemma ConfigKeeps(seen: Vm, vm: Vm, m: Meets, sent: seq<Cmd>, rep: Report)
    ensures var out := ConfigSpec(seen, vm, m, sent, rep);
            && Keeps(vm, out.vm)
            && (seen.runner ==> out.vm.registrations == vm.registrations && out.sent == sent + [ServiceCmd])
            && (Sound(vm) && GoodUnit(m.luck.unitName) ==> Sound(out.vm))
  {
    if seen.runner {
      ServiceKeeps(seen, vm, m, sent, rep);
    } else if m.token {
      NoMark(CONFIG);
      ScriptKeeps(CONFIG, vm, m.luck, m.configCut);
      var after := RunScript(CONFIG, vm, m.luck, m.configCut).0;
      if Sound(vm) && GoodUnit(m.luck.unitName) { ScriptSound(CONFIG, vm, m.luck, m.configCut); }
      ServiceKeeps(seen, after, m, sent + [ConfigCmd], rep.(configured := true));
    }
  }

  lemma UnpackKeeps(vm: Vm, m: Meets)
    ensures var out := UnpackSpec(vm, m);
            && Keeps(vm, out.vm)
            && (vm.runner ==> out.vm.registrations == vm.registrations && ConfigCmd !in out.sent)
            && (Sound(vm) && GoodUnit(m.luck.unitName) ==> Sound(out.vm))
  {
    if vm.marker {
      ConfigKeeps(vm, vm, m, [], NONE);
    } else if m.release {
      ScriptKeeps(INSTALL, vm, m.luck, m.installCut);
      var after := RunScript(INSTALL, vm, m.luck, m.installCut).0;
      if Sound(vm) && GoodUnit(m.luck.unitName) { InstallSound(vm, m.luck, m.installCut); }
      ConfigKeeps(vm, after, m, [InstallCmd], NONE.(installed := true));
    }
  }

  /** One attempt, whatever it meets and wherever it stops: nothing that was reached is lost, a registered
      runner is not registered again, and the VM stays sound. */
  lemma AttemptKeeps(vm: Vm, limits: bool, m: Meets)
    ensures var out := InstallSpec(vm, limits, m);
            && Keeps(vm, out.vm)
            && (vm.runner ==> out.vm.registrations == vm.registrations && ConfigCmd !in out.sent)
            && (Sound(vm) && GoodUnit(m.luck.unitName) ==> Sound(out.vm))
  {
    if m.private && m.dials && m.probes && KnownArch(vm.uname) {
      if ReadyState(vm) {
        var ls := if limits then SERVICE else START;
        NoMark(ls);
        ScriptKeeps(ls, vm, m.luck, m.serviceCut);
        if Sound(vm) && GoodUnit(m.luck.unitName) { ScriptSound(ls, vm, m.luck, m.serviceCut); }
      } else {
        UnpackKeeps(vm, m);
      }
    }
  }

  /** A runner that is ready gets the probe and nothing else, unless new limits are to be applied. */
  lemma ReadyIsLeftAlone(vm: Vm, m: Meets)
    requires ReadyState(vm) && vm.active
    ensures InstallSpec(vm, false, m).vm == vm
    ensures InstallSpec(vm, false, m).sent == [] || InstallSpec(vm, false, m).sent == [Probe]
  {
  }

  // ----- what is sent, and what is reported -----

  /** The commands a VM in this state is due, after the probe. */
  function Due(vm: Vm, limits: bool): seq<Cmd> {
    if vm.marker && vm.runner && vm.service != "" then
      if limits then [ServiceCmd] else if vm.active then [] else [StartCmd]
    else (if vm.marker then [] else [InstallCmd]) + (if vm.runner then [] else [ConfigCmd]) + [ServiceCmd]
  }

  /** The repo is private, the VM answers, and its architecture has a runner. */
  predicate Reaches(vm: Vm, m: Meets) {
    m.private && m.dials && m.probes && vm.uname in {"aarch64", "arm64", "x86_64"}
  }

  /** A repo that is not private gets no connection at all, and an architecture without a runner only the
      probe. Past that the commands are a front part of what is due, all of it when the attempt succeeds; and
      an attempt that sent all of it and whose last command worked has succeeded. */
  lemma SendsWhatIsDue(vm: Vm, limits: bool, m: Meets)
    ensures var out := InstallSpec(vm, limits, m);
            && (out.sent == [] <==> !m.private || !m.dials)
            && (out.sent != [] ==> out.sent[0] == Probe)
            && (!Reaches(vm, m) ==> out.vm == vm && !out.ok && |out.sent| <= 1)
            && (Reaches(vm, m) ==> out.sent <= [Probe] + Due(vm, limits))
            && (out.ok ==> out.sent == [Probe] + Due(vm, limits))
  {
    if !ReadyState(vm) {
      var a := if vm.marker then [] else [InstallCmd];
      var b := if vm.runner then [] else [ConfigCmd];
      assert Due(vm, limits) == a + b + [ServiceCmd];
      assert [Probe] + (a + b + [ServiceCmd]) == [Probe] + a + b + [ServiceCmd];
    }
  }

  /** Only the last line of the install script writes the marker. */
  lemma MarkerTells(vm: Vm, k: Luck, cut: nat)
    requires !vm.marker
    ensures RunScript(INSTALL, vm, k, cut).0.marker <==> RunScript(INSTALL, vm, k, cut).1
  {
    var first := [CheckDocker, AddUser, Download, CheckDigest, MakeDirs, Unpack, Own, InstallDeps];
    assert INSTALL == first + [Mark];
    ScriptConcat(first, [Mark], vm, k, cut);
    NeverMarks(first, vm, k, cut);
    var r := RunScript(first, vm, k, cut);
    if r.1 && cut > |first| { assert [Mark][1..] == []; }
  }

  lemma {:induction false} NeverMarks(ls: seq<Line>, vm: Vm, k: Luck, cut: nat)
    requires !vm.marker && Mark !in ls
    ensures !RunScript(ls, vm, k, cut).0.marker
    decreases |ls|
  {
    if ls != [] && cut > 0 && Effect(ls[0], vm, k).Some? {
      assert ls[0] in ls && forall l | l in ls[1..] :: l in ls;
      NeverMarks(ls[1..], Effect(ls[0], vm, k).value, k, cut - 1);
    }
  }

  lemma RunnerTells(vm: Vm, k: Luck, cut: nat)
    requires !vm.runner
    ensures RunScript(CONFIG, vm, k, cut).0.runner <==> RunScript(CONFIG, vm, k, cut).1
    ensures RunScript(CONFIG, vm, k, cut).0.marker == vm.marker
  {
    assert CONFIG[1..] == [];
  }

  /** One line writes the marker, one registers. */
  lemma EffectMarks(l: Line, vm: Vm, k: Luck)
    requires Effect(l, vm, k).Some?
    ensures var after := Effect(l, vm, k).value;
            (l != Mark ==> after.marker == vm.marker) && (l != Register ==> after.runner == vm.runner)
  {
  }

  lemma {:induction false} ServiceMarksNothing(ls: seq<Line>, vm: Vm, k: Luck, cut: nat)
    requires Mark !in ls && Register !in ls
    ensures var after := RunScript(ls, vm, k, cut).0; after.marker == vm.marker && after.runner == vm.runner
    decreases |ls|
  {
    if ls != [] && cut > 0 && Effect(ls[0], vm, k).Some? {
      assert ls[0] in ls && forall l | l in ls[1..] :: l in ls;
      EffectMarks(ls[0], vm, k);
      ServiceMarksNothing(ls[1..], Effect(ls[0], vm, k).value, k, cut - 1);
    }
  }

  /** What the report of an attempt means. */
  predicate Reported(vm: Vm, limits: bool, reached: bool, out: Outcome) {
    var ready := vm.marker && vm.runner && vm.service != "";
    && (out.rep.alreadyReady <==> reached && ready && vm.active)
    && (out.rep.installed <==> !vm.marker && out.vm.marker)
    && (out.rep.configured <==> !vm.runner && out.vm.runner)
    && (out.rep.serviceInstalled <==> vm.service == "" && ServiceCmd in out.sent)
    && (out.rep.started <==> out.ok && !(ready && vm.active))
    && (out.rep.limitsApplied <==> out.ok && limits && ready)
  }

  /** The report is true of the VM, whatever the attempt met: installed when the marker is new, configured
      when the registration is, started when the attempt succeeded and the unit had not been running. The
      service counts as installed once its script was sent and there had been no unit. */
  lemma ReportIsTrue(vm: Vm, limits: bool, m: Meets)
    ensures Reported(vm, limits, Reaches(vm, m), InstallSpec(vm, limits, m))
  {
    if Reaches(vm, m) {
      if ReadyState(vm) {
        ServiceMarksNothing(if limits then SERVICE else START, vm, m.luck, m.serviceCut);
      } else {
        UnpackReports(vm, limits, m);
      }
    }
  }

  lemma UnpackReports(vm: Vm, limits: bool, m: Meets)
    requires !ReadyState(vm)
    ensures Reported(vm, limits, true, UnpackSpec(vm, m))
  {
    if vm.marker {
      ConfigReports(vm, vm, m, [], NONE);
    } else if m.release {
      var after := RunScript(INSTALL, vm, m.luck, m.installCut).0;
      MarkerTells(vm, m.luck, m.installCut);
      InstallRegistersNot(vm, m.luck, m.installCut);
      ConfigReports(vm, after, m, [InstallCmd], NONE.(installed := true));
    }
  }

  lemma InstallRegistersNot(vm: Vm, k: Luck, cut: nat)
    ensures RunScript(INSTALL, vm, k, cut).0.runner == vm.runner
  {
    NeverRegisters(INSTALL, vm, k, cut);
  }

  lemma {:induction false} NeverRegisters(ls: seq<Line>, vm: Vm, k: Luck, cut: nat)
    requires Register !in ls
    ensures RunScript(ls, vm, k, cut).0.runner == vm.runner
    decreases |ls|
  {
    if ls != [] && cut > 0 && Effect(ls[0], vm, k).Some? {
      assert ls[0] in ls && forall l | l in ls[1..] :: l in ls;
      EffectMarks(ls[0], vm, k);
      NeverRegisters(ls[1..], Effect(ls[0], vm, k).value, k, cut - 1);
    }
  }

  lemma ConfigReports(seen: Vm, vm: Vm, m: Meets, sent: seq<Cmd>, rep: Report)
    requires vm.runner == seen.runner && ServiceCmd !in sent && rep == NONE.(installed := rep.installed)
    ensures var out := ConfigSpec(seen, vm, m, sent, rep);
            && out.rep.installed == rep.installed && out.vm.marker == vm.marker
            && (out.rep.configured <==> !seen.runner && out.vm.runner)
            && (out.rep.serviceInstalled <==> seen.service == "" && ServiceCmd in out.sent)
            && (out.rep.started <==> out.ok) && !out.rep.alreadyReady && !out.rep.limitsApplied
  {
    if seen.runner {
      ServiceMarksNothing(SERVICE, vm, m.luck, m.serviceCut);
    } else if m.token {
      RunnerTells(vm, m.luck, m.configCut);
      ServiceMarksNothing(SERVICE, RunScript(CONFIG, vm, m.luck, m.configCut).0, m.luck, m.serviceCut);
    }
  }

  // ----- convergence -----

  /** Between attempts the unit may stop. */
  datatype Attempt = Try(limits: bool, m: Meets) | Stopped

  function RunAll(vm: Vm, tries: seq<Attempt>): Vm
    decreases |tries|
  {
    if tries == [] then vm
    else
      match tries[0]
      case Stopped => RunAll(vm.(active := false), tries[1..])
      case Try(limits, m) => RunAll(InstallSpec(vm, limits, m).vm, tries[1..])
  }

  predicate NamesWell(tries: seq<Attempt>) { forall a | a in tries && a.Try? :: GoodUnit(a.m.luck.unitName) }

  lemma {:induction false} AttemptsKeepSound(vm: Vm, tries: seq<Attempt>)
    requires Sound(vm) && NamesWell(tries)
    ensures Sound(RunAll(vm, tries)) && Keeps(vm, RunAll(vm, tries))
    ensures vm.runner ==> RunAll(vm, tries).registrations == vm.registrations
    decreases |tries|
  {
    if tries != [] {
      assert tries[0] in tries && forall a | a in tries[1..] :: a in tries;
      match tries[0]
      case Stopped => AttemptsKeepSound(vm.(active := false), tries[1..]);
      case Try(limits, m) =>
        AttemptKeeps(vm, limits, m);
        AttemptsKeepSound(InstallSpec(vm, limits, m).vm, tries[1..]);
    }
  }

  /** An attempt in which nothing goes wrong. */
  predicate Clean(m: Meets) {
    m.private && m.dials && m.probes && m.release && m.token
    && m.installCut >= |INSTALL| && m.configCut >= |CONFIG| && m.serviceCut >= |SERVICE|
    && GoodUnit(m.luck.unitName) && m.luck.comesUp
  }

  predicate Up(vm: Vm) { ReadyState(vm) && vm.unpacked && vm.deps && vm.active }

  /** systemd has a unit that .service does not know of: svc.sh refuses to install it a second time. */
  predicate Orphan(vm: Vm) { vm.unitFile && vm.service == "" }

  /** What a clean attempt needs of the VM besides: files where the marker and the registration say. */
  predicate Whole(vm: Vm) {
    (vm.marker ==> vm.unpacked && vm.deps) && (vm.runner ==> vm.unpacked)
    && (vm.service != "" ==> vm.runner && GoodUnit(vm.service))
  }

  /** A clean attempt brings the runner up exactly when no unit is orphaned and, if the runner is still to
      be unpacked, the VM has a docker group. */
  lemma CleanInstallIff(vm: Vm, limits: bool, m: Meets)
    requires Whole(vm) && KnownArch(vm.uname) && Clean(m)
    ensures var out := InstallSpec(vm, limits, m);
            && (out.ok <==> !Orphan(vm) && (vm.marker || vm.docker))
            && (out.ok ==> Up(out.vm))
  {
    if ReadyState(vm) {
      ServiceDone(vm, m.luck, m.serviceCut);
      StartDone(vm, m.luck, m.serviceCut);
    } else {
      CleanUnpackIff(vm, m);
    }
  }

  lemma CleanUnpackIff(vm: Vm, m: Meets)
    requires Whole(vm) && Clean(m)
    ensures var out := UnpackSpec(vm, m);
            && (out.ok <==> !Orphan(vm) && (vm.marker || vm.docker))
            && (out.ok ==> Up(out.vm))
  {
    if vm.marker {
      CleanConfigIff(vm, vm, m, [], NONE);
    } else {
      InstallDone(vm, m.luck, m.installCut);
      if vm.docker {
        CleanConfigIff(vm, vm.(unpacked := true, deps := true, marker := true), m, [InstallCmd], NONE.(installed := true));
      }
    }
  }

  lemma CleanConfigIff(seen: Vm, vm: Vm, m: Meets, sent: seq<Cmd>, rep: Report)
    requires Clean(m) && vm.unpacked && vm.deps && vm.marker && vm.runner == seen.runner
    requires vm.service != "" ==> GoodUnit(vm.service)
    ensures var out := ConfigSpec(seen, vm, m, sent, rep);
            && (out.ok <==> !Orphan(vm))
            && (out.ok ==> Up(out.vm))
  {
    if seen.runner {
      ServiceDone(vm, m.luck, m.serviceCut);
    } else {
      ConfigDone(vm, m.luck, m.configCut);
      ServiceDone(vm.(runner := true, registrations := vm.registrations + 1), m.luck, m.serviceCut);
    }
  }

  /** After any attempts, each stopped anywhere, the next clean one brings the runner up. */
  lemma NextCleanInstallConverges(vm: Vm, tries: seq<Attempt>, limits: bool, m: Meets)
    requires Sound(vm) && vm.docker && KnownArch(vm.uname) && NamesWell(tries) && Clean(m)
    ensures InstallSpec(RunAll(vm, tries), limits, m).ok && Up(InstallSpec(RunAll(vm, tries), limits, m).vm)
    ensures vm.runner ==> InstallSpec(RunAll(vm, tries), limits, m).vm.registrations == vm.registrations
  {
    AttemptsKeepSound(vm, tries);
    CleanInstallIff(RunAll(vm, tries), limits, m);
    AttemptKeeps(RunAll(vm, tries), limits, m);
  }

  // ----- Remove -----

  /** What a removal meets: which of its steps work. `halts` is whether either call of svc.sh stopped the
      unit, `stops` whether the script around those calls ended well. */
  datatype RemoveMeets = RemoveMeets(dials: bool, probes: bool, stops: bool, halts: bool, uninstalls: bool, token: bool,
                                     unregisters: bool, unregistersLocally: bool, deletes: bool)

  datatype Removal = Removal(vm: Vm, removed: bool, localOnly: bool)

  /** The stop script: svc.sh may fail at either call. */
  function Stopped(vm: Vm, m: RemoveMeets): Vm {
    if vm.service == "" then vm
    else
      var still := vm.(active := vm.active && !m.halts);
      if m.uninstalls then still.(unitFile := false, service := "") else still
  }

  /** Unregistering with a token failed, so the registration is only dropped on the VM. */
  predicate LocalOnly(vm: Vm, m: RemoveMeets) { vm.runner && !(m.token && m.unregisters) }

  function RemoveSpec(vm: Vm, m: RemoveMeets): Removal {
    if !m.dials || !m.probes || (!vm.marker && !vm.runner && vm.service == "") then Removal(vm, false, false)
    else if vm.service != "" && !GoodUnit(vm.service) then Removal(vm, false, false)
    else if !m.stops || (LocalOnly(vm, m) && !m.unregistersLocally) then Removal(Stopped(vm, m), false, false)
    else
      var gone := Stopped(vm, m).(runner := false);
      if m.deletes then Removal(gone.(unpacked := false, marker := false, service := ""), true, LocalOnly(vm, m))
      else Removal(gone, false, LocalOnly(vm, m))
  }

  method RemoveStop(h: Host, m: RemoveMeets) returns (ok: bool)
    modifies h
    ensures ok <==> m.stops && (old(h.vm).service == "" || GoodUnit(old(h.vm).service))
    ensures h.vm == if old(h.vm).service == "" || GoodUnit(old(h.vm).service) then Stopped(old(h.vm), m) else old(h.vm)
  {
    if h.vm.service != "" {
      if !GoodUnit(h.vm.service) { return false; }
      if m.halts { h.vm := h.vm.(active := false); }
      if m.uninstalls { h.vm := h.vm.(unitFile := false, service := ""); }
    }
    return m.stops;
  }

  method Unregister(h: Host, m: RemoveMeets) returns (ok: bool, localOnly: bool)
    modifies h
    ensures ok <==> !LocalOnly(old(h.vm), m) || m.unregistersLocally
    ensures ok ==> localOnly == LocalOnly(old(h.vm), m) && h.vm == old(h.vm).(runner := false)
    ensures !ok ==> !localOnly && h.vm == old(h.vm)
  {
    ok, localOnly := true, false;
    if h.vm.runner {
      if !m.token || !m.unregisters {
        if !m.unregistersLocally { return false, false; }
        localOnly := true;
      }
      h.vm := h.vm.(runner := false);
    }
  }

  method Remove(h: Host, m: RemoveMeets) returns (removed: bool, localOnly: bool)
    modifies h
    ensures Removal(h.vm, removed, localOnly) == RemoveSpec(old(h.vm), m)
  {
    removed, localOnly := false, false;
    if !m.dials || !m.probes { return; }
    if !h.vm.marker && !h.vm.runner && h.vm.service == "" { return; }
    var ok := RemoveStop(h, m);
    if !ok { return; }
    ok, localOnly := Unregister(h, m);
    if !ok || !m.deletes { return; }
    h.vm := h.vm.(unpacked := false, marker := false, service := "");
    removed := true;
  }

  /** The removal got past its stop script. */
  predicate StopsFirst(vm: Vm, m: RemoveMeets) {
    && m.dials && m.probes && (vm.marker || vm.runner || vm.service != "")
    && (vm.service == "" || GoodUnit(vm.service)) && m.stops
  }

  /** The registration went, with a token or on the VM alone. */
  predicate Unregisters(vm: Vm, m: RemoveMeets) { vm.runner ==> (m.token && m.unregisters) || m.unregistersLocally }

  /** When a removal is done, and when the entry on GitHub stays behind. */
  lemma RemovedIff(vm: Vm, m: RemoveMeets)
    ensures var out := RemoveSpec(vm, m);
            && (out.removed <==> StopsFirst(vm, m) && Unregisters(vm, m) && m.deletes)
            && (out.localOnly <==> StopsFirst(vm, m) && Unregisters(vm, m) && vm.runner && !(m.token && m.unregisters))
  {
  }

  /** How far a removal got: the registration goes before the files, and the files only when it went. */
  lemma RemoveLeaves(vm: Vm, m: RemoveMeets)
    ensures var out := RemoveSpec(vm, m);
            && (out.vm.runner <==> vm.runner && !(StopsFirst(vm, m) && Unregisters(vm, m)))
            && (out.vm.marker <==> vm.marker && !out.removed) && (out.vm.unpacked <==> vm.unpacked && !out.removed)
            && (out.vm.unitFile <==> vm.unitFile && !(Asked(vm, m) && m.uninstalls))
            && (out.vm.active <==> vm.active && !(Asked(vm, m) && m.halts))
  {
    RemovedIff(vm, m);
    if StopsFirst(vm, m) { RemoveGoesOn(vm, m); }
  }

  lemma RemoveGoesOn(vm: Vm, m: RemoveMeets)
    requires StopsFirst(vm, m)
    ensures var out, at := RemoveSpec(vm, m), Stopped(vm, m);
            if !Unregisters(vm, m) then out.vm == at
            else if !m.deletes then out.vm == at.(runner := false)
            else out.vm == at.(runner := false, unpacked := false, marker := false, service := "")
  {
  }

  /** svc.sh was called on the unit. */
  predicate Asked(vm: Vm, m: RemoveMeets) { m.dials && m.probes && vm.service != "" && GoodUnit(vm.service) }

  /** A removal that says it is done leaves no marker, no registration and no .service; but svc.sh's
      failures pass: a unit it could not stop runs on, and after one it could not uninstall no later clean
      install succeeds. */
  lemma ReinstallAfterRemoveIff(vm: Vm, m: RemoveMeets, limits: bool, m2: Meets)
    requires Sound(vm) && vm.docker && KnownArch(vm.uname) && Clean(m2) && RemoveSpec(vm, m).removed
    ensures var after := RemoveSpec(vm, m).vm;
            && !after.marker && !after.runner && after.service == ""
            && (after.active <==> vm.active && (vm.service == "" || !m.halts))
            && (InstallSpec(after, limits, m2).ok <==> vm.service == "" || m.uninstalls)
  {
    CleanInstallIff(RemoveSpec(vm, m).vm, limits, m2);
  }
}
