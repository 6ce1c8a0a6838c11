/** The scripts internal/ghrunner sends to a VM, as steps on its state. A script stops at its first failing
    line, and any line may fail. */
module RunnerScripts {
  import opened Text

  // ----- the VM -----

  /** docker: the group exists. unpacked, deps, marker: the release is in the directory, its dependencies
      are installed, and .baryovm-installed is there. runner: .runner exists. service: the content of
      .service, empty when there is none. unitFile: systemd has the unit. registrations counts config.sh. */
  datatype Vm = Vm(uname: string, docker: bool, unpacked: bool, deps: bool, marker: bool,
                   runner: bool, service: string, unitFile: bool, active: bool, registrations: nat)

  predicate UnitChar(c: char) {
    'A' <= c <= 'Z' || 'a' <= c <= 'z' || IsDigit(c) || c == '_' || c == '.' || c == '@' || c == '-'
  }

  /** What the guard in the scripts lets through. */
  predicate GoodUnit(u: string) { u != "" && forall i | 0 <= i < |u| :: UnitChar(u[i]) }

  // ----- the scripts -----

  datatype Line =
    | CheckDocker | AddUser | Download | CheckDigest | MakeDirs | Unpack | Own | InstallDeps | Mark
    | Register
    | SvcInstall | ReadUnit | GuardUnit | WriteLimits | Reload | Restart | Start | CheckActive

  const INSTALL: seq<Line> := [CheckDocker, AddUser, Download, CheckDigest, MakeDirs, Unpack, Own, InstallDeps, Mark]
  const CONFIG: seq<Line> := [Register]
  const SERVICE: seq<Line> := [SvcInstall, ReadUnit, GuardUnit, WriteLimits, Reload, Restart, CheckActive]
  const START: seq<Line> := [ReadUnit, GuardUnit, Start, CheckActive]

  /** What the VM brings to a script: the unit name svc.sh would choose, and whether the unit comes up. */
  datatype Luck = Luck(unitName: string, comesUp: bool)

  /** What a line does when it runs to its end; None when the state of the VM makes it fail. */
  function Effect(l: Line, vm: Vm, k: Luck): Option<Vm> {
    match l
    case CheckDocker => if vm.docker then Some(vm) else None
    case Unpack => Some(vm.(unpacked := true))
    case InstallDeps => if vm.unpacked then Some(vm.(deps := true)) else None
    case Mark => Some(vm.(marker := true))
    case Register => if vm.unpacked then Some(vm.(runner := true, registrations := vm.registrations + 1)) else None
    case SvcInstall =>
      if vm.service != "" then Some(vm)
      else if vm.unpacked && vm.runner && !vm.unitFile then Some(vm.(service := k.unitName, unitFile := true))
      else None
    case ReadUnit => if vm.service != "" then Some(vm) else None
    case GuardUnit => if GoodUnit(vm.service) then Some(vm) else None
    case Restart => Some(vm.(active := k.comesUp))
    case Start => Some(vm.(active := vm.active || k.comesUp))
    case CheckActive => if vm.active then Some(vm) else None
    case _ => Some(vm)
  }

  /** A script of which at most `cut` lines succeed, and whether it succeeded as a whole. */
  function RunScript(ls: seq<Line>, vm: Vm, k: Luck, cut: nat): (Vm, bool)
    decreases |ls|
  {
    if ls == [] then (vm, true)
    else if cut == 0 then (vm, false)
    else
      match Effect(ls[0], vm, k)
      case None => (vm, false)
      case Some(next) => RunScript(ls[1..], next, k, cut - 1)
  }

  // ----- what every script keeps -----

  /** Unpacked and with its dependencies when the marker is there; registered only once unpacked; systemd
      has the unit exactly when .service says so. */
  predicate Sound(vm: Vm) {
    && (vm.marker ==> vm.unpacked && vm.deps)
    && (vm.runner ==> vm.unpacked)
    && (vm.service != "" ==> vm.runner && GoodUnit(vm.service))
    && (vm.unitFile <==> vm.service != "")
  }

  predicate Keeps(vm: Vm, after: Vm) {
    && (vm.marker ==> after.marker) && (vm.runner ==> after.runner)
    && (vm.service != "" ==> after.service == vm.service)
    && after.uname == vm.uname && after.docker == vm.docker
  }

  lemma EffectKeeps(l: Line, vm: Vm, k: Luck)
    requires Effect(l, vm, k).Some?
    ensures Keeps(vm, Effect(l, vm, k).value)
    ensures var after := Effect(l, vm, k).value; (vm.deps ==> after.deps) && (vm.unpacked ==> after.unpacked)
    ensures l != Register ==> Effect(l, vm, k).value.registrations == vm.registrations
  {
  }

  lemma EffectSound(l: Line, vm: Vm, k: Luck)
    requires Effect(l, vm, k).Some? && Sound(vm) && GoodUnit(k.unitName)
    requires l == Mark ==> vm.unpacked && vm.deps
    ensures Sound(Effect(l, vm, k).value)
  {
  }

  lemma {:induction false} ScriptKeeps(ls: seq<Line>, vm: Vm, k: Luck, cut: nat)
    ensures var after := RunScript(ls, vm, k, cut).0;
            Keeps(vm, after) && (vm.deps ==> after.deps) && (vm.unpacked ==> after.unpacked)
    ensures Register !in ls ==> RunScript(ls, vm, k, cut).0.registrations == vm.registrations
    decreases |ls|
  {
    if ls != [] && cut > 0 && Effect(ls[0], vm, k).Some? {
      assert ls[0] in ls && forall l | l in ls[1..] :: l in ls;
      EffectKeeps(ls[0], vm, k);
      ScriptKeeps(ls[1..], Effect(ls[0], vm, k).value, k, cut - 1);
    }
  }

  lemma {:induction false} ScriptSound(ls: seq<Line>, vm: Vm, k: Luck, cut: nat)
    requires Mark !in ls && Sound(vm) && GoodUnit(k.unitName)
    ensures Sound(RunScript(ls, vm, k, cut).0)
    decreases |ls|
  {
    if ls != [] && cut > 0 && Effect(ls[0], vm, k).Some? {
      assert ls[0] in ls && forall l | l in ls[1..] :: l in ls;
      EffectSound(ls[0], vm, k);
      ScriptSound(ls[1..], Effect(ls[0], vm, k).value, k, cut - 1);
    }
  }

  lemma {:induction false} ScriptConcat(a: seq<Line>, b: seq<Line>, vm: Vm, k: Luck, cut: nat)
    ensures var r := RunScript(a, vm, k, cut);
            RunScript(a + b, vm, k, cut) == if r.1 then (if cut >= |a| then RunScript(b, r.0, k, cut - |a|) else r) else r
    ensures RunScript(a, vm, k, cut).1 ==> cut >= |a|
    decreases |a|
  {
    if a == [] {
      assert a + b == b;
    } else {
      assert (a + b)[1..] == a[1..] + b;
      if cut > 0 && Effect(a[0], vm, k).Some? { ScriptConcat(a[1..], b, Effect(a[0], vm, k).value, k, cut - 1); }
    }
  }

  /** The marker is written last: after the dependencies, so only when they are there. */
  lemma InstallSound(vm: Vm, k: Luck, cut: nat)
    requires Sound(vm) && GoodUnit(k.unitName)
    ensures Sound(RunScript(INSTALL, vm, k, cut).0)
  {
    var first := [CheckDocker, AddUser, Download, CheckDigest, MakeDirs, Unpack, Own];
    var r := RunScript(first, vm, k, cut);
    ScriptSound(first, vm, k, cut);
    assert INSTALL == first + [InstallDeps, Mark];
    ScriptConcat(first, [InstallDeps, Mark], vm, k, cut);
    if r.1 { DepsThenMark(r.0, k, cut - |first|); }
  }

  lemma DepsThenMark(vm: Vm, k: Luck, cut: nat)
    requires Sound(vm)
    ensures Sound(RunScript([InstallDeps, Mark], vm, k, cut).0)
  {
    var ls := [InstallDeps, Mark];
    assert ls[1..] == [Mark] && ls[1..][1..] == [];
    if cut > 0 && vm.unpacked {
      var next := vm.(deps := true);
      assert RunScript(ls, vm, k, cut) == RunScript([Mark], next, k, cut - 1);
      assert RunScript([Mark], next, k, cut - 1).0 == if cut == 1 then next else next.(marker := true);
    }
  }

  // ----- scripts that run through -----

  lemma ScriptCons(l: Line, rest: seq<Line>, vm: Vm, k: Luck, cut: nat)
    requires cut > 0
    ensures RunScript([l] + rest, vm, k, cut)
            == match Effect(l, vm, k) case None => (vm, false) case Some(next) => RunScript(rest, next, k, cut - 1)
  {
    assert ([l] + rest)[1..] == rest;
  }

  /** Lines that succeed and change nothing. */
  lemma {:induction false} Passes(ls: seq<Line>, rest: seq<Line>, vm: Vm, k: Luck, cut: nat)
    requires cut >= |ls| && forall l | l in ls :: Effect(l, vm, k) == Some(vm)
    ensures RunScript(ls + rest, vm, k, cut) == RunScript(rest, vm, k, cut - |ls|)
    decreases |ls|
  {
    if ls == [] {
      assert ls + rest == rest;
    } else {
      assert ls[0] in ls && forall l | l in ls[1..] :: l in ls;
      assert ls + rest == [ls[0]] + (ls[1..] + rest);
      ScriptCons(ls[0], ls[1..] + rest, vm, k, cut);
      Passes(ls[1..], rest, vm, k, cut - 1);
    }
  }

  lemma TwoLines(l: Line, l2: Line, rest: seq<Line>, vm: Vm, k: Luck, cut: nat, mid: Vm, next: Vm)
    requires cut >= 2 && Effect(l, vm, k) == Some(mid) && Effect(l2, mid, k) == Some(next)
    ensures RunScript([l] + ([l2] + rest), vm, k, cut) == RunScript(rest, next, k, cut - 2)
  {
    ScriptCons(l, [l2] + rest, vm, k, cut);
    ScriptCons(l2, rest, mid, k, cut - 1);
  }

  /** Lines that do nothing the model holds. */
  predicate Idle(l: Line) {
    l == AddUser || l == Download || l == CheckDigest || l == MakeDirs || l == Own || l == WriteLimits || l == Reload
  }

  lemma IdlePasses(ls: seq<Line>, rest: seq<Line>, vm: Vm, k: Luck, cut: nat)
    requires cut >= |ls| && forall l | l in ls :: Idle(l)
    ensures RunScript(ls + rest, vm, k, cut) == RunScript(rest, vm, k, cut - |ls|)
  {
    forall l | l in ls ensures Effect(l, vm, k) == Some(vm) { assert Idle(l); }
    Passes(ls, rest, vm, k, cut);
  }

  lemma InstallDone(vm: Vm, k: Luck, cut: nat)
    requires cut >= |INSTALL|
    ensures RunScript(INSTALL, vm, k, cut)
            == if vm.docker then (vm.(unpacked := true, deps := true, marker := true), true) else (vm, false)
  {
    var a, rest := [AddUser, Download, CheckDigest, MakeDirs], [Unpack, Own, InstallDeps, Mark];
    assert INSTALL == [CheckDocker] + (a + rest);
    ScriptCons(CheckDocker, a + rest, vm, k, cut);
    if vm.docker {
      IdlePasses(a, rest, vm, k, cut - 1);
      InstallRest(rest, vm, k, cut - 5);
    }
  }

  lemma InstallRest(rest: seq<Line>, vm: Vm, k: Luck, cut: nat)
    requires rest == [Unpack, Own, InstallDeps, Mark] && cut >= 4
    ensures RunScript(rest, vm, k, cut) == (vm.(unpacked := true, deps := true, marker := true), true)
  {
    var c := [InstallDeps] + ([Mark] + []);
    assert rest == [Unpack] + ([Own] + c);
    var u := vm.(unpacked := true);
    TwoLines(Unpack, Own, c, vm, k, cut, u, u);
    TwoLines(InstallDeps, Mark, [], u, k, cut - 2, u.(deps := true), u.(deps := true, marker := true));
  }

  /** The service script succeeds unless systemd has the unit and .service does not say so. */
  lemma ServiceDone(vm: Vm, k: Luck, cut: nat)
    requires cut >= |SERVICE| && k.comesUp && GoodUnit(k.unitName) && vm.unpacked && vm.runner
    requires vm.service != "" ==> GoodUnit(vm.service)
    ensures RunScript(SERVICE, vm, k, cut)
            == if vm.service == "" && vm.unitFile then (vm, false)
               else (vm.(service := if vm.service == "" then k.unitName else vm.service,
                         unitFile := vm.unitFile || vm.service == "", active := true), true)
  {
    var rest := [ReadUnit, GuardUnit, WriteLimits, Reload, Restart, CheckActive];
    assert SERVICE == [SvcInstall] + rest;
    ScriptCons(SvcInstall, rest, vm, k, cut);
    if !(vm.service == "" && vm.unitFile) { ServiceRest(rest, Effect(SvcInstall, vm, k).value, k, cut - 1); }
  }

  lemma ServiceRest(rest: seq<Line>, vm: Vm, k: Luck, cut: nat)
    requires rest == [ReadUnit, GuardUnit, WriteLimits, Reload, Restart, CheckActive]
    requires cut >= 6 && k.comesUp && GoodUnit(vm.service)
    ensures RunScript(rest, vm, k, cut) == (vm.(active := true), true)
  {
    var pass, up := [ReadUnit, GuardUnit, WriteLimits, Reload], [Restart] + ([CheckActive] + []);
    assert rest == pass + up;
    Passes(pass, up, vm, k, cut);
    TwoLines(Restart, CheckActive, [], vm, k, cut - 4, vm.(active := true), vm.(active := true));
  }

  lemma StartDone(vm: Vm, k: Luck, cut: nat)
    requires cut >= |START| && k.comesUp && GoodUnit(vm.service)
    ensures RunScript(START, vm, k, cut) == (vm.(active := true), true)
  {
    var pass, up := [ReadUnit, GuardUnit], [Start] + ([CheckActive] + []);
    assert START == pass + up;
    Passes(pass, up, vm, k, cut);
    TwoLines(Start, CheckActive, [], vm, k, cut - 2, vm.(active := true), vm.(active := true));
  }

  lemma ConfigDone(vm: Vm, k: Luck, cut: nat)
    requires cut >= |CONFIG| && vm.unpacked
    ensures RunScript(CONFIG, vm, k, cut) == (vm.(runner := true, registrations := vm.registrations + 1), true)
  {
    assert CONFIG == [Register] + [];
    ScriptCons(Register, [], vm, k, cut);
  }
}
