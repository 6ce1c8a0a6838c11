/** A patch run of internal/patch: snapshot, detached update, reboot only when the host asks for one and
    the caller agrees, then the comparison with the snapshot. What the host answers is arbitrary. */
module PatchRun {
  import opened Text

  datatype Container = Container(name: string, state: string, health: string)

  datatype Snapshot = Snapshot(bootId: string, pm: string, containers: seq<Container>,
                               nginxInstalled: bool, nginxActive: string, nginxTestOK: bool)

  // ----- what an update broke -----

  predicate Healthy(c: Container) { c.state == "running" && (c.health == "" || c.health == "healthy") }

  /** The containers of a snapshot by name; of two with one name the later counts. */
  function ByName(cs: seq<Container>): map<string, Container> {
    if cs == [] then map[] else ByName(cs[..|cs| - 1])[cs[|cs| - 1].name := cs[|cs| - 1]]
  }

  /** Running before, and now gone, stopped or newly unhealthy. */
  predicate Broken(b: Container, now: map<string, Container>) {
    b.state == "running"
    && (b.name !in now || now[b.name].state != "running" || (b.health != "unhealthy" && !Healthy(now[b.name])))
  }

  function BrokenNames(bs: seq<Container>, now: map<string, Container>): seq<string> {
    if bs == [] then []
    else BrokenNames(bs[..|bs| - 1], now) + (if Broken(bs[|bs| - 1], now) then [bs[|bs| - 1].name] else [])
  }

  method FailedContainers(before: Snapshot, after: Snapshot) returns (bad: seq<string>)
    ensures multiset(bad) == multiset(BrokenNames(before.containers, ByName(after.containers))) && Ordered(bad)
  {
    var now: map<string, Container> := map[];
    var cs := after.containers;
    for i := 0 to |cs|
      invariant now == ByName(cs[..i])
    {
      assert cs[..i + 1][..i] == cs[..i];
      now := now[cs[i].name := cs[i]];
    }
    assert cs[..|cs|] == cs;
    bad := FindBroken(before.containers, now);
    bad := SortNames(bad);
  }

  method FindBroken(bs: seq<Container>, now: map<string, Container>) returns (bad: seq<string>)
    ensures bad == BrokenNames(bs, now)
  {
    bad := [];
    for i := 0 to |bs|
      invariant bad == BrokenNames(bs[..i], now)
    {
      assert bs[..i + 1][..i] == bs[..i];
      var b := bs[i];
      if b.state != "running" { continue; }
      if b.name !in now || now[b.name].state != "running" {
        bad := bad + [b.name];
      } else if b.health == "unhealthy" {
        // Already unhealthy before the update.
      } else if !Healthy(now[b.name]) {
        bad := bad + [b.name];
      }
    }
    assert bs[..|bs|] == bs;
  }

  predicate NginxOK(before: Snapshot, after: Snapshot) {
    before.nginxInstalled ==>
      (before.nginxActive == "active" ==> after.nginxActive == "active") && (before.nginxTestOK ==> after.nginxTestOK)
  }

  datatype Problem = ContainerDown(name: string) | NginxDown(now: string) | NginxTestFails | Unreadable

  function Downs(names: seq<string>): (ps: seq<Problem>)
    ensures |ps| == |names|
  {
    seq(|names|, i requires 0 <= i < |names| => ContainerDown(names[i]))
  }

  /** The containers found broken are exactly those that are, in name order. */
  method FailedOf(before: Snapshot, after: Snapshot) returns (bad: seq<string>)
    ensures forall n :: n in bad <==> SomeBroken(before, after, n)
    ensures bad == [] <==> ContainersFine(before, after)
  {
    bad := FailedContainers(before, after);
    ghost var broken := BrokenNames(before.containers, ByName(after.containers));
    forall n ensures n in bad <==> SomeBroken(before, after, n) {
      assert n in multiset(bad) <==> n in multiset(broken);
      BrokenAre(before.containers, ByName(after.containers), n);
    }
    NoneBroken(before, after, bad);
  }

  lemma NoneBroken(before: Snapshot, after: Snapshot, bad: seq<string>)
    requires forall n :: n in bad <==> SomeBroken(before, after, n)
    ensures bad == [] <==> ContainersFine(before, after)
  {
    if bad == [] {
      forall b | b in before.containers ensures !Broken(b, ByName(after.containers)) {
        assert !SomeBroken(before, after, b.name);
      }
    } else {
      assert bad[0] in bad;
    }
  }

  method Compare(before: Snapshot, after: Snapshot) returns (problems: seq<Problem>)
    ensures problems == [] <==> NothingBroke(before, after)
    ensures forall n :: ContainerDown(n) in problems <==> SomeBroken(before, after, n)
    ensures (exists p | p in problems :: !p.ContainerDown?) <==> !NginxOK(before, after)
  {
    var bad := FailedOf(before, after);
    problems := Downs(bad);
    forall n ensures ContainerDown(n) in problems <==> n in bad {
      if n in bad {
        var i :| 0 <= i < |bad| && bad[i] == n;
        assert problems[i] == ContainerDown(n);
      }
    }
    if before.nginxInstalled && !NginxOK(before, after) {
      var nginx := if before.nginxActive == "active" && after.nginxActive != "active"
                   then NginxDown(if after.nginxActive != "" then after.nginxActive else "not running")
                   else NginxTestFails;
      problems := problems + [nginx];
      assert nginx in problems;
    }
  }

  /** Some container of that name was running and is broken now. */
  predicate SomeBroken(before: Snapshot, after: Snapshot, n: string) {
    exists b | b in before.containers :: b.name == n && Broken(b, ByName(after.containers))
  }

  lemma {:induction false} BrokenAre(bs: seq<Container>, now: map<string, Container>, n: string)
    ensures n in BrokenNames(bs, now) <==> exists b | b in bs :: b.name == n && Broken(b, now)
  {
    if bs != [] {
      var last := bs[|bs| - 1];
      BrokenAre(bs[..|bs| - 1], now, n);
      assert bs == bs[..|bs| - 1] + [last];
    }
  }

  /** Every container that was running runs, and is healthy unless it was unhealthy before; nginx is
      active if it was, and its configuration tests if it did. */
  predicate NothingBroke(before: Snapshot, after: Snapshot) { ContainersFine(before, after) && NginxOK(before, after) }

  predicate ContainersFine(before: Snapshot, after: Snapshot) {
    forall b | b in before.containers && b.state == "running" ::
      && b.name in ByName(after.containers)
      && ByName(after.containers)[b.name].state == "running"
      && (b.health == "unhealthy" || Healthy(ByName(after.containers)[b.name]))
  }

  /** The last container of that name in the list. */
  predicate LastNamed(cs: seq<Container>, i: nat, n: string)
    requires i < |cs|
  {
    cs[i].name == n && forall j | i < j < |cs| :: cs[j].name != n
  }

  predicate FineAt(cs: seq<Container>, i: nat, b: Container)
    requires i < |cs|
  {
    LastNamed(cs, i, b.name) && cs[i].state == "running" && (b.health == "unhealthy" || cs[i].health in {"", "healthy"})
  }

  lemma {:induction false} ByNameIs(cs: seq<Container>, i: nat, n: string)
    requires i < |cs| && LastNamed(cs, i, n)
    ensures n in ByName(cs) && ByName(cs)[n] == cs[i]
    decreases |cs|
  {
    if i < |cs| - 1 { ByNameIs(cs[..|cs| - 1], i, n); }
  }

  lemma {:induction false} ByNameHas(cs: seq<Container>, n: string) returns (i: nat)
    requires n in ByName(cs)
    ensures i < |cs| && LastNamed(cs, i, n)
    decreases |cs|
  {
    i := |cs| - 1;
    if cs[i].name != n { i := ByNameHas(cs[..|cs| - 1], n); }
  }

  lemma FineIff(before: Snapshot, after: Snapshot, b: Container)
    requires b.state == "running"
    ensures !Broken(b, ByName(after.containers)) <==> exists i: nat | i < |after.containers| :: FineAt(after.containers, i, b)
  {
    var cs := after.containers;
    if b.name in ByName(cs) {
      var i := ByNameHas(cs, b.name);
      ByNameIs(cs, i, b.name);
      if j: nat :| j < |cs| && FineAt(cs, j, b) { assert i == j; }
      assert !Broken(b, ByName(cs)) <==> FineAt(cs, i, b);
    } else if j: nat :| j < |cs| && FineAt(cs, j, b) {
      ByNameIs(cs, j, b.name);
    }
  }

  /** Field by field: nothing broke exactly when each container that ran has, as the last of its name, one that
      runs and is healthy or has no health check, unless it was unhealthy before; and nginx, if installed,
      is active if it was and its configuration tests if it did. */
  lemma NothingBrokeIff(before: Snapshot, after: Snapshot)
    ensures NothingBroke(before, after) <==>
            && (forall b | b in before.containers && b.state == "running" ::
                  exists i: nat | i < |after.containers| :: FineAt(after.containers, i, b))
            && (before.nginxInstalled && before.nginxActive == "active" ==> after.nginxActive == "active")
            && (before.nginxInstalled && before.nginxTestOK ==> after.nginxTestOK)
  {
    forall b | b in before.containers && b.state == "running"
      ensures !Broken(b, ByName(after.containers)) <==>
              exists i: nat | i < |after.containers| :: FineAt(after.containers, i, b)
    {
      FineIff(before, after, b);
    }
    assert ContainersFine(before, after) <==>
           forall b | b in before.containers && b.state == "running" :: !Broken(b, ByName(after.containers));
  }

  // ----- the host's answers -----

  datatype Need = Yes | No | Unknown

  /** What systemctl shows of the update's unit. */
  datatype UnitState = UnitState(active: string, sub: string, result: string)

  predicate Running(u: UnitState) {
    u.active == "activating" || u.active == "reloading" || (u.active == "active" && (u.sub == "running" || u.sub == "start"))
  }

  predicate EndedWell(u: UnitState) { !Running(u) && u.active == "active" && u.result == "success" }

  datatype Cmd = Sudo | Snap | Pending | CheckReboot | StartUpdate | Poll | Logs | Cleanup
               | Confirm | SendReboot | Reconnect | BootId

  /** One answer; each command reads its own part. For Confirm, ok is yes; a boot id is trimmed. */
  datatype Reply = Reply(ok: bool, snapshot: Snapshot, pending: nat, need: Need, unit: UnitState, bootId: string)

  datatype Event = Event(cmd: Cmd, reply: Reply)

  class Host {
    const script: nat -> Reply
    var log: seq<Event>

    constructor (script: nat -> Reply)
      ensures log == [] && this.script == script
    {
      this.script := script;
      log := [];
    }

    method Ask(cmd: Cmd) returns (r: Reply)
      modifies this
      ensures log == old(log) + [Event(cmd, r)] && r == script(|old(log)|)
    {
      r := script(|log|);
      log := log + [Event(cmd, r)];
    }
  }

  // ----- options -----

  datatype Options = Options(dryRun: bool, reboot: bool, confirm: bool, reconnect: bool,
                             pollAttempts: int, rebootAttempts: int, healthAttempts: int)

  function WithDefaults(o: Options): (r: Options)
    ensures r.pollAttempts > 0 && r.rebootAttempts > 0 && r.healthAttempts > 0
  {
    o.(pollAttempts := if o.pollAttempts <= 0 then 360 else o.pollAttempts,
       rebootAttempts := if o.rebootAttempts <= 0 then 60 else o.rebootAttempts,
       healthAttempts := if o.healthAttempts <= 0 then 30 else o.healthAttempts)
  }

  // ----- the update -----

  predicate UpdateEnded(e: Event) { e.cmd == Poll && e.reply.ok && !Running(e.reply.unit) }

  /** What an update adds to the log: one start and, if the host took it, polls: as many as are allowed when
      none sees the unit end, else up to the one that does. Then the cleanup, after a look at the unit's log
      when it failed; done when it ended well. */
  ghost predicate UpdateRan(t: seq<Event>, o: Options, done: bool) {
    && t != [] && t[0].cmd == StartUpdate
    && (t[0].reply.ok || (|t| == 1 && !done))
    && (t[0].reply.ok ==>
          || (Waiting(t) && |t| == o.pollAttempts + 1 && !done)
          || exists k: nat | k < |t| :: EndedAt(t, o, k, done))
  }

  /** Event k is the poll that saw the unit end. */
  predicate EndedAt(t: seq<Event>, o: Options, k: nat, done: bool)
    requires k < |t|
  {
    && k <= o.pollAttempts && Waiting(t[..k]) && UpdateEnded(t[k]) && (done <==> EndedWell(t[k].reply.unit))
    && if done then |t| == k + 2 && t[k + 1].cmd == Cleanup
       else |t| == k + 3 && t[k + 1].cmd == Logs && t[k + 2].cmd == Cleanup
  }

  /** Polls that did not see the end: a failed poll is a busy host, not a failed update. */
  predicate Waiting(t: seq<Event>) {
    t != [] && Asked(t[0], StartUpdate) && forall i | 0 < i < |t| :: t[i].cmd == Poll && !UpdateEnded(t[i])
  }

  predicate Asked(e: Event, c: Cmd) { e.cmd == c && e.reply.ok }

  method RunUpdate(h: Host, o: Options) returns (done: bool, ghost t: seq<Event>)
    requires o.pollAttempts > 0
    modifies h
    ensures h.log == old(h.log) + t && UpdateRan(t, o, done)
  {
    var r := h.Ask(StartUpdate);
    t := [Event(StartUpdate, r)];
    UpdateRefused(t[0], o);
    if !r.ok { return false, t; }
    for i := 0 to o.pollAttempts
      invariant h.log == old(h.log) + t && Waiting(t) && |t| == i + 1
    {
      r := h.Ask(Poll);
      ghost var before, poll := t, Event(Poll, r);
      WaitMore(t, poll);
      t := t + [poll];
      if r.ok && !Running(r.unit) {
        ghost var more, gone;
        done, more, gone := EndUpdate(h, r.unit);
        UnitEnded(before, poll, more, gone, o);
        t := t + more + [gone];
        return;
      }
    }
    UpdateGaveUp(t, o);
    done := false;
  }

  /** The unit has ended: its log when it failed, then the cleanup. */
  method EndUpdate(h: Host, u: UnitState) returns (done: bool, ghost more: seq<Event>, ghost gone: Event)
    requires !Running(u)
    modifies h
    ensures h.log == old(h.log) + more + [gone] && done == EndedWell(u) && gone.cmd == Cleanup
    ensures if done then more == [] else |more| == 1 && more[0].cmd == Logs
  {
    more := [];
    done := EndedWell(u);
    if !done {
      var logs := h.Ask(Logs);
      more := [Event(Logs, logs)];
    }
    var r := h.Ask(Cleanup);
    gone := Event(Cleanup, r);
  }

  lemma UpdateRefused(e: Event, o: Options)
    requires e.cmd == StartUpdate
    ensures if e.reply.ok then Waiting([e]) else UpdateRan([e], o, false)
  {
  }

  lemma UpdateGaveUp(t: seq<Event>, o: Options)
    requires Waiting(t) && |t| == o.pollAttempts + 1
    ensures UpdateRan(t, o, false)
  {
  }

  lemma WaitMore(t: seq<Event>, poll: Event)
    requires Waiting(t) && poll.cmd == Poll
    ensures !UpdateEnded(poll) ==> Waiting(t + [poll])
  {
  }

  lemma UnitEnded(t: seq<Event>, poll: Event, more: seq<Event>, gone: Event, o: Options)
    requires Waiting(t) && |t| <= o.pollAttempts && UpdateEnded(poll) && gone.cmd == Cleanup
    requires if EndedWell(poll.reply.unit) then more == [] else |more| == 1 && more[0].cmd == Logs
    ensures UpdateRan(t + [poll] + more + [gone], o, EndedWell(poll.reply.unit))
  {
    var all := t + [poll] + more + [gone];
    assert all[..|t|] == t && all[|t|] == poll && all[0] == t[0];
    assert EndedAt(all, o, |t|, EndedWell(poll.reply.unit));
  }

  /** A unit that is active ended well exactly when systemd calls its result a success, and any other that
      runs no more did not. */
  lemma UnitStates(u: UnitState)
    ensures Running(u) <==> u.active in {"activating", "reloading"} || (u.active == "active" && u.sub in {"running", "start"})
    ensures EndedWell(u) <==> u.active == "active" && u.sub !in {"running", "start"} && u.result == "success"
  {
  }

  /** How often each phase asks when the caller gives no number. */
  lemma DefaultsAre(o: Options)
    ensures var d := WithDefaults(o);
            && d.pollAttempts == (if o.pollAttempts > 0 then o.pollAttempts else 360)
            && d.rebootAttempts == (if o.rebootAttempts > 0 then o.rebootAttempts else 60)
            && d.healthAttempts == (if o.healthAttempts > 0 then o.healthAttempts else 30)
            && d.dryRun == o.dryRun && d.reboot == o.reboot && d.confirm == o.confirm && d.reconnect == o.reconnect
  {
  }

  // ----- the reboot -----

  predicate NewBoot(e: Event, oldBoot: string) {
    Asked(e, BootId) && e.reply.bootId != "" && e.reply.bootId != oldBoot
  }

  /** How often the host was dialled. */
  function Dials(t: seq<Event>): nat {
    if t == [] then 0 else Dials(t[..|t| - 1]) + if t[|t| - 1].cmd == Reconnect then 1 else 0
  }

  /** What a reboot adds: nothing without a way back; else one command and, if the host took it, as many dials
      as are allowed, each that gets through followed by a look at the boot id. It is done, and stops, at the
      first boot id that is neither empty nor the old one. */
  predicate RebootRan(t: seq<Event>, o: Options, oldBoot: string, done: bool) {
    && (t == [] <==> !o.reconnect)
    && (t != [] ==> t[0].cmd == SendReboot && (|t| > 1 ==> t[0].reply.ok))
    && (forall i | 0 < i < |t| :: DialOrLook(t, i))
    && (forall i | 0 <= i < |t| - 1 :: !NewBoot(t[i], oldBoot))
    && (done <==> t != [] && NewBoot(t[|t| - 1], oldBoot))
    && Dials(t) <= o.rebootAttempts
    && (t != [] && t[0].reply.ok && !done ==> Dials(t) == o.rebootAttempts && !Asked(t[|t| - 1], Reconnect))
  }

  /** A dial, or the look at the boot id after one that got through, which every such dial has. */
  predicate DialOrLook(t: seq<Event>, i: nat)
    requires 0 < i < |t|
  {
    && (t[i].cmd == Reconnect || (t[i].cmd == BootId && Asked(t[i - 1], Reconnect)))
    && (Asked(t[i - 1], Reconnect) ==> t[i].cmd == BootId)
  }

  predicate Away(t: seq<Event>, oldBoot: string) {
    && t != [] && Asked(t[0], SendReboot) && !Asked(t[|t| - 1], Reconnect)
    && (forall i | 0 < i < |t| :: DialOrLook(t, i))
    && (forall i | 0 <= i < |t| :: !NewBoot(t[i], oldBoot))
  }

  lemma DialsNext(t: seq<Event>, e: Event)
    ensures Dials(t + [e]) == Dials(t) + if e.cmd == Reconnect then 1 else 0
  {
    assert (t + [e])[..|t|] == t;
  }

  lemma DialFailed(t: seq<Event>, e: Event, oldBoot: string)
    requires Away(t, oldBoot) && e.cmd == Reconnect && !e.reply.ok
    ensures Away(t + [e], oldBoot) && Dials(t + [e]) == Dials(t) + 1
  {
    DialsNext(t, e);
    var t' := t + [e];
    forall i | 0 < i < |t'| ensures DialOrLook(t', i) { if i < |t| { assert DialOrLook(t, i); } }
  }

  lemma DialWorked(t: seq<Event>, e: Event, look: Event, o: Options, oldBoot: string)
    requires Away(t, oldBoot) && Asked(e, Reconnect) && look.cmd == BootId && o.reconnect && Dials(t) < o.rebootAttempts
    ensures Dials(t + [e] + [look]) == Dials(t) + 1
    ensures if NewBoot(look, oldBoot) then RebootRan(t + [e] + [look], o, oldBoot, true) else Away(t + [e] + [look], oldBoot)
  {
    DialsNext(t, e);
    DialsNext(t + [e], look);
    var t' := t + [e] + [look];
    forall i | 0 < i < |t'| ensures DialOrLook(t', i) { if i < |t| { assert DialOrLook(t, i); } }
  }

  lemma RebootGaveUp(t: seq<Event>, o: Options, oldBoot: string)
    requires Away(t, oldBoot) && o.reconnect && Dials(t) == o.rebootAttempts
    ensures RebootRan(t, o, oldBoot, false)
  {
  }

  lemma RebootRefused(e: Event, o: Options, oldBoot: string)
    requires e.cmd == SendReboot && o.reconnect && o.rebootAttempts > 0
    ensures Dials([e]) == 0 && (if e.reply.ok then Away([e], oldBoot) else RebootRan([e], o, oldBoot, false))
  {
    assert [e][..0] == [];
  }

  method Reboot(h: Host, oldBoot: string, o: Options) returns (done: bool, ghost t: seq<Event>)
    requires o.rebootAttempts > 0
    modifies h
    ensures h.log == old(h.log) + t && RebootRan(t, o, oldBoot, done)
  {
    t := [];
    if !o.reconnect { return false, t; }
    var r := h.Ask(SendReboot);
    t := [Event(SendReboot, r)];
    RebootRefused(t[0], o, oldBoot);
    if !r.ok { return false, t; }
    for i := 0 to o.rebootAttempts
      invariant h.log == old(h.log) + t && Away(t, oldBoot) && Dials(t) == i
    {
      r := h.Ask(Reconnect);
      ghost var dial := Event(Reconnect, r);
      if !r.ok {
        DialFailed(t, dial, oldBoot);
        t := t + [dial];
        continue;
      }
      r := h.Ask(BootId);
      DialWorked(t, dial, Event(BootId, r), o, oldBoot);
      t := t + [dial] + [Event(BootId, r)];
      if r.ok && r.bootId != "" && r.bootId != oldBoot { return true, t; }
    }
    RebootGaveUp(t, o, oldBoot);
    done := false;
  }

  // ----- the verification -----

  predicate CameBack(e: Event, before: Snapshot) { Asked(e, Snap) && NothingBroke(before, e.reply.snapshot) }

  /** What a verification adds: snapshots, up to the first that shows nothing broken or as many as are
      allowed. */
  predicate VerifyRan(t: seq<Event>, o: Options, before: Snapshot, clean: bool) {
    && t != [] && |t| <= o.healthAttempts && (!clean ==> |t| == o.healthAttempts)
    && (forall i | 0 <= i < |t| :: t[i].cmd == Snap)
    && (forall i | 0 <= i < |t| - 1 :: !CameBack(t[i], before))
    && (clean <==> CameBack(t[|t| - 1], before))
  }

  const BLANK := Snapshot("", "", [], false, "", false)

  /** The last snapshot that could be read. */
  function LastSeen(t: seq<Event>): Snapshot {
    if t == [] then BLANK
    else if t[|t| - 1].reply.ok then t[|t| - 1].reply.snapshot
    else LastSeen(t[..|t| - 1])
  }

  /** Snapshots, or failed attempts at one, in which something was broken each time. */
  predicate AllBroken(t: seq<Event>, before: Snapshot) {
    forall i | 0 <= i < |t| :: t[i].cmd == Snap && !CameBack(t[i], before)
  }

  lemma SeenNext(t: seq<Event>, e: Event)
    ensures LastSeen(t + [e]) == if e.reply.ok then e.reply.snapshot else LastSeen(t)
  {
    assert (t + [e])[..|t|] == t;
  }

  /** Broken up to the last, and that one fine. */
  predicate StoppedFine(t: seq<Event>, before: Snapshot) {
    t != [] && AllBroken(t[..|t| - 1], before) && t[|t| - 1].cmd == Snap && CameBack(t[|t| - 1], before)
  }

  lemma BrokenNext(t: seq<Event>, e: Event, before: Snapshot, fine: bool)
    requires AllBroken(t, before) && e.cmd == Snap && (fine <==> CameBack(e, before))
    ensures AllBroken(t, before) && (fine ==> StoppedFine(t + [e], before)) && (!fine ==> AllBroken(t + [e], before))
  {
    var t' := t + [e];
    assert t'[..|t'| - 1] == t;
    assert forall i | 0 <= i < |t| :: t'[i] == t[i];
  }

  method Verify(h: Host, before: Snapshot, o: Options) returns (after: Snapshot, problems: seq<Problem>, ghost t: seq<Event>)
    requires o.healthAttempts > 0
    modifies h
    ensures h.log == old(h.log) + t && VerifyRan(t, o, before, problems == [])
    ensures after == LastSeen(t) && (!t[|t| - 1].reply.ok ==> problems == [Unreadable])
  {
    after, problems, t := BLANK, [], [];
    for i := 0 to o.healthAttempts
      invariant h.log == old(h.log) + t && |t| == i && after == LastSeen(t) && AllBroken(t, before)
      invariant i > 0 ==> problems != []
      invariant i > 0 && !t[i - 1].reply.ok ==> problems == [Unreadable]
    {
      var r := h.Ask(Snap);
      SeenNext(t, Event(Snap, r));
      if r.ok {
        after := r.snapshot;
        problems := Compare(before, after);
      } else {
        problems := [Unreadable];
      }
      BrokenNext(t, Event(Snap, r), before, problems == []);
      t := t + [Event(Snap, r)];
      if problems == [] { return; }
    }
  }

  // ----- a run -----

  datatype End = Clean | StackBroken(problems: seq<Problem>) | Error

  datatype Report = Report(pending: nat, rebootRequired: Need, rebooted: bool, failed: seq<string>, nginxOK: bool)

  /** The log of a run by its phases. */
  datatype Phases = Phases(head: seq<Event>, update: seq<Event>, check: seq<Event>, reboot: seq<Event>, verify: seq<Event>)

  function Whole(p: Phases): seq<Event> { p.head + (p.update + (p.check + (p.reboot + p.verify))) }

  predicate HeadCmds(t: seq<Event>) {
    && |t| <= 4
    && (|t| > 0 ==> t[0].cmd == Sudo) && (|t| > 1 ==> Asked(t[0], Sudo) && t[1].cmd == Snap)
    && (|t| > 2 ==> Asked(t[1], Snap) && t[2].cmd == Pending) && (|t| > 3 ==> Asked(t[2], Pending) && t[3].cmd == CheckReboot)
  }

  /** Sudo works, the host was read, it has a package manager and its pending updates are known. */
  predicate Ready(head: seq<Event>) {
    |head| >= 3 && Asked(head[0], Sudo) && Asked(head[1], Snap) && Asked(head[2], Pending)
    && head[1].reply.snapshot.pm != "none" && head[1].reply.snapshot.pm != ""
  }

  function Before(p: Phases): Snapshot
    requires |p.head| > 1
  {
    p.head[1].reply.snapshot
  }

  /** The host asked for a reboot and the caller agreed. */
  predicate WantsReboot(o: Options, check: seq<Event>) {
    |check| >= 2 && check[0].reply.need == Yes && (o.reboot || (|check| == 3 && Asked(check[2], Confirm)))
  }

  predicate Checked(o: Options, check: seq<Event>) {
    && check != [] && check[0].cmd == CheckReboot
    && (|check| > 1 <==> check[0].reply.ok)
    && |check| <= 3
    && (|check| > 1 ==> check[1].cmd == Snap)
    && (|check| == 3 ==> check[2].cmd == Confirm)
    && (|check| > 1 ==> (|check| == 3 <==> check[0].reply.need == Yes && !o.reboot && o.confirm))
  }

  /** The check after the update: what the host says, a snapshot for the report, and the question. */
  method Check(h: Host, o: Options) returns (ok: bool, need: Need, go: bool, ghost t: seq<Event>)
    modifies h
    ensures h.log == old(h.log) + t && Checked(o, t)
    ensures ok <==> |t| > 1
    ensures need == t[0].reply.need && (ok ==> (go <==> WantsReboot(o, t)))
  {
    var r := h.Ask(CheckReboot);
    t := [Event(CheckReboot, r)];
    need := r.need;
    if !r.ok { return false, need, false, t; }
    var mid := h.Ask(Snap);
    t := t + [Event(Snap, mid)];
    ok, go := true, false;
    if need == Yes {
      go := o.reboot;
      if !go && o.confirm {
        var answer := h.Ask(Confirm);
        t := t + [Event(Confirm, answer)];
        go := answer.ok;
      }
    }
  }

  /** What follows a done update: the check, the reboot if it is wanted, and the verification. */
  ghost predicate TailShape(o: Options, before: Snapshot, check: seq<Event>, reboot: seq<Event>, verify: seq<Event>,
                            rep: Report, end: End)
  {
    && Checked(o, check)
    && (reboot != [] ==> WantsReboot(o, check))
    && (|check| > 1 && WantsReboot(o, check) ==> RebootRan(reboot, o, before.bootId, rep.rebooted))
    && (rep.rebooted ==> reboot != [])
    && (verify == [] <==> end == Error)
    && (verify == [] ==> |check| == 1 || (WantsReboot(o, check) && !rep.rebooted))
    && (verify != [] ==> |check| > 1 && VerifyRan(verify, o, before, end == Clean) && (WantsReboot(o, check) <==> rep.rebooted))
    && rep.rebootRequired == check[0].reply.need
    && (verify != [] ==> Reports(before, LastSeen(verify), rep))
    && (end.StackBroken? && !verify[|verify| - 1].reply.ok ==> end.problems == [Unreadable])
  }

  /** The report names exactly what is broken in a snapshot. */
  ghost predicate Reports(before: Snapshot, after: Snapshot, rep: Report) {
    (rep.nginxOK <==> NginxOK(before, after)) && (forall n :: n in rep.failed <==> SomeBroken(before, after, n))
  }

  method Finish(h: Host, o: Options, before: Snapshot, pending: nat)
    returns (rep: Report, end: End, ghost check: seq<Event>, ghost reboot: seq<Event>, ghost verify: seq<Event>)
    requires o.rebootAttempts > 0 && o.healthAttempts > 0
    modifies h
    ensures h.log == old(h.log) + check + reboot + verify && TailShape(o, before, check, reboot, verify, rep, end)
    ensures rep.pending == pending
  {
    reboot, verify := [], [];
    var ok, need, go;
    ok, need, go, check := Check(h, o);
    rep := Report(pending, need, false, [], false);
    if !ok { return rep, Error, check, reboot, verify; }
    if go {
      var back: bool;
      back, reboot := Reboot(h, before.bootId, o);
      if !back { return rep, Error, check, reboot, verify; }
      rep := rep.(rebooted := true);
    }
    var after, problems;
    after, problems, verify := Verify(h, before, o);
    var failed := FailedOf(before, after);
    rep := rep.(failed := failed, nginxOK := NginxOK(before, after));
    end := if problems == [] then Clean else StackBroken(problems);
  }

  /** Nothing was pending and the host asks for a reboot all the same, or the update is done. */
  ghost predicate Updated(o: Options, p: Phases)
    requires Ready(p.head)
  {
    if p.head[2].reply.pending == 0
    then p.update == [] && |p.head| == 4 && Asked(p.head[3], CheckReboot) && p.head[3].reply.need == Yes
    else |p.head| == 3 && UpdateRan(p.update, o, true)
  }

  /** A run that ends well without an update: a dry run, or nothing pending and no reboot asked for. */
  predicate Quiet(o: Options, head: seq<Event>) {
    Ready(head) && |head| == 4 && Asked(head[3], CheckReboot)
    && (o.dryRun || (head[2].reply.pending == 0 && head[3].reply.need != Yes))
  }

  /** What the report says when the run did not get to an update: the updates counted, the host's answer on a
      reboot, and nginx taken as it is only when there was nothing to install. */
  predicate EarlyReport(o: Options, head: seq<Event>, rep: Report) {
    && rep.pending == (if |head| > 2 && Asked(head[2], Pending) then head[2].reply.pending else 0)
    && rep.rebootRequired == (if |head| > 3 && Asked(head[3], CheckReboot) then head[3].reply.need else Unknown)
    && (rep.nginxOK <==> |head| > 3 && Asked(head[3], CheckReboot) && !o.dryRun)
  }

  /** Which phases follow which, and how the run ends. */
  ghost predicate RunShape(o: Options, p: Phases, rep: Report, end: End) {
    && HeadCmds(p.head)
    && if p.check != [] then
         && Ready(p.head) && !o.dryRun && Updated(o, p) && rep.pending == p.head[2].reply.pending
         && TailShape(o, Before(p), p.check, p.reboot, p.verify, rep, end)
       else
         && p.reboot == [] && p.verify == [] && !rep.rebooted && !end.StackBroken? && rep.failed == []
         && (p.update == [] ==> EarlyReport(o, p.head, rep))
         && (p.update != [] ==>
               && Ready(p.head) && |p.head| == 3 && !o.dryRun && rep.pending == p.head[2].reply.pending > 0
               && UpdateRan(p.update, o, false) && end == Error)
         && (end == Clean <==> p.update == [] && Quiet(o, p.head))
  }

  const NOTHING := Report(0, Unknown, false, [], false)

  /** Everything before the update, and whether the run goes on from there. */
  predicate HeadRan(o: Options, head: seq<Event>, goesOn: bool, before: Snapshot, pending: nat, end: End) {
    && HeadCmds(head)
    && (!goesOn ==> !end.StackBroken? && (end == Clean <==> Quiet(o, head)))
    && (goesOn ==> Ready(head) && !o.dryRun && before == head[1].reply.snapshot && pending == head[2].reply.pending
                   && if pending == 0 then |head| == 4 && Asked(head[3], CheckReboot) && head[3].reply.need == Yes
                      else |head| == 3)
  }

  method Prepare(h: Host, o: Options)
    returns (goesOn: bool, before: Snapshot, rep: Report, end: End, ghost head: seq<Event>)
    modifies h
    ensures h.log == old(h.log) + head && HeadRan(o, head, goesOn, before, rep.pending, end) && !rep.rebooted
    ensures rep.failed == [] && (!goesOn ==> EarlyReport(o, head, rep))
  {
    goesOn, before, rep, end := false, BLANK, NOTHING, Error;
    var r := h.Ask(Sudo);
    head := [Event(Sudo, r)];
    if !r.ok { return; }
    r := h.Ask(Snap);
    head := head + [Event(Snap, r)];
    before := r.snapshot;
    if !r.ok || before.pm == "none" || before.pm == "" { return; }
    r := h.Ask(Pending);
    head := head + [Event(Pending, r)];
    if !r.ok { return; }
    rep := rep.(pending := r.pending);
    if o.dryRun || rep.pending == 0 {
      r := h.Ask(CheckReboot);
      head := head + [Event(CheckReboot, r)];
      if !r.ok { return; }
      rep := rep.(rebootRequired := r.need, nginxOK := !o.dryRun);
      if o.dryRun || r.need != Yes {
        end := Clean;
        return;
      }
    }
    goesOn := true;
  }

  lemma StopsEarly(o: Options, p: Phases, rep: Report, end: End, before: Snapshot)
    requires HeadRan(o, p.head, false, before, rep.pending, end) && !rep.rebooted
    requires rep.failed == [] && EarlyReport(o, p.head, rep)
    requires p == Phases(p.head, [], [], [], [])
    ensures RunShape(o, p, rep, end)
  {
  }

  lemma StopsAtUpdate(o: Options, p: Phases, rep: Report, before: Snapshot, end: End)
    requires HeadRan(o, p.head, true, before, rep.pending, end) && !rep.rebooted && rep.failed == [] && rep.pending > 0
    requires p == Phases(p.head, p.update, [], [], []) && UpdateRan(p.update, o, false)
    ensures RunShape(o, p, rep, Error)
  {
  }

  lemma GoesThrough(o: Options, p: Phases, before: Snapshot, pending: nat, e: End, rep: Report, end: End)
    requires HeadRan(o, p.head, true, before, pending, e)
    requires if pending > 0 then UpdateRan(p.update, o, true) else p.update == []
    requires TailShape(o, before, p.check, p.reboot, p.verify, rep, end) && rep.pending == pending
    ensures RunShape(o, p, rep, end)
  {
  }

  method Run(h: Host, o0: Options) returns (rep: Report, end: End, ghost p: Phases)
    modifies h
    ensures h.log == old(h.log) + Whole(p) && RunShape(WithDefaults(o0), p, rep, end)
  {
    var o := WithDefaults(o0);
    ghost var head, t: seq<Event>, c, b, v;
    var goesOn, before, pending;
    goesOn, before, rep, end, head := Prepare(h, o);
    p := Phases(head, [], [], [], []);
    if !goesOn {
      StopsEarly(o, p, rep, end, before);
      Gather(old(h.log), head, [], [], [], []);
      return;
    }
    t, pending := [], rep.pending;
    if pending > 0 {
      var done;
      done, t := RunUpdate(h, o);
      p := Phases(head, t, [], [], []);
      if !done {
        StopsAtUpdate(o, p, rep, before, end);
        Gather(old(h.log), head, t, [], [], []);
        return rep, Error, p;
      }
    }
    ghost var e := end;
    rep, end, c, b, v := Finish(h, o, before, pending);
    p := Phases(head, t, c, b, v);
    GoesThrough(o, p, before, pending, e, rep, end);
    Gather(old(h.log), head, t, c, b, v);
  }

  lemma Gather(log: seq<Event>, a: seq<Event>, u: seq<Event>, c: seq<Event>, b: seq<Event>, v: seq<Event>)
    ensures log + a + u + c + b + v == log + Whole(Phases(a, u, c, b, v))
    ensures log + a + u == log + Whole(Phases(a, u, [], [], [])) && log + a == log + Whole(Phases(a, [], [], [], []))
  {
    assert log + (a + (u + (c + (b + v)))) == log + a + u + c + b + v;
    assert a + (u + ([] + ([] + []))) == a + u && a + ([] + ([] + ([] + []))) == a;
    assert log + (a + u) == log + a + u;
  }

  // ----- what every run keeps -----

  /** Where an event of a run stands: its phase and its index there. */
  lemma PhaseOf(p: Phases, i: nat)
    requires i < |Whole(p)|
    ensures var a, u, c, b := |p.head|, |p.update|, |p.check|, |p.reboot|;
            Whole(p)[i] == if i < a then p.head[i]
                           else if i < a + u then p.update[i - a]
                           else if i < a + u + c then p.check[i - a - u]
                           else if i < a + u + c + b then p.reboot[i - a - u - c]
                           else p.verify[i - a - u - c - b]
  {
  }

  predicate Sends(e: Event) {
    e.cmd == SendReboot || e.cmd == StartUpdate || e.cmd == CheckReboot || e.cmd == Confirm
  }

  lemma HeadSenders(t: seq<Event>)
    requires HeadCmds(t)
    ensures forall k | 0 <= k < |t| && Sends(t[k]) :: k == 3 && t[k].cmd == CheckReboot
  {
  }

  lemma UpdateSenders(t: seq<Event>, o: Options, done: bool)
    requires t != [] ==> UpdateRan(t, o, done)
    ensures forall k | 0 <= k < |t| && Sends(t[k]) :: k == 0 && t[k].cmd == StartUpdate
  {
    if t != [] && t[0].reply.ok && !Waiting(t) {
      var k: nat :| k < |t| && EndedAt(t, o, k, done);
      forall j | 0 < j < |t| ensures t[j].cmd == Poll || t[j].cmd == Logs || t[j].cmd == Cleanup {
        if j < k { assert t[..k][j] == t[j]; }
      }
    }
  }

  lemma TailSenders(o: Options, p: Phases, rep: Report, end: End, before: Snapshot)
    requires TailShape(o, before, p.check, p.reboot, p.verify, rep, end)
    ensures forall k | 0 <= k < |p.check| && Sends(p.check[k]) ::
              (k == 0 && p.check[k].cmd == CheckReboot) || (k == 2 && p.check[k].cmd == Confirm)
    ensures forall k | 0 <= k < |p.reboot| && Sends(p.reboot[k]) :: k == 0 && p.reboot[k].cmd == SendReboot
    ensures forall k | 0 <= k < |p.verify| :: !Sends(p.verify[k])
  {
    if p.reboot != [] {
      forall k | 0 < k < |p.reboot| ensures !Sends(p.reboot[k]) { assert DialOrLook(p.reboot, k); }
    }
  }

  lemma PhaseSenders(o: Options, p: Phases, rep: Report, end: End)
    requires RunShape(o, p, rep, end)
    ensures forall k | 0 <= k < |p.head| && Sends(p.head[k]) :: k == 3 && p.head[k].cmd == CheckReboot
    ensures forall k | 0 <= k < |p.update| && Sends(p.update[k]) :: k == 0 && p.update[k].cmd == StartUpdate
    ensures forall k | 0 <= k < |p.check| && Sends(p.check[k]) ::
              (k == 0 && p.check[k].cmd == CheckReboot) || (k == 2 && p.check[k].cmd == Confirm)
    ensures forall k | 0 <= k < |p.reboot| && Sends(p.reboot[k]) :: k == 0 && p.reboot[k].cmd == SendReboot
    ensures forall k | 0 <= k < |p.verify| :: !Sends(p.verify[k])
  {
    HeadSenders(p.head);
    UpdateSenders(p.update, o, p.check != []);
    if p.check != [] { TailSenders(o, p, rep, end, Before(p)); }
  }

  /** The only places a reboot and an update are sent from. */
  lemma OnlySenders(o: Options, p: Phases, rep: Report, end: End, i: nat)
    requires RunShape(o, p, rep, end) && i < |Whole(p)|
    ensures Whole(p)[i].cmd == SendReboot ==> i == |p.head| + |p.update| + |p.check| && p.reboot != []
    ensures Whole(p)[i].cmd == StartUpdate ==> i == |p.head| && p.update != []
  {
    PhaseOf(p, i);
    PhaseSenders(o, p, rep, end);
  }

  /** A run sends the reboot at most once and starts the update at most once. */
  lemma AtMostOnce(o: Options, p: Phases, rep: Report, end: End, i: nat, j: nat)
    requires RunShape(o, p, rep, end) && i < |Whole(p)| && j < |Whole(p)| && Whole(p)[i].cmd == Whole(p)[j].cmd
    requires Whole(p)[i].cmd == SendReboot || Whole(p)[i].cmd == StartUpdate
    ensures i == j
  {
    OnlySenders(o, p, rep, end, i);
    OnlySenders(o, p, rep, end, j);
  }

  /** A dry run changes nothing: it sends neither the update nor the reboot. */
  lemma DryRunSendsNothing(o: Options, p: Phases, rep: Report, end: End, i: nat)
    requires RunShape(o, p, rep, end) && o.dryRun && i < |Whole(p)|
    ensures Whole(p)[i].cmd != SendReboot && Whole(p)[i].cmd != StartUpdate
  {
    OnlySenders(o, p, rep, end, i);
  }

  /** The last answer to the reboot question before event i. */
  predicate LastCheck(t: seq<Event>, j: nat, i: nat)
    requires i <= |t|
  {
    j < i && t[j].cmd == CheckReboot && forall k | j < k < i :: t[k].cmd != CheckReboot
  }

  predicate SaidYes(t: seq<Event>, i: nat)
    requires i <= |t|
  {
    exists j: nat | j < i :: LastCheck(t, j, i) && t[j].reply.ok && t[j].reply.need == Yes
  }

  /** A poll that saw the update's unit run no more and call its result a success. */
  predicate SawSuccess(e: Event) {
    && Asked(e, Poll) && e.reply.unit.active == "active" && e.reply.unit.sub !in {"running", "start"}
    && e.reply.unit.result == "success"
  }

  predicate UpdateDone(t: seq<Event>, i: nat)
    requires i <= |t|
  {
    exists j | 0 <= j < i :: SawSuccess(t[j])
  }

  predicate NothingPending(t: seq<Event>, i: nat)
    requires i <= |t|
  {
    exists j | 0 <= j < i :: Asked(t[j], Pending) && t[j].reply.pending == 0
  }

  lemma UpdateCameFirst(o: Options, p: Phases, rep: Report, end: End, i: nat)
    requires RunShape(o, p, rep, end) && p.reboot != [] && |p.head| + |p.update| <= i <= |Whole(p)|
    ensures UpdateDone(Whole(p), i) || NothingPending(Whole(p), i)
  {
    var t, last := Whole(p), |p.head| + |p.update| - 2;
    if p.update != [] {
      PhaseOf(p, last);
      UnitStates(t[last].reply.unit);
      assert SawSuccess(t[last]);
    } else {
      PhaseOf(p, 2);
      assert Asked(t[2], Pending) && t[2].reply.pending == 0;
    }
  }

  /** A reboot is sent only when the host's last answer was yes, the caller agreed beforehand or just now,
      there is a way back, and the update had ended in success or nothing was pending. */
  lemma RebootIsJustified(o: Options, p: Phases, rep: Report, end: End, i: nat)
    requires RunShape(o, p, rep, end) && i < |Whole(p)| && Whole(p)[i].cmd == SendReboot
    ensures SaidYes(Whole(p), i)
    ensures o.reboot || (o.confirm && i > 0 && Asked(Whole(p)[i - 1], Confirm))
    ensures o.reconnect && !o.dryRun
    ensures UpdateDone(Whole(p), i) || NothingPending(Whole(p), i)
  {
    OnlySenders(o, p, rep, end, i);
    YesAt(o, p, rep, end, i, |p.head| + |p.update|);
    PhaseOf(p, i - 1);
    UpdateCameFirst(o, p, rep, end, i);
  }

  lemma YesAt(o: Options, p: Phases, rep: Report, end: End, i: nat, c: nat)
    requires RunShape(o, p, rep, end) && i < |Whole(p)| && p.reboot != []
    requires c == |p.head| + |p.update| && i == c + |p.check|
    ensures SaidYes(Whole(p), i)
  {
    var t := Whole(p);
    PhaseOf(p, c);
    PhaseSenders(o, p, rep, end);
    forall k | c < k < i ensures t[k].cmd != CheckReboot { PhaseOf(p, k); }
    assert LastCheck(t, c, i);
  }

  /** The host was away and came back: after it took the command, it gave a boot id that is neither empty
      nor the one it had. */
  predicate CameUpAnew(t: seq<Event>, oldBoot: string, i: nat, j: nat) {
    && i < j < |t| && Asked(t[i], SendReboot)
    && t[j].cmd == BootId && t[j].reply.ok && t[j].reply.bootId != "" && t[j].reply.bootId != oldBoot
  }

  lemma SawNewBoot(o: Options, p: Phases, rep: Report, end: End)
    requires RunShape(o, p, rep, end) && rep.rebooted
    ensures |p.head| > 1 && exists i, j :: CameUpAnew(Whole(p), Before(p).bootId, i, j)
  {
    var c := |p.head| + |p.update| + |p.check|;
    var j := c + |p.reboot| - 1;
    PhaseOf(p, c);
    PhaseOf(p, j);
    assert CameUpAnew(Whole(p), Before(p).bootId, c, j);
  }

  lemma NewBootIsSeen(o: Options, p: Phases, rep: Report, end: End, i: nat, j: nat)
    requires RunShape(o, p, rep, end) && |p.head| > 1 && CameUpAnew(Whole(p), Before(p).bootId, i, j)
    ensures rep.rebooted
  {
    var c := |p.head| + |p.update| + |p.check|;
    OnlySenders(o, p, rep, end, i);
    PhaseOf(p, j);
    assert i == c && p.reboot != [];
    assert c <= j < c + |p.reboot| ==> NewBoot(p.reboot[j - c], Before(p).bootId);
  }

  /** A reboot is reported exactly when one was seen. */
  lemma RebootedMeansNewBoot(o: Options, p: Phases, rep: Report, end: End)
    requires RunShape(o, p, rep, end)
    ensures rep.rebooted <==> |p.head| > 1 && exists i, j :: CameUpAnew(Whole(p), Before(p).bootId, i, j)
  {
    if rep.rebooted { SawNewBoot(o, p, rep, end); }
    if |p.head| > 1 {
      forall i, j | CameUpAnew(Whole(p), Before(p).bootId, i, j) ensures rep.rebooted {
        NewBootIsSeen(o, p, rep, end, i, j);
      }
    }
  }

  /** A run without a dry run that ends well with something installed or a reboot asked for has, as its
      last answer, a snapshot in which nothing broke; and any run that was compared ends well exactly
      then. */
  lemma CleanMeansCameBack(o: Options, p: Phases, rep: Report, end: End)
    requires RunShape(o, p, rep, end)
    ensures end == Clean && !o.dryRun && !Quiet(o, p.head) ==> p.verify != [] && rep.failed == [] && rep.nginxOK
    ensures p.verify != [] ==>
              (end == Clean <==> CameBack(Whole(p)[|Whole(p)| - 1], Before(p)))
  {
    if p.verify != [] {
      PhaseOf(p, |Whole(p)| - 1);
      if end == Clean { NothingToReport(Before(p), LastSeen(p.verify), rep); }
    }
  }

  lemma NothingToReport(before: Snapshot, after: Snapshot, rep: Report)
    requires Reports(before, after, rep) && NothingBroke(before, after)
    ensures rep.failed == [] && rep.nginxOK
  {
    NoneBroken(before, after, rep.failed);
  }

  /** The caller agreed to a reboot, beforehand or when asked. */
  ghost predicate Agreed(o: Options, t: seq<Event>) { o.reboot || exists i :: AnsweredYes(t, i) }

  predicate AnsweredYes(t: seq<Event>, i: nat) { i < |t| && Asked(t[i], Confirm) }

  lemma QuietSaysNo(o: Options, p: Phases, rep: Report, end: End)
    requires RunShape(o, p, rep, end) && p.check == [] && end != Error
    ensures !o.dryRun ==> !SaidYes(Whole(p), |Whole(p)|)
  {
    assert Whole(p) == p.head;
    assert p.head[3].cmd == CheckReboot;
  }

  lemma LastCheckIs(o: Options, p: Phases, rep: Report, end: End, c: nat)
    requires RunShape(o, p, rep, end) && p.check != [] && c == |p.head| + |p.update|
    ensures LastCheck(Whole(p), c, |Whole(p)|) && Whole(p)[c] == p.check[0]
  {
    var t := Whole(p);
    PhaseOf(p, c);
    PhaseSenders(o, p, rep, end);
    forall k | c < k < |t| ensures t[k].cmd != CheckReboot { PhaseOf(p, k); }
  }

  lemma LastCheckAsks(t: seq<Event>, c: nat, i: nat)
    requires i <= |t| && LastCheck(t, c, i)
    ensures SaidYes(t, i) <==> t[c].reply.ok && t[c].reply.need == Yes
  {
  }

  lemma OnlyConfirm(o: Options, p: Phases, rep: Report, end: End)
    requires RunShape(o, p, rep, end) && p.check != []
    ensures (exists i :: AnsweredYes(Whole(p), i)) <==> |p.check| == 3 && Asked(p.check[2], Confirm)
  {
    var t, c := Whole(p), |p.head| + |p.update|;
    if |p.check| == 3 && Asked(p.check[2], Confirm) {
      PhaseOf(p, c + 2);
      assert AnsweredYes(t, c + 2);
    }
    PhaseSenders(o, p, rep, end);
    forall i | AnsweredYes(t, i) ensures |p.check| == 3 && Asked(p.check[2], Confirm) { PhaseOf(p, i); }
  }

  /** A run that does not fail rebooted exactly when it was no dry run, the host's last answer was yes and the
      caller agreed. */
  lemma CleanMeansRebootedAsAgreed(o: Options, p: Phases, rep: Report, end: End)
    requires RunShape(o, p, rep, end) && end != Error
    ensures rep.rebooted <==> !o.dryRun && SaidYes(Whole(p), |Whole(p)|) && Agreed(o, Whole(p))
  {
    if p.check == [] {
      QuietSaysNo(o, p, rep, end);
    } else {
      var c := |p.head| + |p.update|;
      LastCheckIs(o, p, rep, end, c);
      LastCheckAsks(Whole(p), c, |Whole(p)|);
      OnlyConfirm(o, p, rep, end);
    }
  }

  /** An update is started only on a host whose package manager is known, with updates counted, not in a
      dry run. */
  predicate Due(t: seq<Event>, i: nat) {
    && 2 < i <= |t| && Asked(t[1], Snap) && t[1].reply.snapshot.pm !in {"none", ""}
    && Asked(t[2], Pending) && t[2].reply.pending > 0
  }

  lemma UpdateIsDue(o: Options, p: Phases, rep: Report, end: End, i: nat)
    requires RunShape(o, p, rep, end) && i < |Whole(p)| && Whole(p)[i].cmd == StartUpdate
    ensures !o.dryRun && Due(Whole(p), i)
  {
    OnlySenders(o, p, rep, end, i);
    PhaseOf(p, 1);
    PhaseOf(p, 2);
  }

  /** The caller is asked exactly when the host said yes and the caller may be asked and did not agree
      beforehand. */
  lemma AskedIff(o: Options, p: Phases, rep: Report, end: End)
    requires RunShape(o, p, rep, end) && p.check != []
    ensures (exists i :: IsConfirm(Whole(p), i)) <==> !o.reboot && o.confirm && SaidYes(Whole(p), |Whole(p)|)
  {
    var t, c := Whole(p), |p.head| + |p.update|;
    LastCheckIs(o, p, rep, end, c);
    LastCheckAsks(t, c, |t|);
    PhaseSenders(o, p, rep, end);
    if |p.check| == 3 {
      PhaseOf(p, c + 2);
      assert IsConfirm(t, c + 2);
    }
    forall i | IsConfirm(t, i) ensures |p.check| == 3 { PhaseOf(p, i); }
  }

  predicate IsConfirm(t: seq<Event>, i: nat) { i < |t| && t[i].cmd == Confirm }
}
