/** Trust on first use over two known_hosts files and the pins of one run: internal/hostkeys. Keys and
    hosts are compared for equality only, and host names are already normalised. The known_hosts
    parser is the library's: a key is known for a host when any plain line for that host holds it, and
    revoked when any @revoked line holds it. */
module HostKeys {
  import opened Text

  type Host = string

  datatype Key = Key(algorithm: string, blob: string)

  datatype Offer = Plain(key: Key) | Certificate(key: Key)

  datatype Line = Recorded(host: Host, key: Key) | Revoked(key: Key)

  /** One file: whether it exists, whether some line of it cannot be parsed, and the lines that can. */
  datatype KnownHosts = KnownHosts(present: bool, bad: bool, lines: seq<Line>)

  datatype State = State(own: KnownHosts, extra: KnownHosts, pins: map<Host, Key>, strict: bool)

  // ----- one file -----

  function KeysFor(f: KnownHosts, h: Host): set<Key> {
    set i | 0 <= i < |f.lines| && f.lines[i].Recorded? && f.lines[i].host == h :: f.lines[i].key
  }

  predicate IsRevoked(f: KnownHosts, k: Key) { Revoked(k) in f.lines }

  datatype Check = Absent | Known | Changed | RevokedKey | Unreadable

  function CheckFile(f: KnownHosts, h: Host, k: Key): Check {
    if !f.present then Absent
    else if f.bad then Unreadable
    else if IsRevoked(f, k) then RevokedKey
    else if k in KeysFor(f, h) then Known
    else if KeysFor(f, h) != {} then Changed
    else Absent
  }

  /** Everything that is neither known nor absent refuses. */
  predicate Refuses(c: Check) { c != Known && c != Absent }

  // ----- one connection -----

  datatype Verdict = Accepted(learned: bool) | Refused

  function Add(f: KnownHosts, h: Host, k: Key): KnownHosts {
    f.(present := true, lines := f.lines + [Recorded(h, k)])
  }

  predicate PinRefused(s: State, h: Host, addr: Option<Host>, k: Key) {
    || Refuses(CheckFile(s.own, h, k)) || Refuses(CheckFile(s.extra, h, k))
    || (addr.Some? && addr.value != h
        && (Refuses(CheckFile(s.own, addr.value, k)) || Refuses(CheckFile(s.extra, addr.value, k))))
  }

  /** Callback, with the state it leaves. `writes` says whether the own file could be appended to. */
  function Connect(s: State, h: Host, addr: Option<Host>, offer: Offer, writes: bool): (Verdict, State) {
    if offer.Certificate? then (Refused, s)
    else
      var k := offer.key;
      if h in s.pins then
        (if !PinRefused(s, h, addr, k) && s.pins[h] == k then Accepted(false) else Refused, s)
      else
        var c := CheckFile(s.own, h, k);
        if c == Known then (Accepted(false), s)
        else if Refuses(c) then (Refused, s)
        else
          var e := CheckFile(s.extra, h, k);
          if Refuses(e) then (Refused, s)
          else if e == Absent && s.strict then (Refused, s)
          else if !writes then (Refused, s)
          else (Accepted(e == Absent), s.(own := Add(s.own, h, k)))
  }

  /** PinForRun: refused when the line holds no plain key, or when a file contradicts it. */
  function Pin(s: State, h: Host, offer: Option<Offer>): State {
    if offer.None? || offer.value.Certificate? then s
    else
      var k := offer.value.key;
      if Refuses(CheckFile(s.own, h, k)) || Refuses(CheckFile(s.extra, h, k)) then s
      else s.(pins := s.pins[h := k])
  }

  function Without(lines: seq<Line>, h: Host): seq<Line> {
    if lines == [] then []
    else (if lines[0].Recorded? && lines[0].host == h then [] else [lines[0]]) + Without(lines[1..], h)
  }

  function Forget(s: State, h: Host): State { s.(own := s.own.(lines := Without(s.own.lines, h))) }

  datatype Op =
    | Dial(host: Host, addr: Option<Host>, offer: Offer, writes: bool)
    | PinOp(host: Host, line: Option<Offer>)
    | ResetPins
    | ForgetOp(host: Host)
    | SetStrict(on: bool)

  function Step(s: State, op: Op): State {
    match op
    case Dial(h, addr, offer, writes) => Connect(s, h, addr, offer, writes).1
    case PinOp(h, line) => Pin(s, h, line)
    case ResetPins => s.(pins := map[])
    case ForgetOp(h) => Forget(s, h)
    case SetStrict(on) => s.(strict := on)
  }

  function Run(s: State, ops: seq<Op>): State
    decreases |ops|
  {
    if ops == [] then s else Run(Step(s, ops[0]), ops[1..])
  }

  // ----- the invariant -----

  /** An own file written only by add, before anything was. */
  predicate Untouched(s: State) {
    s.own.lines == [] && !s.own.bad && s.pins == map[]
  }

  /** One plain key a host, and every pin agrees with both files. */
  ghost predicate Inv(s: State) {
    && !s.own.bad && (s.own.lines != [] ==> s.own.present)
    && (forall l | l in s.own.lines :: l.Recorded?)
    && (forall h :: |KeysFor(s.own, h)| <= 1)
    && (forall h | h in s.pins ::
          !Refuses(CheckFile(s.own, h, s.pins[h])) && !Refuses(CheckFile(s.extra, h, s.pins[h])))
  }

  lemma KeysForAdd(f: KnownHosts, h: Host, k: Key, g: Host)
    ensures KeysFor(Add(f, h, k), g) == if g == h then KeysFor(f, g) + {k} else KeysFor(f, g)
  {
    var f' := Add(f, h, k);
    assert forall i | 0 <= i < |f.lines| :: f'.lines[i] == f.lines[i];
    assert f'.lines[|f.lines|] == Recorded(h, k);
    forall x ensures x in KeysFor(f', g) <==> x in (if g == h then KeysFor(f, g) + {k} else KeysFor(f, g)) {
      if x in KeysFor(f, g) {
        var i :| 0 <= i < |f.lines| && f.lines[i].Recorded? && f.lines[i].host == g && f.lines[i].key == x;
        assert f'.lines[i].key == x;
      }
    }
  }

  lemma {:induction false} WithoutIff(lines: seq<Line>, h: Host, l: Line)
    ensures l in Without(lines, h) <==> l in lines && !(l.Recorded? && l.host == h)
    decreases |lines|
  {
    if lines != [] {
      WithoutIff(lines[1..], h, l);
      assert lines == [lines[0]] + lines[1..];
    }
  }

  lemma InLines(f: KnownHosts, h: Host, k: Key)
    ensures k in KeysFor(f, h) <==> Recorded(h, k) in f.lines
  {
    if Recorded(h, k) in f.lines {
      var i :| 0 <= i < |f.lines| && f.lines[i] == Recorded(h, k);
      assert f.lines[i].key == k;
    }
  }

  lemma KeysForWithout(f: KnownHosts, h: Host, g: Host)
    ensures KeysFor(f.(lines := Without(f.lines, h)), g) == if g == h then {} else KeysFor(f, g)
  {
    var f' := f.(lines := Without(f.lines, h));
    forall k ensures k in KeysFor(f', g) <==> k in (if g == h then {} else KeysFor(f, g)) {
      InLines(f', g, k);
      InLines(f, g, k);
      WithoutIff(f.lines, h, Recorded(g, k));
    }
  }

  lemma NoneRevoked(f: KnownHosts, k: Key)
    requires forall l | l in f.lines :: l.Recorded?
    ensures !IsRevoked(f, k)
  {
  }

  /** A connection writes a key only for its own unpinned host, only the offered one, and only when
      the file had none for it. */
  lemma DialChange(s: State, op: Op, h: Host)
    requires Inv(s) && op.Dial?
    ensures var was, now := KeysFor(s.own, h), KeysFor(Step(s, op).own, h);
            || now == was
            || (was == {} && op.host == h && op.offer.Plain? && now == {op.offer.key}
                && h !in s.pins && Connect(s, h, op.addr, op.offer, op.writes).0.Accepted?)
  {
    var k := op.offer.key;
    var (v, s') := Connect(s, op.host, op.addr, op.offer, op.writes);
    if s'.own != s.own {
      assert s'.own == Add(s.own, op.host, k) && v.Accepted?;
      KeysForAdd(s.own, op.host, k, h);
      NoneRevoked(s.own, k);
    }
  }

  /** What one command can do to the keys the own file holds for a host. */
  lemma OwnKeysChange(s: State, op: Op, h: Host)
    requires Inv(s)
    ensures var was, now := KeysFor(s.own, h), KeysFor(Step(s, op).own, h);
            || now == was
            || (was == {} && op.Dial? && op.host == h && op.offer.Plain? && now == {op.offer.key}
                && h !in s.pins && Connect(s, h, op.addr, op.offer, op.writes).0.Accepted?)
            || (op == ForgetOp(h) && now == {})
  {
    if op.Dial? {
      DialChange(s, op, h);
    } else if op.ForgetOp? {
      KeysForWithout(s.own, op.host, h);
    }
  }

  lemma StepKeeps(s: State, op: Op)
    requires Inv(s)
    ensures Inv(Step(s, op)) && Step(s, op).extra == s.extra
  {
    var s' := Step(s, op);
    forall h ensures |KeysFor(s'.own, h)| <= 1 { OwnKeysChange(s, op, h); }
    forall l | l in s'.own.lines ensures l.Recorded? {
      if op.ForgetOp? { WithoutIff(s.own.lines, op.host, l); }
    }
    forall h | h in s'.pins
      ensures !Refuses(CheckFile(s'.own, h, s'.pins[h])) && !Refuses(CheckFile(s'.extra, h, s'.pins[h]))
    {
      NoneRevoked(s'.own, s'.pins[h]);
      OwnKeysChange(s, op, h);
    }
  }

  lemma {:induction false} RunKeeps(s: State, ops: seq<Op>)
    requires Inv(s)
    ensures Inv(Run(s, ops)) && Run(s, ops).extra == s.extra
    decreases |ops|
  {
    if ops != [] {
      StepKeeps(s, ops[0]);
      RunKeeps(Step(s, ops[0]), ops[1..]);
    }
  }

  lemma UntouchedInv(s: State)
    requires Untouched(s)
    ensures Inv(s)
  {
    assert forall h :: KeysFor(s.own, h) == {};
  }

  // ----- trust on first use -----

  predicate NeverForgets(ops: seq<Op>, h: Host) { ForgetOp(h) !in ops }

  lemma {:induction false} KeyStays(s: State, ops: seq<Op>, h: Host, k: Key)
    requires Inv(s) && KeysFor(s.own, h) == {k} && NeverForgets(ops, h)
    ensures KeysFor(Run(s, ops).own, h) == {k}
    decreases |ops|
  {
    if ops != [] {
      OwnKeysChange(s, ops[0], h);
      StepKeeps(s, ops[0]);
      assert ops[0] in ops && forall o | o in ops[1..] :: o in ops;
      KeyStays(Step(s, ops[0]), ops[1..], h, k);
    }
  }

  /** Once an unpinned connection has accepted a key for a host, every key accepted for that host later,
      under a pin or not, is that key, until the host is forgotten. */
  lemma TrustOnFirstUse(s0: State, before: seq<Op>, first: Op, between: seq<Op>, later: Op)
    requires Untouched(s0)
    requires first.Dial? && later.Dial? && later.host == first.host && NeverForgets(between, first.host)
    requires var s1 := Run(s0, before);
             && first.host !in s1.pins
             && Connect(s1, first.host, first.addr, first.offer, first.writes).0.Accepted?
             && var s2 := Run(Step(s1, first), between);
             Connect(s2, later.host, later.addr, later.offer, later.writes).0.Accepted?
    ensures later.offer == first.offer
  {
    var h := first.host;
    UntouchedInv(s0);
    RunKeeps(s0, before);
    var s1 := Run(s0, before);
    StepKeeps(s1, first);
    AcceptedIsRecorded(s1, first);
    KeyStays(Step(s1, first), between, h, first.offer.key);
    RunKeeps(Step(s1, first), between);
    var s2 := Run(Step(s1, first), between);
    assert later.offer.key in {first.offer.key};
  }

  lemma AcceptedIsRecorded(s: State, d: Op)
    requires Inv(s) && d.Dial? && d.host !in s.pins
    requires Connect(s, d.host, d.addr, d.offer, d.writes).0.Accepted?
    ensures d.offer.Plain? && KeysFor(Step(s, d).own, d.host) == {d.offer.key}
  {
    var k, keys := d.offer.key, KeysFor(s.own, d.host);
    KeysForAdd(s.own, d.host, k, d.host);
    NoneRevoked(s.own, k);
    if k in keys { OneKey(keys, k); }
  }

  lemma OneKey(keys: set<Key>, k: Key)
    requires k in keys && |keys| <= 1
    ensures keys == {k}
  {
    assert |keys - {k}| == |keys| - 1;
    assert keys - {k} == {};
  }

  // ----- which keys a connection accepts -----

  /** A file that is there speaks against a key: it cannot be read, revokes the key, or holds others for the
      host and not this one. */
  predicate Against(f: KnownHosts, h: Host, k: Key) {
    f.present && (f.bad || Revoked(k) in f.lines || (KeysFor(f, h) != {} && k !in KeysFor(f, h)))
  }

  /** The user's file has the key for the host and nothing against it. */
  predicate Vouches(f: KnownHosts, h: Host, k: Key) { f.present && k in KeysFor(f, h) && !Against(f, h, k) }

  /** Nobody has a key for the host, and the user's file does not speak against this one. */
  predicate FirstSeen(s: State, h: Host, k: Key) {
    KeysFor(s.own, h) == {} && !(s.extra.present && KeysFor(s.extra, h) != {}) && !Against(s.extra, h, k)
  }

  /** In every reachable state an unpinned connection is accepted exactly when the own file holds the key; or
      it has none for the host, can be written, and the user's file vouches for the key; or it can be
      written, neither file has a key, nothing speaks against this one, and strict mode is off. Only then
      is it reported as learned; in both the offered key is the host's one own key afterwards. A
      certificate is never accepted, and a refusal changes nothing. */
  lemma AcceptedIff(s0: State, ops: seq<Op>, h: Host, addr: Option<Host>, offer: Offer, writes: bool)
    requires Untouched(s0) && h !in Run(s0, ops).pins
    ensures var s, k := Run(s0, ops), offer.key;
            var (v, s') := Connect(s, h, addr, offer, writes);
            var vouched := KeysFor(s.own, h) == {} && writes && Vouches(s.extra, h, k);
            var first := FirstSeen(s, h, k) && writes && !s.strict;
            && (v.Accepted? <==> offer.Plain? && (k in KeysFor(s.own, h) || vouched || first))
            && (v == Accepted(true) <==> offer.Plain? && first)
            && (v.Refused? ==> s' == s)
            && (v.Accepted? ==> KeysFor(s'.own, h) == {k} && s' == s.(own := s'.own))
            && (v.Accepted? && k in KeysFor(s.own, h) ==> s' == s)
  {
    UntouchedInv(s0);
    RunKeeps(s0, ops);
    var s, k := Run(s0, ops), offer.key;
    NoneRevoked(s.own, k);
    InLines(s.own, h, k);
    KeysForAdd(s.own, h, k, h);
    if k in KeysFor(s.own, h) { OneKey(KeysFor(s.own, h), k); }
    if offer.Plain? { ByBothFiles(s, h, addr, k, writes); }
  }

  /** The verdict on a plain key by what the two files say. */
  lemma ByBothFiles(s: State, h: Host, addr: Option<Host>, k: Key, writes: bool)
    requires Inv(s) && h !in s.pins && !IsRevoked(s.own, k)
    ensures var (v, s') := Connect(s, h, addr, Plain(k), writes);
            var vouched, first := Vouches(s.extra, h, k), FirstSeen(s, h, k) && !s.strict;
            if k in KeysFor(s.own, h) then (v, s') == (Accepted(false), s)
            else if KeysFor(s.own, h) == {} && writes && (vouched || first) then
              v == Accepted(!vouched) && s' == s.(own := Add(s.own, h, k))
            else (v, s') == (Refused, s)
  {
    if k in KeysFor(s.own, h) { InLines(s.own, h, k); }
    if !s.own.present { NoLinesNoKeys(s.own, h); }
  }

  lemma NoLinesNoKeys(f: KnownHosts, h: Host)
    requires f.lines == []
    ensures KeysFor(f, h) == {}
  {
  }

  /** Under a pin the key has to be the pinned one, and no file may speak against it for the host or for the
      address; nothing is written. */
  lemma PinnedAcceptedIff(s: State, h: Host, addr: Option<Host>, offer: Offer, writes: bool)
    requires h in s.pins
    ensures var (v, s') := Connect(s, h, addr, offer, writes);
            && s' == s && v != Accepted(true)
            && (v.Accepted? <==>
                  && offer.Plain? && offer.key == s.pins[h]
                  && !Against(s.own, h, offer.key) && !Against(s.extra, h, offer.key)
                  && (addr.Some? ==> !Against(s.own, addr.value, offer.key) && !Against(s.extra, addr.value, offer.key)))
  {
    AgainstIff(s.own, h, offer.key);
    AgainstIff(s.extra, h, offer.key);
    if addr.Some? {
      AgainstIff(s.own, addr.value, offer.key);
      AgainstIff(s.extra, addr.value, offer.key);
    }
  }

  lemma AgainstIff(f: KnownHosts, h: Host, k: Key)
    ensures Refuses(CheckFile(f, h, k)) <==> Against(f, h, k)
  {
  }

  /** A pin is set exactly for a plain key that no file speaks against. */
  lemma PinnedIff(s: State, h: Host, line: Option<Offer>)
    ensures var s' := Pin(s, h, line);
            s' == if line.Some? && line.value.Plain?
                     && !Against(s.own, h, line.value.key) && !Against(s.extra, h, line.value.key)
                  then s.(pins := s.pins[h := line.value.key]) else s
  {
    if line.Some? {
      AgainstIff(s.own, h, line.value.key);
      AgainstIff(s.extra, h, line.value.key);
    }
  }

  // ----- what reaches the own file -----

  /** One command, from any state: a key the own file gains for a host was offered in an accepted,
      unpinned connection, and in strict mode the user's file already held it. */
  lemma GainedKey(s: State, op: Op, h: Host, k: Key)
    requires k in KeysFor(Step(s, op).own, h) && k !in KeysFor(s.own, h)
    ensures Learns(s, op, h, k)
    ensures s.strict ==> k in KeysFor(s.extra, h)
  {
    if op.Dial? {
      KeysForAdd(s.own, op.host, op.offer.key, h);
    } else if op.ForgetOp? {
      KeysForWithout(s.own, op.host, h);
    }
  }

  /** The command is an accepted connection to the host, with the key offered and no pin set. */
  predicate Learns(s: State, op: Op, h: Host, k: Key) {
    && op.Dial? && op.host == h && op.offer == Plain(k) && h !in s.pins
    && Connect(s, h, op.addr, op.offer, op.writes).0.Accepted?
  }

  /** While strict mode stays on, a host's keys after any commands are among those it had in the own
      file and those the user's file holds: nothing is learned from the network. */
  lemma {:induction false} StrictNeverLearns(s: State, ops: seq<Op>, h: Host)
    requires s.strict && SetStrict(false) !in ops
    ensures KeysFor(Run(s, ops).own, h) <= KeysFor(s.own, h) + KeysFor(s.extra, h)
    decreases |ops|
  {
    if ops != [] {
      var s' := Step(s, ops[0]);
      assert ops[0] in ops && forall o | o in ops[1..] :: o in ops;
      StrictNeverLearns(s', ops[1..], h);
      forall k | k in KeysFor(s'.own, h) && k !in KeysFor(s.own, h) ensures k in KeysFor(s.extra, h) {
        GainedKey(s, ops[0], h, k);
      }
    }
  }

  /** Pins stay off the disk: after any commands, a key in the own file was there at the start or came in
      by an accepted connection made while the host had no pin. */
  lemma {:induction false} PinsNeverReachDisk(s: State, ops: seq<Op>, h: Host, k: Key)
    requires k in KeysFor(Run(s, ops).own, h) && k !in KeysFor(s.own, h)
    ensures exists i :: 0 <= i < |ops| && Learns(Run(s, ops[..i]), ops[i], h, k)
    decreases |ops|
  {
    if ops != [] {
      var s' := Step(s, ops[0]);
      if k in KeysFor(s'.own, h) {
        GainedKey(s, ops[0], h, k);
        assert Run(s, ops[..0]) == s;
      } else {
        PinsNeverReachDisk(s', ops[1..], h, k);
        var i :| 0 <= i < |ops[1..]| && Learns(Run(s', ops[1..][..i]), ops[1..][i], h, k);
        assert ops[..i + 1][1..] == ops[1..][..i];
        assert Learns(Run(s, ops[..i + 1]), ops[i + 1], h, k);
      }
    }
  }

  // ----- the file handed to rsync's ssh -----

  /** The keys of the lines KnownHostsFor returns. */
  function KnownHostsFor(s: State, h: Host): set<Key> {
    if h in s.pins then {s.pins[h]}
    else if KeysFor(s.own, h) != {} then KeysFor(s.own, h)
    else KeysFor(s.extra, h)
  }

  /** Accepted as a host already known, not learned now. */
  predicate AcceptsKnown(s: State, h: Host, addr: Option<Host>, k: Key) {
    Connect(s, h, addr, Plain(k), true).0 == Accepted(false)
  }

  ghost predicate RsyncAgrees(s: State, h: Host, addr: Option<Host>) {
    forall k :: k in KnownHostsFor(s, h) <==> AcceptsKnown(s, h, addr, k)
  }

  /** Nothing recorded under the address alone speaks against the pin. */
  predicate AddressAgrees(s: State, h: Host, addr: Option<Host>) {
    h in s.pins && addr.Some? ==>
      !Refuses(CheckFile(s.own, addr.value, s.pins[h])) && !Refuses(CheckFile(s.extra, addr.value, s.pins[h]))
  }

  /** The user's file can be read, and none of the host's keys in it is revoked. */
  predicate ExtraUsable(s: State, h: Host) {
    KeysFor(s.extra, h) == {} || (!s.extra.bad && forall k | k in KeysFor(s.extra, h) :: !IsRevoked(s.extra, k))
  }

  /** In every reachable state the keys handed to rsync's ssh are exactly the keys a connection accepts
      without learning, precisely when the files the choice falls to do not speak against them. */
  lemma RsyncAgreesIff(s0: State, ops: seq<Op>, h: Host, addr: Option<Host>)
    requires Untouched(s0) && (s0.extra.lines != [] ==> s0.extra.present)
    ensures var s := Run(s0, ops);
            RsyncAgrees(s, h, addr) <==>
            if h in s.pins then AddressAgrees(s, h, addr) else KeysFor(s.own, h) != {} || ExtraUsable(s, h)
  {
    UntouchedInv(s0);
    RunKeeps(s0, ops);
    var s := Run(s0, ops);
    if h in s.pins {
      PinnedAgreesIff(s, h, addr);
    } else if KeysFor(s.own, h) != {} {
      OwnAgrees(s, h, addr);
    } else {
      ExtraAgreesIff(s, h, addr);
    }
  }

  lemma PinnedAgreesIff(s: State, h: Host, addr: Option<Host>)
    requires Inv(s) && h in s.pins
    ensures RsyncAgrees(s, h, addr) <==> AddressAgrees(s, h, addr)
  {
    var pin := s.pins[h];
    assert PinRefused(s, h, addr, pin) <==> !AddressAgrees(s, h, addr);
    assert pin in KnownHostsFor(s, h);
  }

  lemma OwnAgrees(s: State, h: Host, addr: Option<Host>)
    requires Inv(s) && h !in s.pins && KeysFor(s.own, h) != {}
    ensures RsyncAgrees(s, h, addr)
  {
    forall k ensures k in KnownHostsFor(s, h) <==> AcceptsKnown(s, h, addr, k) {
      NoneRevoked(s.own, k);
      InLines(s.own, h, k);
    }
  }

  lemma ExtraAgreesIff(s: State, h: Host, addr: Option<Host>)
    requires Inv(s) && h !in s.pins && KeysFor(s.own, h) == {} && (s.extra.lines != [] ==> s.extra.present)
    ensures RsyncAgrees(s, h, addr) <==> ExtraUsable(s, h)
  {
    forall k ensures AcceptsKnown(s, h, addr, k) <==>
                     k in KeysFor(s.extra, h) && !s.extra.bad && !IsRevoked(s.extra, k)
    {
      NoneRevoked(s.own, k);
      InLines(s.extra, h, k);
    }
    if KeysFor(s.extra, h) != {} && !ExtraUsable(s, h) {
      var k :| k in KeysFor(s.extra, h) && (s.extra.bad || IsRevoked(s.extra, k));
      assert k in KnownHostsFor(s, h) && !AcceptsKnown(s, h, addr, k);
    }
  }

  // ----- the algorithms offered in the handshake -----

  /** An RSA key can be proven with three algorithms, any other with one. */
  function KeyAlgorithms(k: Key): seq<string> {
    if k.algorithm == "ssh-rsa" then ["rsa-sha2-512", "rsa-sha2-256", "ssh-rsa"] else [k.algorithm]
  }

  predicate NoRepeats(s: seq<string>) { forall i, j | 0 <= i < j < |s| :: s[i] != s[j] }

  /** s without what was seen before, each element once. */
  function Unseen(s: seq<string>, seen: set<string>): seq<string> {
    if s == [] then []
    else if s[0] in seen then Unseen(s[1..], seen)
    else [s[0]] + Unseen(s[1..], seen + {s[0]})
  }

  function AllAlgorithms(lines: seq<Line>, h: Host): seq<string> {
    if lines == [] then []
    else (if lines[0].Recorded? && lines[0].host == h then KeyAlgorithms(lines[0].key) else []) + AllAlgorithms(lines[1..], h)
  }

  /** The algorithms of the keys one file records for the host, in the order of its lines. */
  function AlgorithmsIn(f: KnownHosts, h: Host): seq<string> { Unseen(AllAlgorithms(f.lines, h), {}) }

  function Keep(s: seq<string>, supported: seq<string>): seq<string> {
    if s == [] then [] else (if s[0] in supported then [s[0]] else []) + Keep(s[1..], supported)
  }

  lemma {:induction false} UnseenIff(s: seq<string>, seen: set<string>, a: string)
    ensures a in Unseen(s, seen) <==> a in s && a !in seen
    ensures NoRepeats(Unseen(s, seen))
    decreases |s|
  {
    if s != [] {
      assert s == [s[0]] + s[1..];
      if s[0] in seen {
        UnseenIff(s[1..], seen, a);
      } else {
        UnseenIff(s[1..], seen + {s[0]}, a);
        UnseenIff(s[1..], seen + {s[0]}, s[0]);
        var r := Unseen(s[1..], seen + {s[0]});
        assert forall j | 0 <= j < |r| :: r[j] in r;
      }
    }
  }

  lemma {:induction false} KeepIff(s: seq<string>, supported: seq<string>, a: string)
    ensures a in Keep(s, supported) <==> a in s && a in supported
    decreases |s|
  {
    if s != [] {
      KeepIff(s[1..], supported, a);
      assert s == [s[0]] + s[1..];
    }
  }

  lemma {:induction false} KeepNoRepeats(s: seq<string>, supported: seq<string>)
    requires NoRepeats(s)
    ensures NoRepeats(Keep(s, supported))
    decreases |s|
  {
    if s != [] {
      KeepNoRepeats(s[1..], supported);
      var r := Keep(s[1..], supported);
      forall j | 0 <= j < |r| ensures r[j] != s[0] {
        KeepIff(s[1..], supported, r[j]);
        assert r[j] in r;
        var k :| 0 <= k < |s[1..]| && s[1..][k] == r[j];
        assert s[k + 1] == r[j];
      }
    }
  }

  /** Lists without repeats and with the same members are permutations of each other. */
  lemma {:induction false} SameMembers(a: seq<string>, b: seq<string>)
    requires NoRepeats(a) && NoRepeats(b) && forall x :: x in a <==> x in b
    ensures multiset(a) == multiset(b)
  {
    forall x ensures multiset(a)[x] == multiset(b)[x] {
      AtMostOnce(a, x);
      AtMostOnce(b, x);
      assert x in multiset(a) <==> x in a;
      assert x in multiset(b) <==> x in b;
    }
  }

  lemma {:induction false} AtMostOnce(a: seq<string>, x: string)
    requires NoRepeats(a)
    ensures multiset(a)[x] <= 1
    decreases |a|
  {
    if a != [] {
      assert a == [a[0]] + a[1..];
      AtMostOnce(a[1..], x);
      if x == a[0] {
        assert x !in a[1..];
        assert multiset(a[1..])[x] == 0;
      }
    }
  }

  /** A store over the two files, with the pins of this run: fields changed in place. */
  class Store {
    var own: KnownHosts
    const extra: KnownHosts
    var pins: map<Host, Key>
    var strict: bool

    ghost function Value(): State
      reads this
    {
      State(own, extra, pins, strict)
    }

    constructor (own: KnownHosts, extra: KnownHosts)
      ensures Value() == State(own, extra, map[], false)
    {
      this.own, this.extra, pins, strict := own, extra, map[], false;
    }

    method CheckIn(f: KnownHosts, h: Host, k: Key) returns (c: Check)
      ensures c == CheckFile(f, h, k)
    {
      if !f.present { return Absent; }
      if f.bad { return Unreadable; }
      if Revoked(k) in f.lines { return RevokedKey; }
      var known, some := false, false;
      for i := 0 to |f.lines|
        invariant known <==> exists j | 0 <= j < i :: f.lines[j] == Recorded(h, k)
        invariant some <==> exists j | 0 <= j < i :: f.lines[j].Recorded? && f.lines[j].host == h
      {
        if f.lines[i].Recorded? && f.lines[i].host == h {
          some := true;
          if f.lines[i].key == k { known := true; }
        }
      }
      assert known <==> k in KeysFor(f, h) by { InLines(f, h, k); }
      assert some <==> KeysFor(f, h) != {} by {
        if some {
          var j :| 0 <= j < |f.lines| && f.lines[j].Recorded? && f.lines[j].host == h;
          assert f.lines[j].key in KeysFor(f, h);
        }
      }
      return if known then Known else if some then Changed else Absent;
    }

    /** Callback. */
    method Callback(h: Host, addr: Option<Host>, offer: Offer, writes: bool) returns (v: Verdict)
      modifies this`own
      ensures (v, Value()) == Connect(old(Value()), h, addr, offer, writes)
    {
      if offer.Certificate? { return Refused; }
      var k := offer.key;
      if h in pins {
        var names := [h];
        if addr.Some? && addr.value != h { names := names + [addr.value]; }
        for i := 0 to |names|
          invariant Value() == old(Value())
          invariant names == if addr.Some? && addr.value != h then [h, addr.value] else [h]
          invariant forall j | 0 <= j < i :: !Refuses(CheckFile(own, names[j], k)) && !Refuses(CheckFile(extra, names[j], k))
        {
          var c := CheckIn(own, names[i], k);
          var e := CheckIn(extra, names[i], k);
          if Refuses(c) || Refuses(e) {
            assert PinRefused(Value(), h, addr, k);
            return Refused;
          }
        }
        assert names[0] == h && (addr.Some? && addr.value != h ==> names[1] == addr.value);
        assert !PinRefused(Value(), h, addr, k);
        return if pins[h] == k then Accepted(false) else Refused;
      }
      var c := CheckIn(own, h, k);
      if c == Known { return Accepted(false); }
      if Refuses(c) { return Refused; }
      var e := CheckIn(extra, h, k);
      if Refuses(e) { return Refused; }
      if e == Absent && strict { return Refused; }
      if !writes { return Refused; }
      own := own.(present := true, lines := own.lines + [Recorded(h, k)]);
      return Accepted(e == Absent);
    }

    method PinForRun(h: Host, line: Option<Offer>)
      modifies this`pins
      ensures Value() == Pin(old(Value()), h, line)
    {
      if line.None? || line.value.Certificate? { return; }
      var k := line.value.key;
      var c := CheckIn(own, h, k);
      if Refuses(c) { return; }
      c := CheckIn(extra, h, k);
      if Refuses(c) { return; }
      pins := pins[h := k];
    }

    method ResetSessionPins()
      modifies this`pins
      ensures Value() == Step(old(Value()), ResetPins)
    {
      pins := map[];
    }

    /** Forget, with the number of lines it dropped. */
    method ForgetHost(h: Host) returns (dropped: nat)
      modifies this`own
      ensures Value() == Forget(old(Value()), h) && dropped == |old(own.lines)| - |own.lines|
    {
      var kept: seq<Line> := [];
      dropped := 0;
      for i := 0 to |own.lines|
        invariant own == old(own) && dropped == i - |kept|
        invariant kept + Without(own.lines[i..], h) == Without(own.lines, h)
      {
        assert own.lines[i..][0] == own.lines[i] && own.lines[i..][1..] == own.lines[i + 1..];
        if own.lines[i].Recorded? && own.lines[i].host == h {
          dropped := dropped + 1;
        } else {
          ghost var rest := Without(own.lines[i + 1..], h);
          assert kept + ([own.lines[i]] + rest) == kept + [own.lines[i]] + rest;
          kept := kept + [own.lines[i]];
        }
      }
      assert own.lines[|own.lines|..] == [] && kept + [] == kept;
      own := own.(lines := kept);
    }

    /** algorithmsIn: each algorithm of the host's keys once, in the order of the lines. */
    method AlgorithmsOf(f: KnownHosts, h: Host) returns (algs: seq<string>)
      ensures algs == AlgorithmsIn(f, h)
    {
      algs := [];
      var seen: set<string> := {};
      for i := 0 to |f.lines|
        invariant algs + Unseen(AllAlgorithms(f.lines[i..], h), seen) == AlgorithmsIn(f, h)
      {
        assert f.lines[i..][0] == f.lines[i] && f.lines[i..][1..] == f.lines[i + 1..];
        var l := f.lines[i];
        ghost var rest := AllAlgorithms(f.lines[i + 1..], h);
        if l.Recorded? && l.host == h {
          var offers := KeyAlgorithms(l.key);
          for j := 0 to |offers|
            invariant algs + Unseen(offers[j..] + rest, seen) == AlgorithmsIn(f, h)
          {
            assert (offers[j..] + rest)[0] == offers[j] && (offers[j..] + rest)[1..] == offers[j + 1..] + rest;
            if offers[j] !in seen {
              Reassoc(algs, offers[j], Unseen(offers[j + 1..] + rest, seen + {offers[j]}));
              algs := algs + [offers[j]];
              seen := seen + {offers[j]};
            }
          }
          assert offers[|offers|..] + rest == rest;
        } else {
          assert [] + rest == rest;
        }
      }
      assert f.lines[|f.lines|..] == [] && algs + [] == algs;
    }

    /** The stored algorithms this client can check. */
    method Supported(stored: seq<string>, supported: seq<string>) returns (algs: seq<string>)
      ensures algs == Keep(stored, supported)
    {
      algs := [];
      for i := 0 to |stored|
        invariant algs + Keep(stored[i..], supported) == Keep(stored, supported)
      {
        assert stored[i..][0] == stored[i] && stored[i..][1..] == stored[i + 1..];
        if stored[i] in supported {
          Reassoc(algs, stored[i], Keep(stored[i + 1..], supported));
          algs := algs + [stored[i]];
        } else {
          assert [] + Keep(stored[i + 1..], supported) == Keep(stored[i + 1..], supported);
        }
      }
      assert stored[|stored|..] == [] && algs + [] == algs;
    }

    /** Algorithms, unpinned: a permutation of what the client supports, the recorded types first. */
    method Algorithms(h: Host, supported: seq<string>) returns (algs: seq<string>)
      requires NoRepeats(supported)
      ensures h in pins && pins[h].algorithm == "ssh-rsa" ==> algs == ["rsa-sha2-512", "rsa-sha2-256", "ssh-rsa"]
      ensures h in pins && pins[h].algorithm != "ssh-rsa" ==> algs == [pins[h].algorithm]
      ensures h !in pins ==> multiset(algs) == multiset(supported)
      ensures h !in pins ==> Keep(AlgorithmsIn(if KeysFor(own, h) != {} then own else extra, h), supported) <= algs
    {
      if h in pins { return KeyAlgorithms(pins[h]); }
      SomeAlgorithm(own, h);
      var stored := AlgorithmsOf(own, h);
      if stored == [] { stored := AlgorithmsOf(extra, h); }
      algs := Supported(stored, supported);
      if algs == [] { return supported; }
      ghost var first := algs;
      StoredFacts(if AlgorithmsIn(own, h) == [] then extra else own, h, supported);
      for i := 0 to |supported|
        invariant first <= algs && NoRepeats(algs)
        invariant forall x :: x in algs <==> x in first || x in supported[..i]
      {
        assert supported[..i + 1] == supported[..i] + [supported[i]];
        if supported[i] !in algs { algs := algs + [supported[i]]; }
      }
      assert supported[..|supported|] == supported;
      SameMembers(algs, supported);
    }
  }

  lemma Reassoc(a: seq<string>, x: string, b: seq<string>)
    ensures a + ([x] + b) == (a + [x]) + b
  {
  }

  lemma StoredFacts(f: KnownHosts, h: Host, supported: seq<string>)
    ensures NoRepeats(Keep(AlgorithmsIn(f, h), supported))
    ensures forall x :: x in Keep(AlgorithmsIn(f, h), supported) ==> x in supported
  {
    UnseenIff(AllAlgorithms(f.lines, h), {}, "");
    KeepNoRepeats(AlgorithmsIn(f, h), supported);
    forall x ensures x in Keep(AlgorithmsIn(f, h), supported) ==> x in supported {
      KeepIff(AlgorithmsIn(f, h), supported, x);
    }
  }

  /** An algorithm a key can be proven with: its own, and for RSA the two newer ones. */
  predicate Proves(k: Key, a: string) {
    a == k.algorithm || (k.algorithm == "ssh-rsa" && a in {"rsa-sha2-512", "rsa-sha2-256"})
  }

  /** The recorded types are those of the keys the file holds for the host. */
  lemma {:induction false} AlgorithmsAreTheKeys(f: KnownHosts, h: Host, a: string)
    ensures a in AlgorithmsIn(f, h) <==> exists k :: k in KeysFor(f, h) && Proves(k, a)
  {
    UnseenIff(AllAlgorithms(f.lines, h), {}, a);
    AllAlgorithmsIff(f.lines, h, a);
    if l :| l in f.lines && l.Recorded? && l.host == h && a in KeyAlgorithms(l.key) {
      InLines(f, h, l.key);
    }
    if k :| k in KeysFor(f, h) && a in KeyAlgorithms(k) {
      InLines(f, h, k);
      assert Recorded(h, k) in f.lines;
    }
  }

  lemma SomeAlgorithm(f: KnownHosts, h: Host)
    ensures AlgorithmsIn(f, h) != [] <==> KeysFor(f, h) != {}
  {
    if k :| k in KeysFor(f, h) {
      AlgorithmsAreTheKeys(f, h, k.algorithm);
      assert Proves(k, k.algorithm);
    }
    if AlgorithmsIn(f, h) != [] {
      var a := AlgorithmsIn(f, h)[0];
      AlgorithmsAreTheKeys(f, h, a);
    }
  }

  lemma {:induction false} AllAlgorithmsIff(lines: seq<Line>, h: Host, a: string)
    ensures a in AllAlgorithms(lines, h) <==>
            exists l :: l in lines && l.Recorded? && l.host == h && a in KeyAlgorithms(l.key)
    decreases |lines|
  {
    if lines != [] {
      AllAlgorithmsIff(lines[1..], h, a);
      assert lines == [lines[0]] + lines[1..];
    }
  }
}
