/** What internal/ghrunner reads: the probe's output, and the labels asked for. */
module RunnerProbe {
  import opened Text
  import opened RunnerScripts

  // ----- the probe's text -----

  datatype State = State(uname: string, binary: bool, configured: bool, unit: string, active: bool)

  const BLANK := State("", false, false, "", false)

  datatype Key = Arch | Binary | Configured | Unit | Active | Other

  function KeyOf(k: string): Key {
    if k == "arch" then Arch
    else if k == "binary" then Binary
    else if k == "configured" then Configured
    else if k == "unit" then Unit
    else if k == "active" then Active
    else Other
  }

  function SetField(s: State, k: Key, v: string): State {
    match k
    case Arch => s.(uname := v)
    case Binary => s.(binary := v == "1")
    case Configured => s.(configured := v == "1")
    case Unit => s.(unit := v)
    case Active => s.(active := v == "1")
    case Other => s
  }

  function ReadLine(s: State, line: string): State {
    var l := TrimSpace(line);
    var i := IndexOf(l, '=');
    if i == |l| then s else SetField(s, KeyOf(l[..i]), l[i + 1..])
  }

  function Fold(f: (State, string) -> State, s: State, lines: seq<string>): State
    decreases |lines|
  {
    if lines == [] then s else Fold(f, f(s, lines[0]), lines[1..])
  }

  function ReadLines(s: State, lines: seq<string>): State { Fold(ReadLine, s, lines) }

  method FoldLines(f: (State, string) -> State, s0: State, lines: seq<string>) returns (s: State)
    ensures s == Fold(f, s0, lines)
  {
    s := s0;
    assert lines[0..] == lines;
    for i := 0 to |lines|
      invariant Fold(f, s, lines[i..]) == Fold(f, s0, lines)
    {
      assert lines[i..][1..] == lines[i + 1..];
      s := f(s, lines[i]);
    }
    assert lines[|lines|..] == [];
  }

  method ParseProbe(out: string) returns (s: State)
    ensures s == ReadLines(BLANK, Split(out, '\n'))
  {
    s := FoldLines(ReadLine, BLANK, Split(out, '\n'));
  }

  function Bit(b: bool): string { if b then "1" else "0" }

  function FieldLine(k: string, v: string): string { k + (['='] + v) }

  /** The lines the probe prints, for the names of its five fields. */
  function ProbeLines(vm: Vm, n: Names): seq<string> {
    [FieldLine(n.arch, vm.uname), FieldLine(n.binary, Bit(vm.marker)), FieldLine(n.configured, Bit(vm.runner)),
     FieldLine(n.unit, vm.service), FieldLine(n.active, Bit(vm.service != "" && vm.active)), ""]
  }

  datatype Names = Names(arch: string, binary: string, configured: string, unit: string, active: string)

  const PROBE := Names("arch", "binary", "configured", "unit", "active")

  /** One line, and nothing at its end that trimming would take. */
  predicate OneLine(s: string) { '\n' !in s && (s != "" ==> !IsSpace(s[|s| - 1])) }

  predicate Name(k: string, key: Key) {
    KeyOf(k) == key && k != "" && !IsSpace(k[0]) && '=' !in k && '\n' !in k
  }

  lemma FieldReads(s: State, k: string, v: string, key: Key)
    requires Name(k, key) && OneLine(v)
    ensures ReadLine(s, FieldLine(k, v)) == SetField(s, key, v)
  {
    var l := FieldLine(k, v);
    TrimLeftNone(l);
    TrimRightNone(l);
    assert l[..|k|] == k && l[|k| + 1..] == v;
    IndexOfIs(l, '=', |k|);
  }

  /** A reader that takes a line for the field it names, and skips an empty one. */
  ghost predicate Reads(f: (State, string) -> State) {
    && (forall s, k, v, key :: Name(k, key) && OneLine(v) ==> f(s, FieldLine(k, v)) == SetField(s, key, v))
    && forall s :: f(s, "") == s
  }

  lemma ReadLineReads()
    ensures Reads(ReadLine)
  {
    forall s, k, v, key | Name(k, key) && OneLine(v) ensures ReadLine(s, FieldLine(k, v)) == SetField(s, key, v) {
      FieldReads(s, k, v, key);
    }
    TrimLeftNone("");
    TrimRightNone("");
  }

  lemma BitReads(b: bool)
    ensures OneLine(Bit(b)) && (Bit(b) == "1" <==> b)
  {
    assert Bit(b)[0] == if b then '1' else '0';
  }

  predicate Named(n: Names) {
    && Name(n.arch, Arch) && Name(n.binary, Binary) && Name(n.configured, Configured)
    && Name(n.unit, Unit) && Name(n.active, Active)
  }

  lemma {:induction false} FoldTo(f: (State, string) -> State, ls: seq<string>, ss: seq<State>)
    requires |ss| == |ls| + 1 && forall i | 0 <= i < |ls| :: ss[i + 1] == f(ss[i], ls[i])
    ensures Fold(f, ss[0], ls) == ss[|ls|]
    decreases |ls|
  {
    if ls != [] {
      assert ss[0 + 1] == f(ss[0], ls[0]);
      FoldTo(f, ls[1..], ss[1..]);
    }
  }

  lemma LinesRead(f: (State, string) -> State, vm: Vm, n: Names)
    requires Reads(f) && Named(n) && OneLine(vm.uname) && OneLine(vm.service)
    ensures Fold(f, BLANK, ProbeLines(vm, n))
            == State(vm.uname, vm.marker, vm.runner, vm.service, vm.service != "" && vm.active)
  {
    var act := vm.service != "" && vm.active;
    BitReads(vm.marker);
    BitReads(vm.runner);
    BitReads(act);
    var s1 := BLANK.(uname := vm.uname);
    var s2 := s1.(binary := vm.marker);
    var s3 := s2.(configured := vm.runner);
    var s4 := s3.(unit := vm.service);
    var s5 := s4.(active := act);
    assert f(BLANK, FieldLine(n.arch, vm.uname)) == SetField(BLANK, Arch, vm.uname);
    assert f(s1, FieldLine(n.binary, Bit(vm.marker))) == SetField(s1, Binary, Bit(vm.marker));
    assert f(s2, FieldLine(n.configured, Bit(vm.runner))) == SetField(s2, Configured, Bit(vm.runner));
    assert f(s3, FieldLine(n.unit, vm.service)) == SetField(s3, Unit, vm.service);
    assert f(s4, FieldLine(n.active, Bit(act))) == SetField(s4, Active, Bit(act));
    FoldTo(f, ProbeLines(vm, n), [BLANK, s1, s2, s3, s4, s5, s5]);
  }

  lemma NamesAreFields()
    ensures Named(PROBE)
  {
    assert KeyOf("arch") == Arch && KeyOf("binary") == Binary && KeyOf("configured") == Configured;
    assert KeyOf("unit") == Unit && KeyOf("active") == Active;
  }

  /** Install reads off the probe's output exactly what the probe found on the VM. */
  lemma ProbeReads(vm: Vm)
    requires OneLine(vm.uname) && OneLine(vm.service)
    ensures ReadLines(BLANK, Split(Join(ProbeLines(vm, PROBE), '\n'), '\n'))
            == State(vm.uname, vm.marker, vm.runner, vm.service, vm.service != "" && vm.active)
  {
    NamesAreFields();
    ProbeSplits(vm, PROBE);
    ReadLineReads();
    LinesRead(ReadLine, vm, PROBE);
  }

  lemma {:induction false} NothingRead(s: State, lines: seq<string>)
    requires forall l | l in lines :: '=' !in l
    ensures Fold(ReadLine, s, lines) == s
    decreases |lines|
  {
    if lines != [] {
      assert lines[0] in lines && forall l | l in lines[1..] :: l in lines;
      NoneIn(s, lines[0]);
      NothingRead(s, lines[1..]);
    }
  }

  lemma TrimWithout(l: string)
    requires '=' !in l
    ensures IndexOf(TrimSpace(l), '=') == |TrimSpace(l)|
  {
    var a := TrimLeft(l);
    var b := TrimRight(a);
    forall k | 0 <= k < |b| ensures b[k] != '=' { assert b[k] == a[k] && a[k] == l[|l| - |a| + k]; }
  }

  lemma NoneIn(s: State, l: string)
    requires '=' !in l
    ensures ReadLine(s, l) == s
  {
    TrimWithout(l);
  }

  lemma {:induction false} PartsWithout(s: string)
    requires '=' !in s
    ensures forall l | l in Split(s, '\n') :: '=' !in l
    decreases |s|
  {
    var i := IndexOf(s, '\n');
    if i < |s| { PartsWithout(s[i + 1..]); }
  }

  /** Output that reports no field reads as a VM with nothing on it. */
  lemma NothingReported(out: string)
    requires '=' !in out
    ensures ReadLines(BLANK, Split(out, '\n')) == State("", false, false, "", false)
  {
    PartsWithout(out);
    NothingRead(BLANK, Split(out, '\n'));
  }

  lemma ProbeSplits(vm: Vm, n: Names)
    requires OneLine(vm.uname) && OneLine(vm.service) && Named(n)
    ensures Split(Join(ProbeLines(vm, n), '\n'), '\n') == ProbeLines(vm, n)
  {
    var ls := ProbeLines(vm, n);
    forall l | l in ls ensures '\n' !in l {
      var i :| 0 <= i < |ls| && ls[i] == l;
    }
    SplitJoin(ls, '\n');
  }

  // ----- labels -----

  function LowerChar(c: char): char { if 'A' <= c <= 'Z' then (c as int - 'A' as int + 'a' as int) as char else c }

  function Lower(s: string): string { seq(|s|, i requires 0 <= i < |s| => LowerChar(s[i])) }

  /** The labels that are kept when these, in lower case, are already there. */
  function Extra(labels: seq<string>, there: set<string>): seq<string> {
    if labels == [] then []
    else if Lower(labels[0]) in there then Extra(labels[1..], there)
    else [labels[0]] + Extra(labels[1..], there + {Lower(labels[0])})
  }

  method ExtraLabels(labels: seq<string>, arch: string) returns (out: seq<string>)
    ensures out == Extra(labels, {"self-hosted", "linux", Lower(arch)})
  {
    var builtin := {"self-hosted", "linux", Lower(arch)};
    var seen: set<string> := {};
    out := [];
    assert labels[0..] == labels && builtin + {} == builtin;
    for i := 0 to |labels|
      invariant out + Extra(labels[i..], builtin + seen) == Extra(labels, builtin)
    {
      assert labels[i..][1..] == labels[i + 1..];
      var k := Lower(labels[i]);
      if k in builtin || k in seen { continue; }
      assert builtin + (seen + {k}) == builtin + seen + {k};
      ghost var tail := Extra(labels[i + 1..], builtin + seen + {k});
      assert out + ([labels[i]] + tail) == out + [labels[i]] + tail;
      seen := seen + {k};
      out := out + [labels[i]];
    }
    assert labels[|labels|..] == [] && out + [] == out;
  }

  /** No label is added that is there already, in whatever case, or that was not asked for. */
  lemma {:induction false} ExtraAsked(labels: seq<string>, there: set<string>, x: string)
    requires x in Extra(labels, there)
    ensures x in labels && Lower(x) !in there
    decreases |labels|
  {
    assert labels == [labels[0]] + labels[1..];
    if Lower(labels[0]) in there {
      ExtraAsked(labels[1..], there, x);
    } else if x != labels[0] {
      ExtraAsked(labels[1..], there + {Lower(labels[0])}, x);
    }
  }

  function Lowers(ls: seq<string>): set<string> { set l | l in ls :: Lower(l) }

  /** Every label asked for is there afterwards, cases taken together, and each once. */
  lemma {:induction false} ExtraOnce(labels: seq<string>, there: set<string>)
    ensures Lowers(Extra(labels, there)) == Lowers(labels) - there
    ensures |Lowers(Extra(labels, there))| == |Extra(labels, there)|
    decreases |labels|
  {
    if labels != [] {
      var k := Lower(labels[0]);
      LowersCons(labels[0], labels[1..]);
      assert labels == [labels[0]] + labels[1..];
      if k in there {
        ExtraOnce(labels[1..], there);
      } else {
        var rest := Extra(labels[1..], there + {k});
        ExtraOnce(labels[1..], there + {k});
        LowersCons(labels[0], rest);
        assert k !in Lowers(rest);
      }
    }
  }

  lemma LowersCons(l: string, ls: seq<string>)
    ensures Lowers([l] + ls) == {Lower(l)} + Lowers(ls)
  {
    var all := [l] + ls;
    forall x ensures x in Lowers(all) <==> x in {Lower(l)} + Lowers(ls) {
      if x == Lower(l) { assert all[0] == l && l in all; }
      if x in Lowers(ls) {
        var y :| y in ls && Lower(y) == x;
        assert y in all;
      }
    }
  }
}
