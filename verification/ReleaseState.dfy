/** The progress record of one release: internal/releasestate. The host keeps it as a JSON file; here
    it is the value that file holds. */
module ReleaseState {

  datatype Status = Started | Done | Failed

  datatype Step = Step(name: string, status: Status)

  datatype Record = Record(commit: string, backupFile: string, steps: seq<Step>)

  /** Index of the first step called name, or |steps|: every lookup in the source is this scan. */
  function Find(steps: seq<Step>, name: string): (i: nat)
    ensures i <= |steps|
    ensures i < |steps| ==> steps[i].name == name
    ensures forall k | 0 <= k < i :: steps[k].name != name
    ensures i == |steps| <==> forall k | 0 <= k < |steps| :: steps[k].name != name
  {
    if steps == [] then 0
    else if steps[0].name == name then 0
    else 1 + Find(steps[1..], name)
  }

  predicate HasStep(r: Record, name: string) { Find(r.steps, name) < |r.steps| }

  predicate HasStatus(r: Record, name: string, status: Status) {
    var i := Find(r.steps, name);
    i < |r.steps| && r.steps[i].status == status
  }

  predicate IsDone(r: Record, name: string) { HasStatus(r, name, Done) }

  function DoneNames(r: Record): set<string> {
    set i | 0 <= i < |r.steps| && IsDone(r, r.steps[i].name) :: r.steps[i].name
  }

  function Marked(r: Record, name: string, status: Status): Record {
    var i := Find(r.steps, name);
    if i < |r.steps| then r.(steps := r.steps[i := Step(name, status)])
    else r.(steps := r.steps + [Step(name, status)])
  }

  /** A mark changes the status of one name and of no other. */
  lemma MarkedChangesOne(r: Record, name: string, status: Status, other: string)
    ensures HasStatus(Marked(r, name, status), name, status)
    ensures forall s :: HasStatus(Marked(r, name, status), name, s) ==> s == status
    ensures other != name ==>
              && (HasStep(Marked(r, name, status), other) <==> HasStep(r, other))
              && forall s :: HasStatus(Marked(r, name, status), other, s) <==> HasStatus(r, other, s)
  {
    var m := Marked(r, name, status);
    var i, j := Find(m.steps, name), Find(r.steps, name);
    assert m.steps[j].name == name;
    assert i == j;
    var k, l := Find(m.steps, other), Find(r.steps, other);
    if other != name {
      if l < |r.steps| { assert m.steps[l] == r.steps[l]; }
      if k < |m.steps| { assert k < |r.steps| && r.steps[k] == m.steps[k]; }
      assert k < |m.steps| <==> l < |r.steps|;
      assert k < |m.steps| ==> k == l;
    }
  }

  lemma DoneNamesIff(r: Record, name: string)
    ensures name in DoneNames(r) <==> IsDone(r, name)
  {
    var i := Find(r.steps, name);
    if i < |r.steps| { assert r.steps[i].name == name; }
  }

  /** compose up and the vhost swap cannot be run a second time safely. */
  predicate NonResumable(name: string) { name == "deploy" || name == "tls" }

  /** A step that is not done and cannot be resumed. */
  predicate Unsafe(r: Record) {
    exists i | 0 <= i < |r.steps| :: r.steps[i].status != Done && NonResumable(r.steps[i].name)
  }

  /** The client's copy of the record, marked in place. */
  class State {
    var rec: Record

    constructor (r: Record)
      ensures rec == r
    {
      rec := r;
    }

    method Mark(name: string, status: Status)
      modifies this
      ensures rec == Marked(old(rec), name, status)
    {
      for i := 0 to |rec.steps|
        invariant rec == old(rec)
        invariant forall k | 0 <= k < i :: rec.steps[k].name != name
      {
        if rec.steps[i].name == name {
          assert Find(rec.steps, name) == i;
          rec := rec.(steps := rec.steps[i := Step(name, status)]);
          return;
        }
      }
      rec := rec.(steps := rec.steps + [Step(name, status)]);
    }

    method CheckDone(name: string) returns (done: bool)
      ensures done <==> IsDone(rec, name)
    {
      for i := 0 to |rec.steps|
        invariant forall k | 0 <= k < i :: rec.steps[k].name != name
      {
        if rec.steps[i].name == name {
          assert Find(rec.steps, name) == i;
          return rec.steps[i].status == Done;
        }
      }
      return false;
    }

    method CheckUnsafe() returns (bad: bool)
      ensures bad <==> Unsafe(rec)
    {
      for i := 0 to |rec.steps|
        invariant forall k | 0 <= k < i :: rec.steps[k].status == Done || !NonResumable(rec.steps[k].name)
      {
        if rec.steps[i].status != Done && NonResumable(rec.steps[i].name) {
          return true;
        }
      }
      return false;
    }
  }
}
