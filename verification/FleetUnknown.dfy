/** Loading and saving fleet.json with a program that knows fewer fields than the file holds: the
    marshallers of VM, Stack, Site, Store and Project in internal/fleet. */
module FleetUnknown {
  import opened Text
  import opened FleetJson

  // ----- a program that knows fewer fields -----

  function FieldOf(fs: seq<Field>, name: string): (f: Option<Field>)
    ensures f.Some? ==> f.value in fs && f.value.name == name
    ensures f.None? ==> forall g | g in fs :: g.name != name
  {
    if fs == [] then None
    else if fs[0].name == name then Some(fs[0])
    else FieldOf(fs[1..], name)
  }

  /** Every field of the older struct is a field of the newer one, nested structs likewise. */
  predicate Extends(s: Schema, t: Schema)
    decreases s
  {
    forall i | 0 <= i < |s.fields| :: Continued(s.fields[i], FieldOf(t.fields, s.fields[i].name))
  }

  predicate Continued(f: Field, g: Option<Field>)
    decreases f
  {
    && g.Some?
    && (f.elem.None? <==> g.value.elem.None?)
    && (f.elem.Some? ==> Extends(f.elem.value, g.value.elem.value))
  }

  predicate Variant(name: string, key: string) { Matches(name, key) && key != name }

  /** When the older program's rewrite keeps what decides one field, read off the keys of the object:
      no key other than the field's own name matches it, or the last match is the greatest of those, or
      the field is always written and sorts after them. A field the older program does not know must
      be decided by the greatest key that matches. */
  predicate Keeps(f: Option<Field>, name: string, ms: seq<Member>) {
    var l := LastMember(ms, name);
    match f
    case None => forall k | k in Keys(ms) && Matches(name, k) :: l.Some? && (k == l.value.key || LexLess(k, l.value.key))
    case Some(f) =>
      || (l.Some? && l.value.key != name
          && forall k | k in Keys(ms) && Variant(name, k) :: k == l.value.key || LexLess(k, l.value.key))
      || (forall k | k in Keys(ms) && Variant(name, k) :: !f.omit && LexLess(k, name))
  }

  lemma SavedMap(s: Schema, e: Entity, name: string)
    requires WellFormed(s) && |s.fields| == |e.values|
    ensures MapOf(SaveMembers(s, e)) == Merged(SaveFields(s, 0, e), e.rest)
    ensures e.rest == map[] ==> SaveMembers(s, e) == SaveFields(s, 0, e)
    ensures var l := LastMember(SaveMembers(s, e), name);
            e.rest != map[] && l.Some? ==>
              forall k | k in MapOf(SaveMembers(s, e)) && Matches(name, k) :: k == l.value.key || LexLess(k, l.value.key)
  {
    var m := Merged(SaveFields(s, 0, e), e.rest);
    if e.rest == map[] {
      assert m == MapOf(SaveFields(s, 0, e));
    } else {
      SortedMap(m);
      LastSorted(m, name);
    }
  }

  /** What the newer program then finds for a field, given what the older one loaded: the value written
      for it, or the very value that decided it before. */
  ghost predicate Found(f: Field, v: Typed, before: Option<Member>, after: Option<Member>) {
    || (after.None? && v.Empty?)
    || (after.Some? && after.value.value == Write(f, v))
    || (after.Some? && before.Some? && after.value.value == before.value.value)
  }

  /** A key that matches a field of the struct is the field's name or unknown. */
  lemma VariantUnknown(s: Schema, name: string, k: string)
    requires WellFormed(s) && name in Names(s) && Matches(name, k)
    ensures k in Names(s) <==> k == name
  {
    if k in Names(s) {
      var f :| f in s.fields && f.name == k;
      var g :| g in s.fields && g.name == name;
      var i :| 0 <= i < |s.fields| && s.fields[i] == f;
      var j :| 0 <= j < |s.fields| && s.fields[j] == g;
      assert Matches(s.fields[j].name, s.fields[i].name);
    }
  }

  lemma KnownField(s: Schema, p: nat, ms: seq<Member>, e: Entity, out: seq<Member>)
    requires WellFormed(s) && p < |s.fields| && |e.values| == |s.fields|
    requires e.rest == Unknown(ms, Names(s)) && out == SaveMembers(s, e)
    requires Keeps(Some(s.fields[p]), s.fields[p].name, ms)
    ensures Found(s.fields[p], e.values[p], LastMember(ms, s.fields[p].name), LastMember(out, s.fields[p].name))
  {
    var f := s.fields[p];
    var typed, name := SaveFields(s, 0, e), s.fields[p].name;
    assert f in s.fields && name in Names(s);
    SavedMap(s, e, name);
    SavedField(s, 0, e, p);
    LastInMap(typed, name);
    var l := LastMember(out, name);
    if e.rest != map[] && l.Some? {
      SavedNames(s, 0, e);
      LastInMap(out, name);
      VariantUnknown(s, name, l.value.key);
      if l.value.key != name { KnownVariant(s, f, ms, e, out, l.value); }
    } else if e.rest != map[] {
      LastInMap(out, name);
    }
  }

  /** When another key than the field's name decides after the rewrite, it decided before. */
  lemma KnownVariant(s: Schema, f: Field, ms: seq<Member>, e: Entity, out: seq<Member>, m: Member)
    requires WellFormed(s) && f in s.fields && |e.values| == |s.fields| && e.rest == Unknown(ms, Names(s))
    requires Keeps(Some(f), f.name, ms)
    requires MapOf(out) == Merged(SaveFields(s, 0, e), e.rest) && m.key in e.rest && Variant(f.name, m.key)
    requires MapOf(out)[m.key] == m.value && m.key !in MapOf(SaveFields(s, 0, e))
    requires MapOf(SaveFields(s, 0, e)).Keys <= Names(s)
    requires f.omit || f.name in MapOf(SaveFields(s, 0, e))
    requires forall k | k in MapOf(out) && Matches(f.name, k) :: k == m.key || LexLess(k, m.key)
    ensures LastMember(ms, f.name).Some? && LastMember(ms, f.name).value.value == m.value
  {
    var before := LastMember(ms, f.name);
    LastInMap(ms, f.name);
    MapOfKeys(ms);
    assert m.key in Keys(ms);
    if before.Some? && before.value.key != f.name {
      var h := before.value.key;
      assert f.name in Names(s);
      VariantUnknown(s, f.name, h);
      assert h in e.rest && h in MapOf(out);
      LexTotal(h, m.key);
    }
    LexTotal(f.name, m.key);
  }

  /** A field only the newer program knows is decided by the same value as before. */
  lemma NewField(s: Schema, name: string, ms: seq<Member>, e: Entity, out: seq<Member>)
    requires WellFormed(s) && |e.values| == |s.fields|
    requires e.rest == Unknown(ms, Names(s)) && out == SaveMembers(s, e)
    requires forall k | 0 <= k < |s.fields| :: !Matches(name, s.fields[k].name)
    requires Keeps(None, name, ms)
    ensures var before, after := LastMember(ms, name), LastMember(out, name);
            if before.None? then after.None? else after.Some? && after.value.value == before.value.value
  {
    var typed, before, after := SaveFields(s, 0, e), LastMember(ms, name), LastMember(out, name);
    SavedMap(s, e, name);
    SavedOther(s, 0, e, name);
    LastInMap(typed, name);
    LastInMap(ms, name);
    LastInMap(out, name);
    MapOfKeys(ms);
    if before.Some? {
      assert before.value.key in e.rest;
      assert after.Some?;
      var k := after.value.key;
      assert k in e.rest && k in Keys(ms);
      LexTotal(k, before.value.key);
    }
  }

  lemma SameRest(s: Schema, t: Schema, ms: seq<Member>, e: Entity)
    requires WellFormed(s) && |e.values| == |s.fields| && e.rest == Unknown(ms, Names(s)) && Names(s) <= Names(t)
    ensures Unknown(SaveMembers(s, e), Names(t)) == Unknown(ms, Names(t))
  {
    SavedMap(s, e, "");
    SavedNames(s, 0, e);
  }

  /** At every object the older program reads into a struct, the keys let it keep every field. */
  predicate KeptIn(s: Schema, t: Schema, j: Json)
    decreases s
  {
    forall q | 0 <= q < |t.fields| :: KeptField(s, t.fields[q], Members(j))
  }

  predicate KeptField(s: Schema, g: Field, ms: seq<Member>)
    decreases s, 1
  {
    Keeps(FieldOf(s.fields, g.name), g.name, ms) && KeptBelow(s, g, ms)
  }

  /** The part of it about the objects inside the field's value. */
  predicate KeptBelow(s: Schema, g: Field, ms: seq<Member>)
    decreases s, 0
  {
    var f, m := FieldOf(s.fields, g.name), LastMember(ms, g.name);
    && (f.Some? && f.value.elem.Some? && g.elem.Some? && m.Some? && m.value.value.Array? ==>
          forall i | 0 <= i < |m.value.value.items| :: KeptIn(f.value.elem.value, g.elem.value, m.value.value.items[i]))
  }

  lemma KeptInside(s: Schema, f: Field, g: Field, ms: seq<Member>, v: Json)
    requires KeptBelow(s, g, ms) && FieldOf(s.fields, g.name) == Some(f)
    requires LastMember(ms, g.name).Some? && LastMember(ms, g.name).value.value == v
    ensures f.elem.Some? && g.elem.Some? && v.Array? ==>
              forall i | 0 <= i < |v.items| :: KeptIn(f.elem.value, g.elem.value, v.items[i])
  {
  }

  /** A file read and written by a program that knows fewer fields reads, in the program that knows
      them, as if it had never been touched: every field and every preserved key, at every level. */
  lemma {:induction false} Lossless(s: Schema, t: Schema, j: Json)
    requires WellFormed(s) && WellFormed(t) && Extends(s, t) && KeptIn(s, t, j)
    ensures Load(t, Save(s, Load(s, j))) == Load(t, j)
    decreases j, 1
  {
    var e := Load(s, j);
    var out := SaveMembers(s, e);
    NamesIncluded(s, t);
    SameRest(s, t, Members(j), e);
    LoadAt(t, Object(out));
    LoadAt(t, j);
    forall q | 0 <= q < |t.fields| ensures FieldValue(t.fields[q], out) == FieldValue(t.fields[q], Members(j)) {
      SameField(s, t, q, j, e, out);
    }
    assert Load(t, Object(out)).values == Load(t, j).values;
  }

  lemma NamesIncluded(s: Schema, t: Schema)
    requires Extends(s, t)
    ensures Names(s) <= Names(t)
  {
    forall n | n in Names(s) ensures n in Names(t) {
      var f :| f in s.fields && f.name == n;
      var i :| 0 <= i < |s.fields| && s.fields[i] == f;
      assert Continued(s.fields[i], FieldOf(t.fields, n));
    }
  }

  lemma {:induction false} SameField(s: Schema, t: Schema, q: nat, j: Json, e: Entity, out: seq<Member>)
    requires WellFormed(s) && WellFormed(t) && Extends(s, t) && KeptIn(s, t, j)
    requires q < |t.fields| && e == Load(s, j) && out == SaveMembers(s, e)
    ensures FieldValue(t.fields[q], out) == FieldValue(t.fields[q], Members(j))
    decreases j, 0
  {
    var g, ms := t.fields[q], Members(j);
    assert KeptField(s, g, ms);
    match FieldOf(s.fields, g.name)
    case None =>
      OnlyNew(s, t, q);
      NewField(s, g.name, ms, e, out);
    case Some(f) =>
      var p :| 0 <= p < |s.fields| && s.fields[p] == f;
      SameName(s, t, p, q);
      KnownField(s, p, ms, e, out);
      LoadAt(s, j);
      var before := LastMember(ms, g.name);
      if before.Some? {
        KeptInside(s, f, g, ms, before.value.value);
        ReadBack(f, g, before.value.value);
      }
  }

  lemma OnlyNew(s: Schema, t: Schema, q: nat)
    requires WellFormed(t) && Extends(s, t) && q < |t.fields| && FieldOf(s.fields, t.fields[q].name).None?
    ensures forall k | 0 <= k < |s.fields| :: !Matches(t.fields[q].name, s.fields[k].name)
  {
    forall k | 0 <= k < |s.fields| ensures !Matches(t.fields[q].name, s.fields[k].name) {
      var g := FieldOf(t.fields, s.fields[k].name);
      assert Continued(s.fields[k], g);
      var i :| 0 <= i < |t.fields| && t.fields[i] == g.value;
      assert s.fields[k] in s.fields;
      assert Matches(t.fields[q].name, t.fields[i].name) ==> i == q;
    }
  }

  lemma SameName(s: Schema, t: Schema, p: nat, q: nat)
    requires WellFormed(t) && Extends(s, t) && p < |s.fields| && q < |t.fields| && s.fields[p].name == t.fields[q].name
    ensures Continued(s.fields[p], Some(t.fields[q]))
  {
    var g := FieldOf(t.fields, s.fields[p].name);
    assert Continued(s.fields[p], g);
    var i :| 0 <= i < |t.fields| && t.fields[i] == g.value;
    assert Matches(t.fields[q].name, t.fields[i].name);
  }

  /** What one program writes of a value it read, the other reads as the value. */
  lemma {:induction false} ReadBack(f: Field, g: Field, v: Json)
    requires Continued(f, Some(g))
    requires f.elem.Some? ==> WellFormed(f.elem.value) && WellFormed(g.elem.value)
    requires f.elem.Some? && v.Array? ==> forall i | 0 <= i < |v.items| :: KeptIn(f.elem.value, g.elem.value, v.items[i])
    ensures Read(g, Write(f, Read(f, v))) == Read(g, v)
    decreases v, 2
  {
    if f.elem.Some? && v.Array? && v.items != [] { AllBack(f.elem.value, g.elem.value, v.items); }
  }

  lemma {:induction false} AllBack(s: Schema, t: Schema, js: seq<Json>)
    requires WellFormed(s) && WellFormed(t) && Extends(s, t) && forall i | 0 <= i < |js| :: KeptIn(s, t, js[i])
    ensures LoadAll(t, SaveAll(s, LoadAll(s, js))) == LoadAll(t, js)
    decreases js
  {
    if js != [] {
      Lossless(s, t, js[0]);
      AllBack(s, t, js[1..]);
      var es := LoadAll(s, js);
      assert es[1..] == LoadAll(s, js[1..]);
      assert SaveAll(s, es)[1..] == SaveAll(s, es[1..]);
    }
  }

  lemma {:induction false} LoadAllConcat(s: Schema, a: seq<Json>, b: seq<Json>)
    ensures LoadAll(s, a + b) == LoadAll(s, a) + LoadAll(s, b)
    decreases |a|
  {
    if a == [] {
      assert a + b == b;
    } else {
      assert (a + b)[1..] == a[1..] + b;
      LoadAllConcat(s, a[1..], b);
    }
  }

  lemma {:induction false} SaveAllConcat(s: Schema, a: seq<Entity>, b: seq<Entity>)
    ensures SaveAll(s, a + b) == SaveAll(s, a) + SaveAll(s, b)
    decreases |a|
  {
    if a == [] {
      assert a + b == b;
    } else {
      assert (a + b)[1..] == a[1..] + b;
      SaveAllConcat(s, a[1..], b);
    }
  }

  /** Registering other entries leaves these as they were: the older program may save any entries after
      the ones it loaded. */
  lemma OthersSurviveAnEdit(s: Schema, t: Schema, js: seq<Json>, more: seq<Entity>)
    requires WellFormed(s) && WellFormed(t) && Extends(s, t) && forall i | 0 <= i < |js| :: KeptIn(s, t, js[i])
    ensures LoadAll(t, SaveAll(s, LoadAll(s, js) + more)) == LoadAll(t, js) + LoadAll(t, SaveAll(s, more))
  {
    SaveAllConcat(s, LoadAll(s, js), more);
    LoadAllConcat(t, SaveAll(s, LoadAll(s, js)), SaveAll(s, more));
    AllBack(s, t, js);
  }

  /** A field that is written has its own value in the file, whatever was preserved under its name. */
  lemma TypedWins(s: Schema, e: Entity, p: nat)
    requires WellFormed(s) && |s.fields| == |e.values| && p < |s.fields| && !Omitted(s.fields[p], e.values[p])
    ensures var m := MapOf(SaveMembers(s, e));
            s.fields[p].name in m && m[s.fields[p].name] == Write(s.fields[p], e.values[p])
  {
    SavedMap(s, e, s.fields[p].name);
    SavedField(s, 0, e, p);
    LastInMap(SaveFields(s, 0, e), s.fields[p].name);
  }

  // ----- the condition is exact -----

  /** An object with these keys and these values. */
  function Zip(ks: seq<string>, vs: seq<Json>): seq<Member>
    requires |ks| == |vs|
  {
    if ks == [] then [] else [Member(ks[0], vs[0])] + Zip(ks[1..], vs[1..])
  }

  ghost predicate LosslessOn(s: Schema, t: Schema, j: Json) { Load(t, Save(s, Load(s, j))) == Load(t, j) }

  predicate AllKept(s: Schema, t: Schema, ms: seq<Member>) {
    forall q | 0 <= q < |t.fields| :: Keeps(FieldOf(s.fields, t.fields[q].name), t.fields[q].name, ms)
  }

  /** The objects inside the fields' values keep every field; nothing is asked of a struct without any. */
  predicate AllBelow(s: Schema, t: Schema, ms: seq<Member>) {
    forall q | 0 <= q < |t.fields| :: KeptBelow(s, t.fields[q], ms)
  }

  lemma {:induction false} KeysAlone(ks: seq<string>, vs: seq<Json>, us: seq<Json>, name: string)
    requires |ks| == |vs| == |us|
    ensures var l, m := LastMember(Zip(ks, vs), name), LastMember(Zip(ks, us), name);
            if l.Some? then m.Some? && m.value.key == l.value.key else m.None?
    ensures Keys(Zip(ks, vs)) == Keys(Zip(ks, us))
    decreases |ks|
  {
    if ks != [] {
      KeysAlone(ks[1..], vs[1..], us[1..], name);
      KeysCons(Member(ks[0], vs[0]), Zip(ks[1..], vs[1..]));
      KeysCons(Member(ks[0], us[0]), Zip(ks[1..], us[1..]));
    }
  }

  lemma KeysCons(m: Member, ms: seq<Member>)
    ensures Keys([m] + ms) == {m.key} + Keys(ms)
    ensures ([m] + ms)[1..] == ms
  {
  }

  lemma {:induction false} MapOfMember(ms: seq<Member>, k: string)
    requires k in MapOf(ms)
    ensures Member(k, MapOf(ms)[k]) in ms
  {
    if k in MapOf(ms[1..]) { MapOfMember(ms[1..], k); }
  }

  /** A value for every member of one key, nothing for the others. */
  function Mark(ks: seq<string>, g: string, x: Json): (vs: seq<Json>)
    ensures |vs| == |ks|
  {
    if ks == [] then [] else [if ks[0] == g then x else Zero] + Mark(ks[1..], g, x)
  }

  /** A value the field does not read as empty. */
  function Marker(f: Field): (x: Json)
    ensures Read(f, x) != Empty
    ensures x.Array? ==> x.items == [Object([])]
  {
    if f.elem.None? then Leaf("x") else Array([Object([])])
  }

  lemma {:induction false} Marked(ks: seq<string>, g: string, x: Json, m: Member)
    requires m in Zip(ks, Mark(ks, g, x))
    ensures m.value == if m.key == g then x else Zero
    decreases |ks|
  {
    if m != Zip(ks, Mark(ks, g, x))[0] {
      assert Mark(ks, g, x)[1..] == Mark(ks[1..], g, x);
      Marked(ks[1..], g, x, m);
    }
  }

  lemma EmptyKeeps(s: Schema, t: Schema)
    ensures KeptIn(s, t, Object([]))
  {
    forall q | 0 <= q < |t.fields| ensures KeptField(s, t.fields[q], []) {
      assert Keys([]) == {};
    }
  }

  lemma MarkedBelow(s: Schema, t: Schema, ks: seq<string>, g: string, x: Json)
    requires x.Array? ==> x.items == [Object([])]
    ensures AllBelow(s, t, Zip(ks, Mark(ks, g, x)))
  {
    var ms := Zip(ks, Mark(ks, g, x));
    forall q | 0 <= q < |t.fields| ensures KeptBelow(s, t.fields[q], ms) {
      var f, m := FieldOf(s.fields, t.fields[q].name), LastMember(ms, t.fields[q].name);
      if m.Some? { Marked(ks, g, x, m.value); }
      if f.Some? && f.value.elem.Some? && t.fields[q].elem.Some? {
        EmptyKeeps(f.value.elem.value, t.fields[q].elem.value);
      }
    }
  }

  ghost function Greatest(ks: set<string>): (k: string)
    requires ks != {}
    ensures k in ks && forall x | x in ks :: x == k || LexLess(x, k)
    decreases |ks|
  {
    var k :| k in ks;
    if ks == {k} then k
    else
      var l := Greatest(ks - {k});
      LexTotal(k, l);
      if LexLess(k, l) then l
      else
        assert forall x | x in ks :: x == k || LexLess(x, k) by {
          forall x | x in ks && x != k ensures LexLess(x, k) {
            if x != l { LexTransitive(x, l, k); }
          }
        }
        k
  }

  /** The marked values, when another key than the marked one decides the field. */
  lemma MarkedEmpty(f: Field, ks: seq<string>, g: string, x: Json, ms: seq<Member>)
    requires ms == Zip(ks, Mark(ks, g, x)) && (LastMember(ms, f.name).Some? ==> LastMember(ms, f.name).value.key != g)
    ensures FieldValue(f, ms) == Empty
  {
    var l := LastMember(ms, f.name);
    if l.Some? { Marked(ks, g, x, l.value); }
  }

  lemma MarkedValue(ks: seq<string>, g: string, x: Json, ms: seq<Member>)
    requires ms == Zip(ks, Mark(ks, g, x)) && g in Keys(ms)
    ensures g in MapOf(ms) && MapOf(ms)[g] == x
  {
    MapOfKeys(ms);
    MapOfMember(ms, g);
    Marked(ks, g, x, Member(g, MapOf(ms)[g]));
  }

  /** Where the condition fails, some values are read differently after the rewrite. */
  lemma LostKnown(s: Schema, t: Schema, p: nat, q: nat, ks: seq<string>, g: string, x: Json, j: Json)
    requires WellFormed(s) && p < |s.fields| && q < |t.fields| && s.fields[p].name == t.fields[q].name
    requires x == Marker(t.fields[q]) && j.Object? && j.members == Zip(ks, Mark(ks, g, x))
    requires !Keeps(Some(s.fields[p]), s.fields[p].name, j.members)
    requires g in Keys(j.members) && Variant(s.fields[p].name, g)
    requires forall k | k in Keys(j.members) && Variant(s.fields[p].name, k) :: k == g || LexLess(k, g)
    ensures !LosslessOn(s, t, j)
  {
    var ms, name, e := j.members, s.fields[p].name, Load(s, j);
    var out := SaveMembers(s, e);
    NotKept(s.fields[p], ms, g);
    MarkedEmpty(s.fields[p], ks, g, x, ms);
    MarkedEmpty(t.fields[q], ks, g, x, ms);
    LoadAt(s, j);
    assert s.fields[p] in s.fields && name in Names(s);
    VariantUnknown(s, name, g);
    MarkedValue(ks, g, x, ms);
    LostWinner(s, p, ms, e, out, g);
    LoadAt(t, j);
    LoadAt(t, Object(out));
  }

  lemma NotKept(f: Field, ms: seq<Member>, g: string)
    requires !Keeps(Some(f), f.name, ms) && g in Keys(ms) && Variant(f.name, g)
    requires forall k | k in Keys(ms) && Variant(f.name, k) :: k == g || LexLess(k, g)
    ensures LastMember(ms, f.name).Some? && LastMember(ms, f.name).value.key != g
    ensures f.omit || LexLess(f.name, g)
  {
    LastInMap(ms, f.name);
    MapOfKeys(ms);
    var k :| k in Keys(ms) && Variant(f.name, k) && (f.omit || !LexLess(k, f.name));
    LexTotal(k, f.name);
    if !f.omit && k != g { LexTransitive(f.name, k, g); }
  }

  /** The greatest variant decides after the rewrite when the field is omitted or sorts before it. */
  lemma LostWinner(s: Schema, p: nat, ms: seq<Member>, e: Entity, out: seq<Member>, g: string)
    requires WellFormed(s) && p < |s.fields| && |e.values| == |s.fields| && e.values[p] == Empty
    requires e.rest == Unknown(ms, Names(s)) && out == SaveMembers(s, e) && g in e.rest
    requires Variant(s.fields[p].name, g)
    requires forall k | k in Keys(ms) && Variant(s.fields[p].name, k) :: k == g || LexLess(k, g)
    requires s.fields[p].omit || LexLess(s.fields[p].name, g)
    ensures LastMember(out, s.fields[p].name).Some?
            && LastMember(out, s.fields[p].name).value.value == MapOf(ms)[g]
  {
    var f, name := s.fields[p], s.fields[p].name;
    assert f in s.fields && name in Names(s);
    var typed := SaveFields(s, 0, e);
    SavedMap(s, e, name);
    SavedField(s, 0, e, p);
    SavedNames(s, 0, e);
    LastInMap(typed, name);
    LastInMap(out, name);
    MapOfKeys(ms);
    VariantUnknown(s, name, g);
    var after := LastMember(out, name);
    assert g in MapOf(out);
    var k := after.value.key;
    LexTotal(g, k);
    VariantUnknown(s, name, k);
    assert k == name || (k in e.rest && k in Keys(ms));
    assert k == name ==> !f.omit;
  }

  lemma LostNew(s: Schema, t: Schema, q: nat, ks: seq<string>, g: string, x: Json, j: Json)
    requires WellFormed(s) && WellFormed(t) && Extends(s, t) && q < |t.fields|
    requires FieldOf(s.fields, t.fields[q].name).None? && x == Marker(t.fields[q])
    requires j.Object? && j.members == Zip(ks, Mark(ks, g, x))
    requires !Keeps(None, t.fields[q].name, j.members)
    requires g in Keys(j.members) && Matches(t.fields[q].name, g)
    requires forall k | k in Keys(j.members) && Matches(t.fields[q].name, k) :: k == g || LexLess(k, g)
    ensures !LosslessOn(s, t, j)
  {
    var ms, f, e := j.members, t.fields[q], Load(s, j);
    var out := SaveMembers(s, e);
    OnlyNew(s, t, q);
    NotKeptNew(f.name, ms, g);
    MarkedEmpty(f, ks, g, x, ms);
    MarkedValue(ks, g, x, ms);
    LostNewWinner(s, f.name, ms, e, out, g);
    LoadAt(t, j);
    LoadAt(t, Object(out));
  }

  lemma NotKeptNew(name: string, ms: seq<Member>, g: string)
    requires !Keeps(None, name, ms) && g in Keys(ms) && Matches(name, g)
    requires forall k | k in Keys(ms) && Matches(name, k) :: k == g || LexLess(k, g)
    ensures LastMember(ms, name).Some? ==> LastMember(ms, name).value.key != g
  {
  }

  lemma LostNewWinner(s: Schema, name: string, ms: seq<Member>, e: Entity, out: seq<Member>, g: string)
    requires WellFormed(s) && |e.values| == |s.fields| && e.rest == Unknown(ms, Names(s)) && out == SaveMembers(s, e)
    requires forall k | 0 <= k < |s.fields| :: !Matches(name, s.fields[k].name)
    requires g in MapOf(ms) && Matches(name, g)
    requires forall k | k in Keys(ms) && Matches(name, k) :: k == g || LexLess(k, g)
    ensures LastMember(out, name).Some? && LastMember(out, name).value.value == MapOf(ms)[g]
  {
    var typed := SaveFields(s, 0, e);
    SavedMap(s, e, name);
    SavedOther(s, 0, e, name);
    LastInMap(typed, name);
    LastInMap(out, name);
    MapOfKeys(ms);
    assert g in e.rest && g in MapOf(out);
    var k := LastMember(out, name).value.key;
    assert k in e.rest && k in Keys(ms);
    LexTotal(g, k);
  }

  /** The condition on one object's keys is exact, at every level: where the objects inside lose nothing,
      the older program's rewrite loses nothing, whatever the values, exactly when the keys keep every
      field. */
  lemma LosslessIff(s: Schema, t: Schema, ks: seq<string>, us: seq<Json>)
    requires WellFormed(s) && WellFormed(t) && Extends(s, t) && |us| == |ks|
    ensures AllKept(s, t, Zip(ks, us)) <==>
            forall vs | |vs| == |ks| && AllBelow(s, t, Zip(ks, vs)) :: LosslessOn(s, t, Object(Zip(ks, vs)))
  {
    if AllKept(s, t, Zip(ks, us)) {
      forall vs: seq<Json> | |vs| == |ks| && AllBelow(s, t, Zip(ks, vs)) ensures LosslessOn(s, t, Object(Zip(ks, vs))) {
        forall q | 0 <= q < |t.fields| ensures KeptField(s, t.fields[q], Zip(ks, vs)) {
          KeysAlone(ks, us, vs, t.fields[q].name);
          KeepsKeys(FieldOf(s.fields, t.fields[q].name), t.fields[q].name, Zip(ks, us), Zip(ks, vs));
        }
        assert Members(Object(Zip(ks, vs))) == Zip(ks, vs);
        Lossless(s, t, Object(Zip(ks, vs)));
      }
    } else {
      var q :| 0 <= q < |t.fields| && !Keeps(FieldOf(s.fields, t.fields[q].name), t.fields[q].name, Zip(ks, us));
      var vs := Losing(s, t, q, ks, us);
    }
  }

  lemma Losing(s: Schema, t: Schema, q: nat, ks: seq<string>, us: seq<Json>) returns (vs: seq<Json>)
    requires WellFormed(s) && WellFormed(t) && Extends(s, t) && |us| == |ks| && q < |t.fields|
    requires !Keeps(FieldOf(s.fields, t.fields[q].name), t.fields[q].name, Zip(ks, us))
    ensures |vs| == |ks| && AllBelow(s, t, Zip(ks, vs)) && !LosslessOn(s, t, Object(Zip(ks, vs)))
  {
    var x := Marker(t.fields[q]);
    var g: string;
    match FieldOf(s.fields, t.fields[q].name)
    case None =>
      g := LosingNew(s, t, q, ks, us, x);
      vs := Mark(ks, g, x);
      MarkedBelow(s, t, ks, g, x);
    case Some(f) =>
      var p :| 0 <= p < |s.fields| && s.fields[p] == f;
      g := LosingKnown(s, t, p, q, ks, us, x);
      vs := Mark(ks, g, x);
      MarkedBelow(s, t, ks, g, x);
  }

  lemma LosingNew(s: Schema, t: Schema, q: nat, ks: seq<string>, us: seq<Json>, x: Json) returns (g: string)
    requires WellFormed(s) && WellFormed(t) && Extends(s, t) && |us| == |ks| && q < |t.fields| && x == Marker(t.fields[q])
    requires FieldOf(s.fields, t.fields[q].name).None? && !Keeps(None, t.fields[q].name, Zip(ks, us))
    ensures !LosslessOn(s, t, Object(Zip(ks, Mark(ks, g, x))))
  {
    var name := t.fields[q].name;
    var bad := set k | k in Keys(Zip(ks, us)) && Matches(name, k);
    assert forall k | k in Keys(Zip(ks, us)) && Matches(name, k) :: k in bad;
    g := Greatest(bad);
    var vs := Mark(ks, g, x);
    KeysAlone(ks, us, vs, name);
    KeepsKeys(None, name, Zip(ks, us), Zip(ks, vs));
    LostNew(s, t, q, ks, g, x, Object(Zip(ks, vs)));
  }

  lemma LosingKnown(s: Schema, t: Schema, p: nat, q: nat, ks: seq<string>, us: seq<Json>, x: Json) returns (g: string)
    requires WellFormed(s) && WellFormed(t) && Extends(s, t) && |us| == |ks| && q < |t.fields| && x == Marker(t.fields[q])
    requires p < |s.fields| && s.fields[p].name == t.fields[q].name
    requires !Keeps(Some(s.fields[p]), t.fields[q].name, Zip(ks, us))
    ensures !LosslessOn(s, t, Object(Zip(ks, Mark(ks, g, x))))
  {
    var name := t.fields[q].name;
    var bad := set k | k in Keys(Zip(ks, us)) && Variant(name, k);
    assert forall k | k in Keys(Zip(ks, us)) && Variant(name, k) :: k in bad;
    g := Greatest(bad);
    var vs := Mark(ks, g, x);
    KeysAlone(ks, us, vs, name);
    KeepsKeys(Some(s.fields[p]), name, Zip(ks, us), Zip(ks, vs));
    LostKnown(s, t, p, q, ks, g, x, Object(Zip(ks, vs)));
  }

  lemma KeepsKeys(f: Option<Field>, name: string, ms: seq<Member>, ns: seq<Member>)
    requires Keys(ms) == Keys(ns)
    requires var l, m := LastMember(ms, name), LastMember(ns, name);
             if l.Some? then m.Some? && m.value.key == l.value.key else m.None?
    ensures Keeps(f, name, ms) <==> Keeps(f, name, ns)
  {
  }

  /** A file whose keys are spelled as the newer program spells them keeps every field. */
  lemma ExactKeysKeep(s: Schema, t: Schema, ms: seq<Member>)
    requires forall q, k | 0 <= q < |t.fields| && k in Keys(ms) :: !Variant(t.fields[q].name, k)
    ensures AllKept(s, t, ms)
  {
    forall q | 0 <= q < |t.fields| ensures Keeps(FieldOf(s.fields, t.fields[q].name), t.fields[q].name, ms) {
      LastInMap(ms, t.fields[q].name);
      MapOfKeys(ms);
    }
  }

  /** A stray key in another case is taken for the field itself: one that sorts after the field's name
      hands its value to the field once the older program has sorted the keys. */
  lemma StrayCaseWins(s: Schema, p: nat, h: string, a: Json, b: Json)
    requires WellFormed(s) && p < |s.fields| && Variant(s.fields[p].name, h) && LexLess(s.fields[p].name, h)
    ensures var j := Object([Member(h, a), Member(s.fields[p].name, b)]);
            && Load(s, j).values[p] == Read(s.fields[p], b)
            && Load(s, Save(s, Load(s, j))).values[p] == Read(s.fields[p], a)
  {
    var f, name := s.fields[p], s.fields[p].name;
    var ms := [Member(h, a), Member(name, b)];
    StrayPair(ms, name, h);
    var e := Load(s, Object(ms));
    var out := SaveMembers(s, e);
    LoadAt(s, Object(ms));
    LoadAt(s, Object(out));
    assert f in s.fields && name in Names(s);
    VariantUnknown(s, name, h);
    StrayWinner(s, p, e, out, h);
  }

  lemma StrayPair(ms: seq<Member>, name: string, h: string)
    requires |ms| == 2 && ms[0].key == h && ms[1].key == name && Variant(name, h)
    ensures LastMember(ms, name) == Some(ms[1])
    ensures MapOf(ms) == map[h := ms[0].value, name := ms[1].value]
  {
    assert ms[1..] == [ms[1]] && ms[1..][1..] == [];
    assert LastMember(ms[1..], name) == Some(ms[1]);
    assert MapOf(ms[1..]) == map[name := ms[1].value];
  }

  lemma StrayWinner(s: Schema, p: nat, e: Entity, out: seq<Member>, h: string)
    requires WellFormed(s) && p < |s.fields| == |e.values| && Variant(s.fields[p].name, h) && LexLess(s.fields[p].name, h)
    requires out == SaveMembers(s, e) && h in e.rest && h !in Names(s)
    requires forall k | k in e.rest :: k == h || k == s.fields[p].name
    ensures LastMember(out, s.fields[p].name).Some? && LastMember(out, s.fields[p].name).value.value == e.rest[h]
  {
    var name := s.fields[p].name;
    assert s.fields[p] in s.fields && name in Names(s);
    SavedMap(s, e, name);
    SavedNames(s, 0, e);
    LastInMap(out, name);
    assert h in MapOf(out);
    var k := LastMember(out, name).value.key;
    VariantUnknown(s, name, k);
    LexTotal(h, k);
    LexTotal(h, name);
  }
}
