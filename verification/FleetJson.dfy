/** fleet.json as objects with members in order: loading, saving, and the two loops of internal/fleet that
    keep the keys a program does not know. */
module FleetJson {
  import opened Text

  /** A value by what it decodes to: Zero is whatever the field's type calls empty (null for a list, an
      empty string, 0, false). A leaf is any other value that is not looked into. */
  datatype Json = Zero | Leaf(text: string) | Array(items: seq<Json>) | Object(members: seq<Member>)
  datatype Member = Member(key: string, value: Json)

  /** A struct type: its fields in order, each with its name, whether it is omitted when empty, and for
      a list of structs that keep unknown fields themselves, the type of those. */
  datatype Schema = Schema(fields: seq<Field>)
  datatype Field = Field(name: string, omit: bool, elem: Option<Schema>)

  datatype Typed = Empty | Opaque(json: Json) | Items(entities: seq<Entity>)

  /** A loaded struct: a value for each field, and the preserved keys. */
  datatype Entity = Entity(values: seq<Typed>, rest: map<string, Json>)

  // ----- encoding/json -----

  /** Letters that encoding/json takes for the same: cases of ASCII, the Kelvin sign and the long s. */
  function FoldChar(c: char): char {
    if 'a' <= c <= 'z' then (c as int - 'a' as int + 'A' as int) as char
    else if c as int == 0x212A then 'K'
    else if c as int == 0x17F then 'S'
    else c
  }

  predicate Matches(name: string, key: string) {
    |name| == |key| && forall i | 0 <= i < |name| :: FoldChar(name[i]) == FoldChar(key[i])
  }

  /** No two fields of one struct differ only in case. */
  predicate WellFormed(s: Schema) {
    && (forall i, j | 0 <= i < |s.fields| && 0 <= j < |s.fields| :: Matches(s.fields[i].name, s.fields[j].name) ==> i == j)
    && forall i | 0 <= i < |s.fields| :: s.fields[i].elem.Some? ==> WellFormed(s.fields[i].elem.value)
  }

  /** The member that decides a field: the last one whose key matches. */
  function LastMember(ms: seq<Member>, name: string): (m: Option<Member>)
    ensures m.Some? ==> m.value in ms && Matches(name, m.value.key)
  {
    if ms == [] then None
    else if LastMember(ms[1..], name).Some? then LastMember(ms[1..], name)
    else if Matches(name, ms[0].key) then Some(ms[0])
    else None
  }

  /** An object decoded into a map: the last member of a key counts. */
  function MapOf(ms: seq<Member>): map<string, Json> {
    if ms == [] then map[] else map[ms[0].key := ms[0].value] + MapOf(ms[1..])
  }

  function Keys(ms: seq<Member>): set<string> { set m | m in ms :: m.key }

  function Names(s: Schema): set<string> { set f | f in s.fields :: f.name }

  // ----- load and save -----

  function Unknown(ms: seq<Member>, known: set<string>): map<string, Json> { MapOf(ms) - known }

  /** The preserved keys and the marshalled fields, a field first. */
  function Merged(b: seq<Member>, rest: map<string, Json>): map<string, Json> { rest + MapOf(b) }

  function Members(j: Json): seq<Member> { if j.Object? then j.members else [] }

  function Load(s: Schema, j: Json): (e: Entity)
    ensures |e.values| == |s.fields|
    decreases j, 1, 0
  {
    Entity(LoadFields(s, 0, j), Unknown(Members(j), Names(s)))
  }

  function LoadFields(s: Schema, i: nat, j: Json): (vs: seq<Typed>)
    requires i <= |s.fields|
    ensures |vs| == |s.fields| - i
    decreases j, 0, |s.fields| - i
  {
    if i == |s.fields| then []
    else
      var m := LastMember(Members(j), s.fields[i].name);
      var v := if m.None? then Empty
               else
                 assert j.Object? && m.value in j.members;
                 Read(s.fields[i], m.value.value);
      [v] + LoadFields(s, i + 1, j)
  }

  function Read(f: Field, j: Json): Typed
    decreases j, 2, 0
  {
    if j.Zero? then Empty
    else if f.elem.None? then Opaque(j)
    else if j.Array? && j.items != [] then Items(LoadAll(f.elem.value, j.items))
    else Empty
  }

  function LoadAll(s: Schema, js: seq<Json>): (es: seq<Entity>)
    ensures |es| == |js|
    decreases js, 0, |js|
  {
    if js == [] then [] else [Load(s, js[0])] + LoadAll(s, js[1..])
  }

  /** An object's members in the order json.Marshal gives a map. */
  ghost function Sorted(m: map<string, Json>): seq<Member>
    decreases |m|
  {
    if m == map[] then []
    else
      var k := Least(m.Keys);
      [Member(k, m[k])] + Sorted(m - {k})
  }

  ghost function Least(ks: set<string>): (k: string)
    requires ks != {}
    ensures k in ks && forall x | x in ks :: x == k || LexLess(k, x)
    decreases |ks|
  {
    var k :| k in ks;
    if ks == {k} then k
    else
      var l := Least(ks - {k});
      LexTotal(k, l);
      if LexLess(l, k) then l
      else
        assert forall x | x in ks :: x == k || LexLess(k, x) by {
          forall x | x in ks && x != k ensures LexLess(k, x) {
            if x != l { LexTransitive(k, l, x); }
          }
        }
        k
  }

  /** What is marshalled of the fields, from field i on. */
  ghost function SaveFields(s: Schema, i: nat, e: Entity): seq<Member>
    decreases e, 0, |s.fields| - i
  {
    if i >= |s.fields| || i >= |e.values| then []
    else
      var f, v := s.fields[i], e.values[i];
      (if f.omit && v.Empty? then [] else [Member(f.name, Write(f, v))]) + SaveFields(s, i + 1, e)
  }

  ghost function SaveMembers(s: Schema, e: Entity): seq<Member>
    decreases e, 1, 0
  {
    if e.rest == map[] then SaveFields(s, 0, e) else Sorted(Merged(SaveFields(s, 0, e), e.rest))
  }

  ghost function Save(s: Schema, e: Entity): Json
    decreases e, 2, 0
  {
    Object(SaveMembers(s, e))
  }

  ghost function Write(f: Field, v: Typed): Json
    decreases v, 3, 0
  {
    match v
    case Empty => Zero
    case Opaque(j) => j
    case Items(es) => if f.elem.Some? then Array(SaveAll(f.elem.value, es)) else Zero
  }

  ghost function SaveAll(s: Schema, es: seq<Entity>): (js: seq<Json>)
    ensures |js| == |es|
    decreases es, 0, |es|
  {
    if es == [] then [] else [Save(s, es[0])] + SaveAll(s, es[1..])
  }

  // ----- the two loops over maps -----

  predicate DroppedBut(all: map<string, Json>, was: map<string, Json>, known: set<string>, todo: set<string>) {
    && (forall k | k in all :: k in was && all[k] == was[k] && (k in todo || k !in known))
    && (forall k | k in was && (k in todo || k !in known) :: k in all)
  }

  lemma DroppedAll(all: map<string, Json>, was: map<string, Json>, known: set<string>)
    requires DroppedBut(all, was, known, {})
    ensures all == was - known
  {
  }

  method CaptureUnknown(b: seq<Member>, known: set<string>) returns (all: map<string, Json>)
    ensures all == Unknown(b, known)
  {
    all := MapOf(b);
    ghost var was := all;
    var todo := all.Keys;
    while todo != {}
      invariant DroppedBut(all, was, known, todo)
      decreases |todo|
    {
      var k :| k in todo;
      if k in known { all := all - {k}; }
      todo := todo - {k};
    }
    DroppedAll(all, was, known);
  }

  /** A field first, else the preserved value. */
  predicate MergedBut(known: map<string, Json>, typed: map<string, Json>, rest: map<string, Json>, todo: set<string>) {
    && (forall k | k in known :: k in typed || (k in rest && k !in todo))
    && (forall k | k in typed :: k in known && known[k] == typed[k])
    && (forall k | k in rest && k !in todo :: k in known && (k in typed || known[k] == rest[k]))
  }

  method MergeUnknown(b: seq<Member>, rest: map<string, Json>) returns (known: map<string, Json>)
    ensures known == Merged(b, rest)
  {
    known := MapOf(b);
    ghost var typed := known;
    var todo := rest.Keys;
    while todo != {}
      invariant todo <= rest.Keys && MergedBut(known, typed, rest, todo)
      decreases |todo|
    {
      var k :| k in todo;
      if k !in known { known := known[k := rest[k]]; }
      todo := todo - {k};
    }
    MergedAll(known, typed, rest);
  }

  lemma MergedAll(known: map<string, Json>, typed: map<string, Json>, rest: map<string, Json>)
    requires MergedBut(known, typed, rest, {})
    ensures known == rest + typed
  {
  }

  // ----- objects as maps -----

  lemma {:induction false} MapOfKeys(ms: seq<Member>)
    ensures MapOf(ms).Keys == Keys(ms)
  {
    if ms != [] {
      MapOfKeys(ms[1..]);
      assert ms == [ms[0]] + ms[1..];
      assert Keys(ms) == {ms[0].key} + Keys(ms[1..]);
    }
  }

  /** The member that decides a field has the value the map has for its key. */
  lemma {:induction false} LastInMap(ms: seq<Member>, name: string)
    ensures var m := LastMember(ms, name);
            if m.Some? then m.value.key in MapOf(ms) && MapOf(ms)[m.value.key] == m.value.value
            else forall k | k in MapOf(ms) :: !Matches(name, k)
  {
    if ms != [] {
      LastInMap(ms[1..], name);
      assert forall k | k in MapOf(ms) :: k == ms[0].key || k in MapOf(ms[1..]);
    }
  }

  lemma {:induction false} SortedMap(m: map<string, Json>)
    ensures MapOf(Sorted(m)) == m
    decreases |m|
  {
    if m != map[] {
      var k := Least(m.Keys);
      SortedMap(m - {k});
      assert Sorted(m)[1..] == Sorted(m - {k});
      PutBack(m, k);
    }
  }

  lemma PutBack(m: map<string, Json>, k: string)
    requires k in m
    ensures map[k := m[k]] + (m - {k}) == m
  {
  }

  /** Among sorted members the greatest matching key decides. */
  lemma {:induction false} LastSorted(m: map<string, Json>, name: string)
    ensures var l := LastMember(Sorted(m), name);
            l.Some? ==> forall k | k in m && Matches(name, k) :: k == l.value.key || LexLess(k, l.value.key)
    decreases |m|
  {
    if m != map[] {
      var k := Least(m.Keys);
      var rest := m - {k};
      LastSorted(rest, name);
      SortedMap(rest);
      LastInMap(Sorted(rest), name);
      assert Sorted(m)[1..] == Sorted(rest);
      var l := LastMember(Sorted(m), name);
      if l.Some? {
        forall x | x in m && Matches(name, x) ensures x == l.value.key || LexLess(x, l.value.key) {
          if x != k { assert x in rest; }
        }
      }
    }
  }

  // ----- fields -----

  function FieldValue(f: Field, ms: seq<Member>): Typed {
    var m := LastMember(ms, f.name);
    if m.None? then Empty else Read(f, m.value.value)
  }

  lemma {:induction false} LoadFieldsAt(s: Schema, i: nat, j: Json, k: nat)
    requires i <= k < |s.fields|
    ensures LoadFields(s, i, j)[k - i] == FieldValue(s.fields[k], Members(j))
    decreases |s.fields| - i
  {
    if i < k { LoadFieldsAt(s, i + 1, j, k); }
  }

  lemma LoadAt(s: Schema, j: Json)
    ensures forall k | 0 <= k < |s.fields| :: Load(s, j).values[k] == FieldValue(s.fields[k], Members(j))
  {
    forall k | 0 <= k < |s.fields| ensures Load(s, j).values[k] == FieldValue(s.fields[k], Members(j)) {
      LoadFieldsAt(s, 0, j, k);
    }
  }

  function Omitted(f: Field, v: Typed): bool { f.omit && v.Empty? }

  lemma {:induction false} SavedField(s: Schema, i: nat, e: Entity, p: nat)
    requires WellFormed(s) && i <= |s.fields| == |e.values| && p < |s.fields|
    ensures LastMember(SaveFields(s, i, e), s.fields[p].name)
            == if p < i || Omitted(s.fields[p], e.values[p]) then None
               else Some(Member(s.fields[p].name, Write(s.fields[p], e.values[p])))
    decreases |s.fields| - i
  {
    if i < |s.fields| {
      SavedField(s, i + 1, e, p);
      OneMore(s, i, e, s.fields[p].name);
      assert Matches(s.fields[p].name, s.fields[i].name) ==> p == i;
    }
  }

  lemma OneMore(s: Schema, i: nat, e: Entity, name: string)
    requires i < |s.fields| == |e.values|
    ensures var f, tail := s.fields[i], LastMember(SaveFields(s, i + 1, e), name);
            LastMember(SaveFields(s, i, e), name)
            == if tail.Some? || Omitted(f, e.values[i]) || !Matches(name, f.name) then tail
               else Some(Member(f.name, Write(f, e.values[i])))
  {
    var f := s.fields[i];
    if !Omitted(f, e.values[i]) {
      assert SaveFields(s, i, e)[1..] == SaveFields(s, i + 1, e);
    } else {
      assert SaveFields(s, i, e) == SaveFields(s, i + 1, e);
    }
  }

  lemma {:induction false} SavedOther(s: Schema, i: nat, e: Entity, name: string)
    requires i <= |s.fields| == |e.values|
    requires forall k | 0 <= k < |s.fields| :: !Matches(name, s.fields[k].name)
    ensures LastMember(SaveFields(s, i, e), name) == None
    decreases |s.fields| - i
  {
    if i < |s.fields| {
      SavedOther(s, i + 1, e, name);
      OneMore(s, i, e, name);
    }
  }

  lemma {:induction false} SavedNames(s: Schema, i: nat, e: Entity)
    requires i <= |s.fields| == |e.values|
    ensures MapOf(SaveFields(s, i, e)).Keys <= Names(s)
    decreases |s.fields| - i
  {
    if i < |s.fields| {
      SavedNames(s, i + 1, e);
      assert s.fields[i] in s.fields;
      var f := s.fields[i];
      if !Omitted(f, e.values[i]) {
        assert SaveFields(s, i, e)[1..] == SaveFields(s, i + 1, e);
      } else {
        assert SaveFields(s, i, e) == SaveFields(s, i + 1, e);
      }
    }
  }
}
