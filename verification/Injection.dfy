/** Process data definitions, and the injection of values into process data on its way out: the
    layout of the fields, and the loop that overwrites the injected ones before every push. */
module Injection {
  import opened Lists
  import opened Wrappers

  newtype Byte = x: int | 0 <= x < 256

  /** Unlisted is what the type map answers for a name it does not hold. */
  datatype DataType = Float | Double | UInt8 | UInt16 | UInt32 | Int8 | Int16 | Int32 | Unlisted

  function TypeOf(name: string): DataType {
    if name == "float" then Float
    else if name == "double" then Double
    else if name == "uint8_t" then UInt8
    else if name == "uint16_t" then UInt16
    else if name == "uint32_t" then UInt32
    else if name == "int8_t" then Int8
    else if name == "int16_t" then Int16
    else if name == "int32_t" then Int32
    else Unlisted
  }

  function Size(t: DataType): nat {
    match t
    case Float | UInt32 | Int32 => 4
    case Double => 8
    case UInt8 | Int8 => 1
    case UInt16 | Int16 => 2
    case Unlisted => 0
  }

  datatype Field = Field(typeName: string, name: string)

  /** The definition text as a list of fields; None is the empty text. */
  type Definition = Option<seq<Field>>

  datatype Error = NoDescription | Unsupported(typeName: string) | NotMember | BadValue(text: string)

  datatype Lookup = Found(typ: DataType, offset: nat) | Missing(error: Error)

  function Find(d: seq<Field>, name: string, i: nat, offset: nat): Lookup
    requires i <= |d|
    decreases |d| - i
  {
    if i == |d| then Missing(NotMember)
    else if d[i].name == name then Found(TypeOf(d[i].typeName), offset)
    else if TypeOf(d[i].typeName).Unlisted? then Missing(Unsupported(d[i].typeName))
    else Find(d, name, i + 1, offset + Size(TypeOf(d[i].typeName)))
  }

  function LookUp(d: Definition, name: string): Lookup {
    if d.None? then Missing(NoDescription) else Find(d.value, name, 0, 0)
  }

  /** process_data::find_pd_offset_and_type: walk the fields, adding up their sizes. */
  method FindOffsetAndType(d: Definition, name: string) returns (r: Lookup)
    ensures r == LookUp(d, name)
  {
    if d.None? {
      return Missing(NoDescription);
    }
    var offset: nat := 0;
    var i := 0;
    while i < |d.value|
      invariant i <= |d.value| && Find(d.value, name, 0, 0) == Find(d.value, name, i, offset)
    {
      var typ := TypeOf(d.value[i].typeName);
      if d.value[i].name == name {
        return Found(typ, offset);
      }
      if typ.Unlisted? {
        return Missing(Unsupported(d.value[i].typeName));
      }
      offset := offset + Size(typ);
      i := i + 1;
    }
    r := Missing(NotMember);
  }

  /** Where field k starts: the sizes of all fields before it. */
  function Offset(d: seq<Field>, k: nat): nat
    requires k <= |d|
  {
    if k == 0 then 0 else Offset(d, k - 1) + Size(TypeOf(d[k - 1].typeName))
  }

  /** Field k is the first of that name, and all fields before it have sizes. */
  predicate FieldAt(d: seq<Field>, name: string, k: nat) {
    && k < |d| && d[k].name == name
    && forall j :: 0 <= j < k ==> d[j].name != name && !TypeOf(d[j].typeName).Unlisted?
  }

  ghost predicate FoundAt(d: seq<Field>, name: string, t: DataType, offset: nat, k: nat) {
    FieldAt(d, name, k) && t == TypeOf(d[k].typeName) && offset == Offset(d, k)
  }

  /** The walk finds a field exactly when its first occurrence follows sized fields only, and then
      answers its type and the sum of the sizes before it. */
  lemma FindIff(d: seq<Field>, name: string, t: DataType, offset: nat)
    ensures Find(d, name, 0, 0) == Found(t, offset) <==> exists k :: FoundAt(d, name, t, offset, k)
  {
    hide TypeOf;
    FindFrom(d, name, t, offset, 0);
  }

  lemma {:induction false} FindFrom(d: seq<Field>, name: string, t: DataType, offset: nat, i: nat)
    requires i <= |d|
    requires forall j :: 0 <= j < i ==> d[j].name != name && !TypeOf(d[j].typeName).Unlisted?
    ensures Find(d, name, i, Offset(d, i)) == Found(t, offset) <==> exists k :: FoundAt(d, name, t, offset, k)
    decreases |d| - i
  {
    hide TypeOf;
    if i < |d| && d[i].name == name {
      assert FieldAt(d, name, i);
      if Find(d, name, i, Offset(d, i)) == Found(t, offset) {
        assert FoundAt(d, name, t, offset, i);
      }
      forall k | FoundAt(d, name, t, offset, k) ensures k == i {}
    } else if i < |d| && !TypeOf(d[i].typeName).Unlisted? {
      FindFrom(d, name, t, offset, i + 1);
    }
  }

  /** Field k is of a type that is not listed, and the walk gets to it without having met the name. */
  predicate StopsAt(d: seq<Field>, name: string, k: nat) {
    && k < |d| && TypeOf(d[k].typeName).Unlisted?
    && (forall j :: 0 <= j <= k ==> d[j].name != name)
    && forall j :: 0 <= j < k ==> !TypeOf(d[j].typeName).Unlisted?
  }

  predicate Absent(d: seq<Field>, name: string) {
    forall j :: 0 <= j < |d| ==> d[j].name != name && !TypeOf(d[j].typeName).Unlisted?
  }

  /** How the walk fails: without a definition, at the first unlisted type before the name is met, or at
      the end of a definition that does not have the name. */
  lemma MissesIff(d: Definition, name: string)
    ensures LookUp(d, name) == Missing(NoDescription) <==> d == None
    ensures LookUp(d, name) == Missing(NotMember) <==> d.Some? && Absent(d.value, name)
    ensures forall typ :: LookUp(d, name) == Missing(Unsupported(typ)) <==>
              d.Some? && exists k: nat :: StopsAt(d.value, name, k) && d.value[k].typeName == typ
  {
    hide TypeOf;
    if d.Some? {
      MissesFrom(d.value, name, 0, 0);
    }
  }

  lemma {:induction false} MissesFrom(d: seq<Field>, name: string, i: nat, offset: nat)
    requires i <= |d| && forall j :: 0 <= j < i ==> d[j].name != name && !TypeOf(d[j].typeName).Unlisted?
    ensures var r := Find(d, name, i, offset);
            && r != Missing(NoDescription)
            && (r == Missing(NotMember) <==> Absent(d, name))
            && (forall typ :: r == Missing(Unsupported(typ)) <==>
                  exists k: nat :: StopsAt(d, name, k) && d[k].typeName == typ)
    decreases |d| - i
  {
    hide TypeOf;
    if i < |d| {
      if d[i].name == name {
        forall k: nat ensures !StopsAt(d, name, k) {}
      } else if TypeOf(d[i].typeName).Unlisted? {
        assert StopsAt(d, name, i);
        forall k: nat | StopsAt(d, name, k) ensures k == i {}
      } else {
        MissesFrom(d, name, i + 1, offset + Size(TypeOf(d[i].typeName)));
      }
    } else {
      forall k: nat ensures !StopsAt(d, name, k) {}
    }
  }

  lemma {:induction false} OffsetsRise(d: seq<Field>, j: nat, k: nat)
    requires j < k <= |d|
    ensures Offset(d, j) + Size(TypeOf(d[j].typeName)) <= Offset(d, k)
    decreases k
  {
    hide TypeOf;
    if j < k - 1 {
      OffsetsRise(d, j, k - 1);
    }
  }

  /** Fields of all listed types in a row, and one of a type that is not listed. */
  function OneOfEach(names: seq<string>): seq<Field>
    requires |names| == 10
  {
    [Field("float", names[0]), Field("double", names[1]), Field("uint8_t", names[2]), Field("uint16_t", names[3]),
     Field("uint32_t", names[4]), Field("int8_t", names[5]), Field("int16_t", names[6]), Field("int32_t", names[7]),
     Field("int64_t", names[8]), Field("float", names[9])]
  }

  const OFFSETS: seq<nat> := [0, 4, 12, 13, 15, 19, 20, 22, 26]
  const TYPES: seq<DataType> := [Float, Double, UInt8, UInt16, UInt32, Int8, Int16, Int32, Unlisted]

  /** The offsets and types of such a definition, in bytes; a field after the unlisted one is not found. */
  lemma OffsetsInBytes(names: seq<string>, k: nat)
    requires |names| == 10 && Distinct(names) && k < 10
    ensures LookUp(Some(OneOfEach(names)), names[k])
            == if k < 9 then Found(TYPES[k], OFFSETS[k]) else Missing(Unsupported("int64_t"))
  {
    var d := OneOfEach(names);
    FindsInBytes(names, k, if k < 9 then k else 8);
  }

  lemma {:induction false} FindsInBytes(names: seq<string>, k: nat, i: nat)
    requires |names| == 10 && Distinct(names) && i <= k < 10 && i < 9
    ensures var d := OneOfEach(names);
            Find(d, names[k], 0, 0) == Find(d, names[k], i, OFFSETS[i])
  {
    if i > 0 {
      FindsInBytes(names, k, i - 1);
    }
  }

  predicate Apart(a: nat, aSize: nat, b: nat, bSize: nat) {
    a + aSize <= b || b + bSize <= a
  }

  /** Fields found under different names lie within the definition's size and do not overlap. */
  lemma FieldsApart(d: seq<Field>, a: string, b: string)
    requires Find(d, a, 0, 0).Found? && Find(d, b, 0, 0).Found? && a != b
    ensures var (x, y) := (Find(d, a, 0, 0), Find(d, b, 0, 0));
            Apart(x.offset, Size(x.typ), y.offset, Size(y.typ))
  {
    hide Find, TypeOf, Size, Offset;
    var x, y := Find(d, a, 0, 0), Find(d, b, 0, 0);
    FindIff(d, a, x.typ, x.offset);
    FindIff(d, b, y.typ, y.offset);
    var i :| FoundAt(d, a, x.typ, x.offset, i);
    var k :| FoundAt(d, b, y.typ, y.offset, k);
    if i < k {
      OffsetsRise(d, i, k);
    } else {
      OffsetsRise(d, k, i);
    }
  }

  lemma FieldInBounds(d: seq<Field>, a: string)
    requires Find(d, a, 0, 0).Found?
    ensures var x := Find(d, a, 0, 0); x.offset + Size(x.typ) <= Offset(d, |d|)
  {
    hide Find, TypeOf, Size, Offset;
    var x := Find(d, a, 0, 0);
    FindIff(d, a, x.typ, x.offset);
    var i :| FoundAt(d, a, x.typ, x.offset, i);
    OffsetsRise(d, i, |d|);
  }

  /** One byte stored into a buffer. */
  datatype Store = Store(pos: nat, byte: Byte)

  predicate InBounds(stores: seq<Store>, length: nat) {
    forall i :: 0 <= i < |stores| ==> stores[i].pos < length
  }

  /** The buffer after the stores, made one after another. */
  function Apply(buf: seq<Byte>, stores: seq<Store>): (r: seq<Byte>)
    requires InBounds(stores, |buf|)
    ensures |r| == |buf|
  {
    if stores == [] then buf
    else
      var n := |stores| - 1;
      Apply(buf, stores[..n])[stores[n].pos := stores[n].byte]
  }

  lemma {:induction false} ApplyOn(buf: seq<Byte>, a: seq<Store>, b: seq<Store>)
    requires InBounds(a, |buf|) && InBounds(b, |buf|)
    ensures InBounds(a + b, |buf|) && Apply(buf, a + b) == Apply(Apply(buf, a), b)
    decreases |b|
  {
    if b == [] {
      assert a + b == a;
    } else {
      var n := |b| - 1;
      ApplyOn(buf, a, b[..n]);
      assert (a + b)[..|a + b| - 1] == a + b[..n];
    }
  }

  /** A value to be written at an offset. */
  datatype Patch = Patch(offset: nat, bytes: seq<Byte>) {
    predicate Covers(i: nat) {
      offset <= i < offset + |bytes|
    }

    function Stores(): (s: seq<Store>)
      ensures |s| == |bytes|
      ensures forall i :: 0 <= i < |s| ==> s[i] == Store(offset + i, bytes[i])
    {
      seq(|bytes|, i requires 0 <= i < |bytes| => Store(offset + i, bytes[i]))
    }
  }

  lemma {:induction false} ApplyPatch(buf: seq<Byte>, p: Patch, n: nat)
    requires p.offset + |p.bytes| <= |buf| && n <= |p.bytes|
    ensures InBounds(p.Stores()[..n], |buf|)
    ensures Apply(buf, p.Stores()[..n]) == buf[..p.offset] + p.bytes[..n] + buf[p.offset + n..]
  {
    if n > 0 {
      ApplyPatch(buf, p, n - 1);
      assert p.Stores()[..n][..n - 1] == p.Stores()[..n - 1];
    }
  }

  lemma PatchApplied(buf: seq<Byte>, p: Patch)
    requires p.offset + |p.bytes| <= |buf|
    ensures InBounds(p.Stores(), |buf|)
    ensures Apply(buf, p.Stores()) == buf[..p.offset] + p.bytes + buf[p.offset + |p.bytes|..]
  {
    hide Apply, InBounds;
    ApplyPatch(buf, p, |p.bytes|);
    TakeAll(p.Stores());
    TakeAll(p.bytes);
  }

  /** All stores of the patches, in order. */
  function AllStores(ps: seq<Patch>): seq<Store> {
    if ps == [] then [] else ps[0].Stores() + AllStores(ps[1..])
  }

  predicate Disjoint(ps: seq<Patch>) {
    forall i, j :: 0 <= i < j < |ps| ==> Apart(ps[i].offset, |ps[i].bytes|, ps[j].offset, |ps[j].bytes|)
  }

  predicate Within(ps: seq<Patch>, length: nat) {
    forall i :: 0 <= i < |ps| ==> ps[i].offset + |ps[i].bytes| <= length
  }

  /** r is buf with every patch laid over it, all at once: each patch can be read back from r, and
      outside the patches r is buf. */
  ghost predicate Overlaid(buf: seq<Byte>, ps: set<Patch>, r: seq<Byte>) {
    && |r| == |buf|
    && (forall p, i :: p in ps && 0 <= i < |r| && p.Covers(i) ==> r[i] == p.bytes[i - p.offset])
    && forall i :: 0 <= i < |r| && Uncovered(ps, i) ==> r[i] == buf[i]
  }

  ghost predicate Uncovered(ps: set<Patch>, i: nat) {
    forall p :: p in ps ==> !p.Covers(i)
  }

  ghost function SetOf(ps: seq<Patch>): set<Patch> {
    set p | p in ps
  }

  /** Stores of disjoint patches, one after another in any order, make one simultaneous overlay. */
  lemma {:induction false} StoresOverlay(buf: seq<Byte>, ps: seq<Patch>)
    requires Within(ps, |buf|) && Disjoint(ps)
    ensures InBounds(AllStores(ps), |buf|)
    ensures Overlaid(buf, SetOf(ps), Apply(buf, AllStores(ps)))
    decreases |ps|
  {
    if ps != [] {
      var p, rest := ps[0], ps[1..];
      var mid := Apply(buf, p.Stores());
      PatchApplied(buf, p);
      assert Within(rest, |mid|) && Disjoint(rest);
      StoresOverlay(mid, rest);
      ApplyOn(buf, p.Stores(), AllStores(rest));
      var r := Apply(buf, AllStores(ps));
      OverlaidFirst(buf, ps, mid, r);
    }
  }

  lemma OverlaidFirst(buf: seq<Byte>, ps: seq<Patch>, mid: seq<Byte>, r: seq<Byte>)
    requires ps != [] && Within(ps, |buf|) && Disjoint(ps)
    requires mid == buf[..ps[0].offset] + ps[0].bytes + buf[ps[0].offset + |ps[0].bytes|..]
    requires Overlaid(mid, SetOf(ps[1..]), r)
    ensures Overlaid(buf, SetOf(ps), r)
  {
    var p, rest := ps[0], ps[1..];
    var all, later := SetOf(ps), SetOf(rest);
    forall i | 0 <= i < |r| && p.Covers(i) ensures r[i] == p.bytes[i - p.offset] {
      forall q | q in later ensures !q.Covers(i) {
        var j :| 0 <= j < |rest| && rest[j] == q;
        assert q == ps[j + 1];
      }
      assert Uncovered(later, i);
    }
    forall q, i | q in all && 0 <= i < |r| && q.Covers(i) ensures r[i] == q.bytes[i - q.offset] {
      if q != p {
        var j :| 0 <= j < |ps| && ps[j] == q;
        assert q == rest[j - 1];
      }
    }
    forall i | 0 <= i < |r| && Uncovered(all, i) ensures r[i] == buf[i] {
      assert forall q :: q in later ==> q in all;
      assert Uncovered(later, i) && p in all && !p.Covers(i);
    }
  }

  /** Text to bytes, for each type; None where the number parser throws. */
  type Conversion = (DataType, string) -> Option<seq<Byte>>

  ghost predicate Converts(conv: Conversion) {
    forall t, s :: conv(t, s).Some? ==> |conv(t, s).value| == Size(t)
  }

  datatype Entry = Entry(text: string, initialized: bool, typ: DataType, offset: nat, value: seq<Byte>) {
    function AsPatch(): Patch {
      Patch(offset, value)
    }
  }

  datatype Resolution = Resolved(entry: Entry) | Unresolved(error: Error)

  function Resolve(d: Definition, conv: Conversion, name: string, text: string): Resolution {
    match LookUp(d, name)
    case Missing(error) => Unresolved(error)
    case Found(t, offset) =>
      match conv(t, text)
      case None => Unresolved(BadValue(text))
      case Some(value) => Resolved(Entry(text, true, t, offset, value))
  }

  type Entries = map<string, Entry>

  /** Entries already initialised were initialised from this definition. */
  ghost predicate Sound(d: Definition, conv: Conversion, entries: Entries) {
    forall n :: n in entries && entries[n].initialized ==> Resolve(d, conv, n, entries[n].text) == Resolved(entries[n])
  }

  /** The definition's fields fit into a buffer of that length. */
  predicate Holds(d: Definition, length: nat) {
    d.Some? ==> Offset(d.value, |d.value|) <= length
  }

  predicate Resolves(d: Definition, conv: Conversion, entries: Entries, n: string) {
    n in entries && Resolve(d, conv, n, entries[n].text).Resolved?
  }

  predicate AllResolve(d: Definition, conv: Conversion, entries: Entries, names: seq<string>) {
    forall i :: 0 <= i < |names| ==> Resolves(d, conv, entries, names[i])
  }

  function Ready(d: Definition, conv: Conversion, entries: Entries, n: string): Entry
    requires Resolves(d, conv, entries, n)
  {
    Resolve(d, conv, n, entries[n].text).entry
  }

  function PatchOf(d: Definition, conv: Conversion, entries: Entries, n: string): Patch
    requires Resolves(d, conv, entries, n)
  {
    Ready(d, conv, entries, n).AsPatch()
  }

  /** The fields that values are injected into lie within a buffer of that length. What lies beyond the
      buffer is no concern as long as nothing is injected there. */
  ghost predicate FieldsFit(d: Definition, conv: Conversion, entries: Entries, length: nat) {
    forall n :: Resolves(d, conv, entries, n) ==>
                  PatchOf(d, conv, entries, n).offset + |PatchOf(d, conv, entries, n).bytes| <= length
  }

  /** All fields fit if the definition as a whole does. */
  lemma SmallDefinitionFits(d: Definition, conv: Conversion, entries: Entries, length: nat)
    requires Converts(conv) && Holds(d, length)
    ensures FieldsFit(d, conv, entries, length)
  {
    hide Find, Size, Offset;
    forall n | Resolves(d, conv, entries, n)
      ensures PatchOf(d, conv, entries, n).offset + |PatchOf(d, conv, entries, n).bytes| <= length
    {
      FieldInBounds(d.value, n);
    }
  }

  /** The patches of the keys, in the order given. */
  ghost function Patches(d: Definition, conv: Conversion, entries: Entries, order: seq<string>): (ps: seq<Patch>)
    requires AllResolve(d, conv, entries, order)
    ensures |ps| == |order|
    ensures forall i :: 0 <= i < |ps| ==> ps[i] == PatchOf(d, conv, entries, order[i])
  {
    seq(|order|, i requires 0 <= i < |order| => PatchOf(d, conv, entries, order[i]))
  }

  /** Injected values go to intervals of the buffer that do not overlap. */
  lemma PatchesApart(d: Definition, conv: Conversion, entries: Entries, order: seq<string>, length: nat)
    requires Converts(conv) && Distinct(order) && FieldsFit(d, conv, entries, length)
    requires AllResolve(d, conv, entries, order)
    ensures Disjoint(Patches(d, conv, entries, order)) && Within(Patches(d, conv, entries, order), length)
  {
    hide Find, Size, Offset;
    var ps := Patches(d, conv, entries, order);
    forall i | 0 <= i < |ps| ensures ps[i].offset + |ps[i].bytes| <= length {
      assert Resolves(d, conv, entries, order[i]);
    }
    forall i, j | 0 <= i < j < |ps| ensures Apart(ps[i].offset, |ps[i].bytes|, ps[j].offset, |ps[j].bytes|) {
      assert Resolves(d, conv, entries, order[i]) && Resolves(d, conv, entries, order[j]);
      FieldsApart(d.value, order[i], order[j]);
    }
  }

  /** How many keys, from the front, a pass over the injections handles before one of them throws. */
  ghost function Handled(d: Definition, conv: Conversion, entries: Entries, order: seq<string>): (k: nat)
    ensures k <= |order|
    ensures AllResolve(d, conv, entries, order[..k])
    ensures k < |order| ==> !Resolves(d, conv, entries, order[k])
  {
    if order == [] || !Resolves(d, conv, entries, order[0]) then 0
    else 1 + Handled(d, conv, entries, order[1..])
  }

  /** The handled keys' patches, in any order of the keys, make one overlay. */
  lemma PatchesOverlay(d: Definition, conv: Conversion, entries: Entries, order: seq<string>, buf: seq<Byte>)
    requires Converts(conv) && Distinct(order) && FieldsFit(d, conv, entries, |buf|)
    requires AllResolve(d, conv, entries, order)
    ensures var ps := Patches(d, conv, entries, order);
            InBounds(AllStores(ps), |buf|) && Overlaid(buf, SetOf(ps), Apply(buf, AllStores(ps)))
  {
    hide Patches, Disjoint, Within, Overlaid, Apply, AllStores;
    PatchesApart(d, conv, entries, order, |buf|);
    StoresOverlay(buf, Patches(d, conv, entries, order));
  }

  /** An overlay is determined by the buffer and the set of patches. */
  lemma OverlayIsUnique(buf: seq<Byte>, ps: set<Patch>, r: seq<Byte>, r': seq<Byte>)
    requires Overlaid(buf, ps, r) && Overlaid(buf, ps, r')
    ensures r == r'
  {
    forall i | 0 <= i < |r| ensures r[i] == r'[i] {
      if !Uncovered(ps, i) {
        var p :| p in ps && p.Covers(i);
      }
    }
  }

  /** The order in which the injections are listed does not matter. */
  lemma OrderIsIrrelevant(d: Definition, conv: Conversion, entries: Entries, a: seq<string>, b: seq<string>,
          buf: seq<Byte>)
    requires Converts(conv) && Distinct(a) && Distinct(b) && FieldsFit(d, conv, entries, |buf|)
    requires forall n :: n in a <==> n in b
    requires AllResolve(d, conv, entries, a)
    ensures AllResolve(d, conv, entries, b)
    ensures var (ps, qs) := (AllStores(Patches(d, conv, entries, a)), AllStores(Patches(d, conv, entries, b)));
            InBounds(ps, |buf|) && InBounds(qs, |buf|) && Apply(buf, ps) == Apply(buf, qs)
  {
    hide Resolve, Overlaid, Apply, AllStores, Distinct, Converts, FieldsFit;
    forall i | 0 <= i < |b| ensures Resolves(d, conv, entries, b[i]) {
      assert b[i] in a;
      var j :| 0 <= j < |a| && a[j] == b[i];
      assert Resolves(d, conv, entries, a[j]);
    }
    var ps, qs := Patches(d, conv, entries, a), Patches(d, conv, entries, b);
    PatchesOverlay(d, conv, entries, a, buf);
    PatchesOverlay(d, conv, entries, b, buf);
    SamePatches(d, conv, entries, a, b);
    SamePatches(d, conv, entries, b, a);
    assert SetOf(ps) == SetOf(qs);
    OverlayIsUnique(buf, SetOf(ps), Apply(buf, AllStores(ps)), Apply(buf, AllStores(qs)));
  }

  lemma SamePatches(d: Definition, conv: Conversion, entries: Entries, a: seq<string>, b: seq<string>)
    requires forall n :: n in a ==> n in b
    requires AllResolve(d, conv, entries, a)
    requires AllResolve(d, conv, entries, b)
    ensures SetOf(Patches(d, conv, entries, a)) <= SetOf(Patches(d, conv, entries, b))
  {
    hide Resolve, Resolves;
    var ps, qs := Patches(d, conv, entries, a), Patches(d, conv, entries, b);
    forall p | p in ps ensures p in qs {
      var i :| 0 <= i < |ps| && ps[i] == p;
      assert a[i] in b;
      var j :| 0 <= j < |b| && b[j] == a[i];
      assert qs[j] == p;
    }
  }

  /** The entries after a pass that handled those keys: they are initialised now. */
  ghost function Initialised(d: Definition, conv: Conversion, entries: Entries, handled: seq<string>): Entries
    requires AllResolve(d, conv, entries, handled)
  {
    map n | n in entries ::
      if n in handled then assert Resolves(d, conv, entries, n); Ready(d, conv, entries, n) else entries[n]
  }

  /** The registered injections of one process data. */
  class Injections {
    var entries: Entries

    constructor ()
      ensures entries == map[]
    {
      entries := map[];
    }

    /** Registers an injection, over an older one to the same field. */
    method AddInjection(name: string, e: Entry)
      modifies this
      ensures entries == old(entries)[name := e]
    {
      entries := entries[name := e];
    }

    /** One typed store into the buffer. */
    method InjectVal(e: Entry, buf: array<Byte>)
      requires e.offset + |e.value| <= buf.Length
      modifies buf
      ensures InBounds(e.AsPatch().Stores(), buf.Length)
      ensures buf[..] == Apply(old(buf[..]), e.AsPatch().Stores())
    {
      PatchApplied(buf[..], e.AsPatch());
      ghost var was := buf[..];
      forall i | 0 <= i < |e.value| {
        buf[e.offset + i] := e.value[i];
      }
      assert buf[..] == was[..e.offset] + e.value + was[e.offset + |e.value|..];
    }

    /** The loop of process_data::push over the injections, in the order the map lists them: it
        initialises entries on their first push and stores their values. A name that cannot be
        resolved throws, and what was stored until then stays in the buffer. */
    method InjectAll(d: Definition, conv: Conversion, order: seq<string>,
            buf: array<Byte>) returns (error: Option<Error>)
      requires Converts(conv) && Sound(d, conv, entries) && FieldsFit(d, conv, entries, buf.Length)
      requires Distinct(order) && forall n :: n in order <==> n in entries
      modifies this, buf
      ensures Sound(d, conv, entries) && FieldsFit(d, conv, entries, buf.Length)
      ensures var k := Handled(d, conv, old(entries), order);
              && entries == Initialised(d, conv, old(entries), order[..k])
              && Pushed(old(buf[..]), Patches(d, conv, old(entries), order[..k]), buf[..])
              && (error.None? <==> k == |order|)
              && (k < |order| ==> Resolve(d, conv, order[k], old(entries)[order[k]].text) == Unresolved(error.value))
    {
      hide Handled, LookUp, Pushed, Apply, AllStores, Patches, Sound, Initialised, Converts, Distinct, FieldsFit;
      ghost var was, start := entries, buf[..];
      ghost var all := Handled(d, conv, was, order);
      var k := 0;
      NothingYet(d, conv, was, order, start);
      while k < |order|
        invariant k <= all <= |order|
        invariant buf.Length == |start|
        invariant entries == Initialised(d, conv, was, order[..k])
        invariant Pushed(start, Patches(d, conv, was, order[..k]), buf[..])
      {
        var n := order[k];
        EntryUntouched(d, conv, was, order, k);
        var e := entries[n];
        if !e.initialized {
          var found := FindOffsetAndType(d, n);
          if found.Missing? {
            Unresolvable(d, conv, was, order, k);
            SoundAfter(d, conv, was, order[..k], buf.Length);
            return Some(found.error);
          }
          var value := conv(found.typ, e.text);
          if value.None? {
            Unresolvable(d, conv, was, order, k);
            SoundAfter(d, conv, was, order[..k], buf.Length);
            return Some(BadValue(e.text));
          }
          e := Entry(e.text, true, found.typ, found.offset, value.value);
          entries := entries[n := e];
        } else {
          AlreadyReady(d, conv, was, n);
        }
        HandledOne(d, conv, was, order, k);
        InitialisedOne(d, conv, was, order, k, entries);
        PushedOne(d, conv, was, order, k, start, buf[..]);
        InjectVal(e, buf);
        k := k + 1;
      }
      SoundAfter(d, conv, was, order[..k], buf.Length);
      error := None;
    }
  }

  /** r is the buffer after the patches have been stored into it, which is their overlay. */
  ghost predicate Pushed(buf: seq<Byte>, ps: seq<Patch>, r: seq<Byte>) {
    && InBounds(AllStores(ps), |buf|)
    && r == Apply(buf, AllStores(ps))
    && Overlaid(buf, SetOf(ps), r)
  }

  lemma NothingYet(d: Definition, conv: Conversion, entries: Entries, order: seq<string>, buf: seq<Byte>)
    ensures entries == Initialised(d, conv, entries, order[..0])
    ensures Pushed(buf, Patches(d, conv, entries, order[..0]), buf)
  {
  }

  lemma EntryUntouched(d: Definition, conv: Conversion, entries: Entries, order: seq<string>, k: nat)
    requires k < |order| && Distinct(order) && order[k] in entries
    requires AllResolve(d, conv, entries, order[..k])
    ensures order[k] in Initialised(d, conv, entries, order[..k])
    ensures Initialised(d, conv, entries, order[..k])[order[k]] == entries[order[k]]
  {
    hide Resolves;
    assert order[k] !in order[..k];
  }

  lemma Unresolvable(d: Definition, conv: Conversion, entries: Entries, order: seq<string>, k: nat)
    requires k <= Handled(d, conv, entries, order) && k < |order| && order[k] in entries
    requires Resolve(d, conv, order[k], entries[order[k]].text).Unresolved?
    ensures Handled(d, conv, entries, order) == k
  {
    hide Resolve;
  }

  lemma HandledOne(d: Definition, conv: Conversion, entries: Entries, order: seq<string>, k: nat)
    requires k <= Handled(d, conv, entries, order) && k < |order| && Resolves(d, conv, entries, order[k])
    ensures k < Handled(d, conv, entries, order)
    ensures AllResolve(d, conv, entries, order[..k + 1])
  {
    hide Resolves;
  }

  lemma SoundAfter(d: Definition, conv: Conversion, entries: Entries, handled: seq<string>, length: nat)
    requires Sound(d, conv, entries) && FieldsFit(d, conv, entries, length)
    requires AllResolve(d, conv, entries, handled)
    ensures Sound(d, conv, Initialised(d, conv, entries, handled))
    ensures FieldsFit(d, conv, Initialised(d, conv, entries, handled), length)
  {
    hide LookUp;
    var after := Initialised(d, conv, entries, handled);
    forall n | Resolves(d, conv, after, n)
      ensures PatchOf(d, conv, after, n).offset + |PatchOf(d, conv, after, n).bytes| <= length
    {
      assert after[n].text == entries[n].text && Resolves(d, conv, entries, n);
    }
  }

  lemma AlreadyReady(d: Definition, conv: Conversion, entries: Entries, n: string)
    requires Sound(d, conv, entries) && n in entries && entries[n].initialized
    ensures Resolves(d, conv, entries, n) && Ready(d, conv, entries, n) == entries[n]
  {
    hide LookUp;
  }

  lemma InitialisedOne(d: Definition, conv: Conversion, entries: Entries, order: seq<string>, k: nat, now: Entries)
    requires k < |order| && Distinct(order) && order[k] in entries
    requires AllResolve(d, conv, entries, order[..k + 1])
    requires AllResolve(d, conv, entries, order[..k])
    requires now == Initialised(d, conv, entries, order[..k])[order[k] := Ready(d, conv, entries, order[..k + 1][k])]
    ensures now == Initialised(d, conv, entries, order[..k + 1])
  {
    hide Resolve, Resolves, Ready;
    var more := order[..k + 1];
    assert more == order[..k] + [order[k]];
    var all := Initialised(d, conv, entries, more);
    forall n | n in entries ensures n in now && now[n] == all[n] {
      assert n in more <==> n in order[..k] || n == order[k];
    }
  }

  lemma {:induction false} AllStoresAppend(ps: seq<Patch>, p: Patch)
    ensures AllStores(ps + [p]) == AllStores(ps) + p.Stores()
  {
    if ps == [] {
      assert ps + [p] == [p] && [p][1..] == [];
    } else {
      AllStoresAppend(ps[1..], p);
      assert (ps + [p])[1..] == ps[1..] + [p];
    }
  }

  lemma PushedOne(d: Definition, conv: Conversion, entries: Entries, order: seq<string>, k: nat, start: seq<Byte>,
          buf: seq<Byte>)
    requires Converts(conv) && Distinct(order) && FieldsFit(d, conv, entries, |start|) && k < |order|
    requires AllResolve(d, conv, entries, order[..k + 1])
    requires AllResolve(d, conv, entries, order[..k])
    requires Pushed(start, Patches(d, conv, entries, order[..k]), buf)
    ensures var p := PatchOf(d, conv, entries, order[..k + 1][k]);
            && p.offset + |p.bytes| <= |start| && InBounds(p.Stores(), |start|)
            && Pushed(start, Patches(d, conv, entries, order[..k + 1]), Apply(buf, p.Stores()))
  {
    hide Resolve, Resolves, Apply, AllStores, Converts, FieldsFit, InBounds, Overlaid;
    var more := order[..k + 1];
    var ps, p := Patches(d, conv, entries, order[..k]), PatchOf(d, conv, entries, more[k]);
    assert Patches(d, conv, entries, more) == ps + [p];
    PatchesApart(d, conv, entries, more, |start|);
    assert (ps + [p])[k] == p;
    PatchApplied(start, p);
    AllStoresAppend(ps, p);
    ApplyOn(start, AllStores(ps), p.Stores());
    PatchesOverlay(d, conv, entries, more, start);
  }
}
