/** Programs over rk_type handles behave as if every handle had a value of its own. */
module RkTypesRuns {
  import opened Wrappers
  import opened RkTypes

  /** What a program can see of a handle: its type and its payload. */
  datatype Sight = Sight(typ: Type, payload: Option<Cell>)

  type Sights = map<Id, Sight>

  function SightOf(s: State, id: Id): Sight
    requires id in s.handles
  {
    var h := s.handles[id];
    Sight(h.typ, if h.value in s.memory then Some(s.memory[h.value]) else None)
  }

  function View(s: State): Sights {
    map id | id in s.handles :: SightOf(s, id)
  }

  /** The operations on values that are not shared. */
  function Meaning(v: Sights, op: Op, serial: nat): Sights
    requires op.Copy? || op.Assign? ==> op.from in v
  {
    match op
    case Default(id) => v[id := Sight("int", None)]
    case Build(id, p, typ, content) => v[id := Sight(typ, Some(Cell(serial, typ, content)))]
    case Copy(id, from) => v[id := v[from]]
    case Assign(id, from, tmp) => v[id := v[from]]
    case Destroy(id) => v - {id}
  }

  /** Letting go of a handle takes nothing away from the others. */
  lemma DestroyView(s: State, id: Id)
    requires Counted(s) && Typed(s) && id in s.handles
    ensures View(DoDestroy(s, id)) == View(s) - {id}
  {
    hide Counted, Typed, DoDestroy;
    var t := DoDestroy(s, id);
    DestroyHandles(s, id);
    DestroyCounts(s, id);
    DestroyTypes(s, id);
    forall j | j in t.handles ensures SightOf(t, j) == SightOf(s, j) {
      PayloadStays(s, t, j);
    }
  }

  lemma PayloadStays(s: State, t: State, j: Id)
    requires Counted(s) && Counted(t) && j in s.handles && j in t.handles && t.handles[j] == s.handles[j]
    requires forall p :: p in t.memory ==> p in s.memory && t.memory[p] == s.memory[p]
    ensures SightOf(t, j) == SightOf(s, j)
  {
    hide Holders;
    var p := t.handles[j].value;
    if p != 0 {
      assert p in t.refs && p in s.refs;
    }
  }

  lemma GainView(s: State, id: Id, h: Handle)
    ensures View(Gain(s, id, h))
            == View(s)[id := Sight(h.typ, if h.value in s.memory then Some(s.memory[h.value]) else None)]
  {
    assert Increase(s, h.value).memory == s.memory;
  }

  lemma BuildView(s: State, id: Id, p: Ptr, typ: Type, content: string)
    requires Counted(s) && Enabled(s, Build(id, p, typ, content))
    ensures View(DoBuild(s, id, p, typ, content)) == View(s)[id := Sight(typ, Some(Cell(|s.built|, typ, content)))]
  {
    hide Holders, DoBuild;
    BuildIs(s, id, p, typ, content);
    assert forall j :: j in s.handles ==> s.handles[j].value != p;
  }

  lemma AssignView(s: State, id: Id, from: Id, tmp: Id)
    requires Good(s) && Enabled(s, Assign(id, from, tmp))
    ensures View(DoAssign(s, id, from, tmp)) == View(s)[id := View(s)[from]]
  {
    hide Good, Counted, Typed, DoAssign, DoCopy, DoDestroy, Gain, SightOf;
    Books(s);
    AssignIs(s, id, from, tmp);
    var s1, rhs := DoCopy(s, tmp, from), s.handles[from];
    CopyHandles(s, tmp, from);
    CopyGood(s, tmp, from);
    CopyView(s, tmp, from);
    Books(s1);
    var x := SightOf(s, from);
    assert View(s1)[tmp] == SightOf(s1, tmp) == x;
    if rhs.value != s.handles[id].value {
      AssignOther(s1, id, tmp);
      assert (View(s1) - {id})[id := x] - {tmp} == View(s)[id := x];
    } else if rhs.value != 0 {
      SameHandle(s, id, from);
      DestroyView(s1, tmp);
      SameSight(s, id, from);
      assert View(s1) - {tmp} == View(s)[id := x];
    } else {
      AssignNull(s1, id, tmp);
      assert View(s1)[id := x] - {tmp} == View(s)[id := x];
    }
  }

  lemma CopyView(s: State, id: Id, from: Id)
    requires id !in s.handles && from in s.handles
    ensures View(DoCopy(s, id, from)) == View(s)[id := SightOf(s, from)]
  {
    hide DoCopy, Gain, View;
    CopyIs(s, id, from);
    GainView(s, id, s.handles[from]);
  }

  lemma SameSight(s: State, a: Id, b: Id)
    requires a in s.handles && b in s.handles && s.handles[a] == s.handles[b]
    ensures SightOf(s, a) == SightOf(s, b)
  {
  }

  lemma AssignOther(s: State, id: Id, tmp: Id)
    requires Good(s) && id in s.handles && tmp in s.handles && id != tmp
    ensures var t := DoDestroy(s, id);
            tmp in Gain(t, id, s.handles[tmp]).handles
            && View(DoDestroy(Gain(t, id, s.handles[tmp]), tmp)) == (View(s) - {id})[id := SightOf(s, tmp)] - {tmp}
  {
    hide Good, Counted, Typed, DoDestroy, DoCopy, SightOf;
    Books(s);
    var t, rhs := DoDestroy(s, id), s.handles[tmp];
    DestroyView(s, id);
    DestroyHandles(s, id);
    DestroyGood(s, id);
    CopyGood(t, id, tmp);
    CopyIs(t, id, tmp);
    CopyView(t, id, tmp);
    assert View(t)[tmp] == SightOf(t, tmp);
    Books(Gain(t, id, rhs));
    DestroyView(Gain(t, id, rhs), tmp);
  }

  lemma AssignNull(s: State, id: Id, tmp: Id)
    requires Good(s) && id in s.handles && tmp in s.handles && id != tmp
    requires s.handles[id].value == 0 == s.handles[tmp].value
    ensures var t := s.(handles := s.handles[id := s.handles[tmp]]);
            View(DoDestroy(t, tmp)) == View(s)[id := SightOf(s, tmp)] - {tmp}
  {
    hide Good, Counted, Typed, DoDestroy;
    var t := s.(handles := s.handles[id := s.handles[tmp]]);
    NullGood(s, id, s.handles[tmp]);
    Books(t);
    DestroyView(t, tmp);
    assert View(t) == View(s)[id := SightOf(s, tmp)];
  }

  /** Every operation does to the handles' sights what it would do to values of their own. */
  lemma StepIsByValue(s: State, op: Op)
    requires Good(s) && Enabled(s, op)
    ensures View(Do(s, op)) == Meaning(View(s), op, |s.built|)
  {
    hide Good, Counted, Typed, DoBuild, DoCopy, DoAssign, DoDestroy;
    Books(s);
    match op
    case Default(id) => NoNull(s); assert View(DoDefault(s, id)) == View(s)[id := Sight("int", None)];
    case Build(id, p, typ, content) => BuildView(s, id, p, typ, content);
    case Copy(id, from) => CopyIs(s, id, from); GainView(s, id, s.handles[from]);
    case Assign(id, from, tmp) => AssignView(s, id, from, tmp);
    case Destroy(id) => DestroyView(s, id);
  }

  lemma NoNull(s: State)
    requires Counted(s)
    ensures 0 !in s.memory
  {
  }

  predicate Runs(s: State, ops: seq<Op>)
    decreases |ops|
  {
    ops != [] ==> Enabled(s, ops[0]) && Runs(Do(s, ops[0]), ops[1..])
  }

  function End(s: State, ops: seq<Op>): State
    requires Runs(s, ops)
    decreases |ops|
  {
    if ops == [] then s else End(Do(s, ops[0]), ops[1..])
  }

  /** The program's meaning on values of its own, with payloads numbered as they are built. */
  function MeaningOf(v: Sights, ops: seq<Op>, serial: nat): Option<Sights>
    decreases |ops|
  {
    if ops == [] then Some(v)
    else if (ops[0].Copy? || ops[0].Assign?) && ops[0].from !in v then None
    else MeaningOf(Meaning(v, ops[0], serial), ops[1..], if ops[0].Build? then serial + 1 else serial)
  }

  lemma {:induction false} ProgramIsByValue(s: State, ops: seq<Op>)
    requires Good(s) && Runs(s, ops)
    ensures Good(End(s, ops)) && MeaningOf(View(s), ops, |s.built|) == Some(View(End(s, ops)))
    decreases |ops|
  {
    hide Good, View, Do, Meaning;
    if ops != [] {
      StepGood(s, ops[0]);
      StepIsByValue(s, ops[0]);
      Serials(s, ops[0]);
      ProgramIsByValue(Do(s, ops[0]), ops[1..]);
    }
  }

  lemma Serials(s: State, op: Op)
    requires Good(s) && Enabled(s, op)
    ensures |Do(s, op).built| == |s.built| + if op.Build? then 1 else 0
    ensures op.Copy? || op.Assign? ==> op.from in View(s)
  {
    hide Good, DoBuild, DoAssign, DoDestroy, DoCopy, Counted, Typed, SightOf, Gain;
    Books(s);
    match op
    case Default(_) =>
    case Build(id, p, typ, content) => BuildIs(s, id, p, typ, content);
    case Copy(id, from) => CopySerials(s, id, from);
    case Assign(id, from, tmp) =>
      var s1, rhs := DoCopy(s, tmp, from), s.handles[from];
      AssignIs(s, id, from, tmp);
      CopySerials(s, tmp, from);
      CopyHandles(s, tmp, from);
      if rhs.value != s.handles[id].value {
        DestroySerials(s1, id);
        DestroyHandles(s1, id);
        GainSerials(DoDestroy(s1, id), id, rhs);
        DestroySerials(Gain(DoDestroy(s1, id), id, rhs), tmp);
      } else if rhs.value != 0 {
        DestroySerials(s1, tmp);
      } else {
        DestroySerials(s1.(handles := s1.handles[id := rhs]), tmp);
      }
    case Destroy(id) => DestroySerials(s, id);
  }

  lemma CopySerials(s: State, id: Id, from: Id)
    requires id !in s.handles && from in s.handles
    ensures DoCopy(s, id, from).built == s.built
  {
    hide DoCopy;
    CopyIs(s, id, from);
  }

  lemma GainSerials(s: State, id: Id, h: Handle)
    ensures Gain(s, id, h).built == s.built && Gain(s, id, h).handles == s.handles[id := h]
  {
  }

  lemma DestroySerials(s: State, id: Id)
    requires id in s.handles
    ensures DoDestroy(s, id).built == s.built
  {
  }

  /** Over any program from nothing: the table counts the live handles of every payload, the branch
      that should not happen is not taken, and each payload ever built is either in the heap, held by
      some handle, or was deleted exactly once by the deleter of its type. */
  lemma BooksBalance(ops: seq<Op>)
    requires Runs(START, ops)
    ensures var s := End(START, ops);
            && !s.missed
            && (forall p :: p in s.refs <==> p in s.memory)
            && (forall p :: p in s.refs ==> s.refs[p] == |Holders(s.handles, p)| > 0)
            && (forall n: nat :: n < |s.built| ==> Deletions(s.deleted, n) + |Homes(s.memory, n)| == 1)
            && (forall i :: 0 <= i < |s.deleted| ==>
                              && s.deleted[i].serial < |s.built|
                              && s.deleted[i].deleter == Some(s.built[s.deleted[i].serial]))
            && MeaningOf(map[], ops, 0) == Some(View(s))
            && (s.handles == map[] ==> s.memory == map[])
  {
    hide Holders, Deletions, Homes, Do, MeaningOf;
    var s := End(START, ops);
    StartGood();
    assert View(START) == map[];
    ProgramIsByValue(START, ops);
    if s.handles == map[] {
      forall p | p in s.memory ensures false {
        NobodyLeft(s, p);
      }
      assert s.memory.Keys == {};
    }
  }

  lemma StartGood()
    ensures Good(START)
  {
  }

  lemma NobodyLeft(s: State, p: Ptr)
    requires s.handles == map[]
    ensures |Holders(s.handles, p)| == 0
  {
    assert Holders(s.handles, p) == {};
  }

  /** How a cast ends: operator T checks the type first and then for a payload. */
  datatype Cast = UnsupportedCast | Uninitialized | Content(content: string)

  function CastTo(x: Sight, typ: Type): Cast {
    if x.typ != typ then UnsupportedCast
    else match x.payload case None => Uninitialized case Some(c) => Content(c.content)
  }

  /** What a handle was last given, told from the program alone: nothing, or it is gone; the null value of
      the default constructor; or a value of some type. */
  datatype Given = Gone | Null | Value(typ: Type, content: string)

  function LastGiven(ops: seq<Op>, id: Id): Given {
    if ops == [] then Gone
    else
      var before := ops[..|ops| - 1];
      match ops[|ops| - 1]
      case Default(i) => if i == id then Null else LastGiven(before, id)
      case Build(i, p, typ, content) => if i == id then Value(typ, content) else LastGiven(before, id)
      case Copy(i, from) => LastGiven(before, if i == id then from else id)
      case Assign(i, from, tmp) => LastGiven(before, if i == id then from else id)
      case Destroy(i) => if i == id then Gone else LastGiven(before, id)
  }

  /** What the program sees of a handle is what it was given. */
  predicate Shows(v: Sights, id: Id, given: Given) {
    match given
    case Gone => id !in v
    case Null => id in v && v[id] == Sight("int", None)
    case Value(typ, content) =>
      id in v && v[id].typ == typ && v[id].payload.Some? && v[id].payload.value.content == content
  }

  lemma {:induction false} RunSplit(s: State, ops: seq<Op>)
    requires ops != [] && Runs(s, ops)
    ensures var before := ops[..|ops| - 1];
            && Runs(s, before) && Enabled(End(s, before), ops[|ops| - 1])
            && End(s, ops) == Do(End(s, before), ops[|ops| - 1])
    decreases |ops|
  {
    hide Do, Enabled;
    if |ops| == 1 {
      assert ops[1..] == [];
    } else {
      var rest := ops[1..];
      RunSplit(Do(s, ops[0]), rest);
      assert rest[..|rest| - 1] == ops[..|ops| - 1][1..];
    }
  }

  lemma {:induction false} ShowsWhatWasGiven(ops: seq<Op>, id: Id)
    requires Runs(START, ops)
    ensures Good(End(START, ops)) && Shows(View(End(START, ops)), id, LastGiven(ops, id))
    decreases |ops|
  {
    hide Good, Do, Enabled, Runs, End, View, Meaning, Shows, LastGiven;
    if ops == [] {
      NothingGiven(id);
    } else {
      var before, op := ops[..|ops| - 1], ops[|ops| - 1];
      RunSplit(START, ops);
      var s := End(START, before);
      ShowsWhatWasGiven(before, id);
      if op.Copy? || op.Assign? {
        ShowsWhatWasGiven(before, op.from);
      }
      StepGood(s, op);
      StepIsByValue(s, op);
      Serials(s, op);
      MeaningShows(View(s), |s.built|, id, ops);
    }
  }

  lemma NothingGiven(id: Id)
    ensures Runs(START, []) && End(START, []) == START && Good(START) && Shows(View(START), id, LastGiven([], id))
  {
    StartGood();
  }

  lemma MeaningShows(v: Sights, serial: nat, id: Id, ops: seq<Op>)
    requires ops != []
    requires var (before, op) := (ops[..|ops| - 1], ops[|ops| - 1]);
             && Shows(v, id, LastGiven(before, id))
             && (op.Copy? || op.Assign? ==> op.from in v && Shows(v, op.from, LastGiven(before, op.from)))
    ensures Shows(Meaning(v, ops[|ops| - 1], serial), id, LastGiven(ops, id))
  {
  }

  /** Over any program, a cast of a handle that last came, directly or through copies and assignments, from
      a value of some type answers its content for that type and refuses every other type; one that came
      from the default constructor has nothing to answer for int and refuses the rest. */
  lemma CastsAnswerWhatWasGiven(ops: seq<Op>, id: Id, typ: Type)
    requires Runs(START, ops)
    ensures var (s, given) := (End(START, ops), LastGiven(ops, id));
            && (id in s.handles <==> given != Gone)
            && (given.Null? ==>
                CastTo(SightOf(s, id), typ) == if typ == "int" then Uninitialized else UnsupportedCast)
            && (given.Value? ==>
                CastTo(SightOf(s, id), typ) == if typ == given.typ then Content(given.content) else UnsupportedCast)
  {
    hide Good, Do, Runs;
    ShowsWhatWasGiven(ops, id);
  }

  class RkHeap {
    var refs: map<Ptr, nat>
    var memory: map<Ptr, Cell>
    var handles: map<Id, Handle>
    var deleted: seq<Deletion>
    var built: seq<Type>
    var missed: bool

    ghost function AsState(): State
      reads this
    {
      State(refs, memory, handles, deleted, built, missed)
    }

    constructor ()
      ensures AsState() == START && Good(AsState())
    {
      refs, memory, handles := map[], map[], map[];
      deleted, built, missed := [], [], false;
      new;
      StartGood();
    }

    /** Deletes the payload; a null or unknown address has none. */
    method CallDeleter(p: Ptr, deleter: Option<Type>)
      modifies this
      ensures AsState() == Delete(old(AsState()), p, deleter)
    {
      if p in memory {
        deleted := deleted + [Deletion(memory[p].serial, deleter)];
        memory := memory - {p};
      } else {
        missed := true;
      }
    }

    method DecreaseReference(p: Ptr, deleter: Option<Type>)
      modifies this
      ensures AsState() == Decrease(old(AsState()), p, deleter)
    {
      if p == 0 {
        return;
      }
      if p !in refs {
        missed := true;
        return;
      }
      if refs[p] > 1 {
        refs := refs[p := refs[p] - 1];
        return;
      }
      refs := refs - {p};
      CallDeleter(p, deleter);
    }

    method IncreaseReference(p: Ptr)
      modifies this
      ensures AsState() == Increase(old(AsState()), p)
    {
      if p == 0 {
        return;
      }
      if p !in refs {
        refs := refs[p := 1];
      } else {
        refs := refs[p := refs[p] + 1];
      }
    }

    method SetHandleValue(id: Id, p: Ptr)
      requires id in handles
      modifies this
      ensures AsState() == SetValue(old(AsState()), id, p)
    {
      var h := handles[id];
      if p == h.value {
        return;
      }
      DecreaseReference(h.value, h.deleter);
      IncreaseReference(p);
      handles := handles[id := h.(value := p)];
    }

    method ConstructDefault(id: Id)
      requires Good(AsState()) && Enabled(AsState(), Default(id))
      modifies this
      ensures AsState() == Do(old(AsState()), Default(id)) && Good(AsState())
    {
      StepGood(AsState(), Default(id));
      handles := handles[id := Handle("int", 0, None)];
    }

    method Construct(id: Id, p: Ptr, typ: Type, content: string)
      requires Good(AsState()) && Enabled(AsState(), Build(id, p, typ, content))
      modifies this
      ensures AsState() == Do(old(AsState()), Build(id, p, typ, content)) && Good(AsState())
    {
      hide Good, SetValue;
      StepGood(AsState(), Build(id, p, typ, content));
      handles := handles[id := Handle(typ, 0, None)];
      memory := memory[p := Cell(|built|, typ, content)];
      built := built + [typ];
      SetHandleValue(id, p);
      handles := handles[id := handles[id].(deleter := Some(typ))];
    }

    method CopyConstruct(id: Id, from: Id)
      requires Good(AsState()) && Enabled(AsState(), Copy(id, from))
      modifies this
      ensures AsState() == Do(old(AsState()), Copy(id, from)) && Good(AsState())
    {
      hide Good, SetValue;
      StepGood(AsState(), Copy(id, from));
      var obj := handles[from];
      handles := handles[id := Handle(obj.typ, 0, None)];
      SetHandleValue(id, obj.value);
      handles := handles[id := obj];
    }

    method Destruct(id: Id)
      requires Good(AsState()) && Enabled(AsState(), Destroy(id))
      modifies this
      ensures AsState() == Do(old(AsState()), Destroy(id)) && Good(AsState())
    {
      hide Good, Decrease;
      StepGood(AsState(), Destroy(id));
      var h := handles[id];
      handles := handles - {id};
      DecreaseReference(h.value, h.deleter);
    }

    /** operator=: the parameter is a copy, which is destroyed at the end. */
    method AssignFrom(id: Id, from: Id, tmp: Id)
      requires Good(AsState()) && Enabled(AsState(), Assign(id, from, tmp))
      modifies this
      ensures AsState() == Do(old(AsState()), Assign(id, from, tmp)) && Good(AsState())
    {
      hide Good, SetValue, Decrease, DoCopy;
      StepGood(AsState(), Assign(id, from, tmp));
      CopyHandles(AsState(), tmp, from);
      CopyConstruct(tmp, from);
      var rhs := handles[tmp];
      SetHandleValue(id, rhs.value);
      handles := handles[id := rhs];
      handles := handles - {tmp};
      DecreaseReference(rhs.value, rhs.deleter);
    }

    method CastHandle(id: Id, typ: Type) returns (r: Cast)
      requires Good(AsState()) && id in handles
      ensures r == CastTo(SightOf(AsState(), id), typ)
    {
      hide Holders, Deletions, Homes;
      var h := handles[id];
      if h.typ != typ {
        r := UnsupportedCast;
      } else if h.value == 0 {
        r := Uninitialized;
      } else {
        r := Content(memory[h.value].content);
      }
    }
  }
}
