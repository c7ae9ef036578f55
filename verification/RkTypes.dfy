/** Reference counting of rk_type values: handles that share payloads through a table of counts. */
module RkTypes {
  import opened Wrappers

  type Ptr = nat
  type Id = nat
  type Type = string

  /** A handle: its type, the payload it points to (0 is null) and the deleter it keeps. */
  datatype Handle = Handle(typ: Type, value: Ptr, deleter: Option<Type>)

  /** An allocated payload. Serial numbers tell payloads apart when an address is used again. */
  datatype Cell = Cell(serial: nat, typ: Type, content: string)

  datatype Deletion = Deletion(serial: nat, deleter: Option<Type>)

  /** The shared table, the heap, the live handles, what was deleted by which deleter, the types of all
      payloads built so far, and whether the branch that should not happen was ever taken. */
  datatype State = State(refs: map<Ptr, nat>, memory: map<Ptr, Cell>, handles: map<Id, Handle>,
                         deleted: seq<Deletion>, built: seq<Type>, missed: bool)

  const START := State(map[], map[], map[], [], [], false)

  function Increase(s: State, p: Ptr): State {
    if p == 0 then s
    else if p !in s.refs then s.(refs := s.refs[p := 1])
    else s.(refs := s.refs[p := s.refs[p] + 1])
  }

  function Delete(s: State, p: Ptr, deleter: Option<Type>): State {
    if p !in s.memory then s.(missed := true)
    else s.(memory := s.memory - {p}, deleted := s.deleted + [Deletion(s.memory[p].serial, deleter)])
  }

  function Decrease(s: State, p: Ptr, deleter: Option<Type>): State {
    if p == 0 then s
    else if p !in s.refs then s.(missed := true)
    else if s.refs[p] > 1 then s.(refs := s.refs[p := s.refs[p] - 1])
    else Delete(s.(refs := s.refs - {p}), p, deleter)
  }

  function SetValue(s: State, id: Id, p: Ptr): (s': State)
    requires id in s.handles
    ensures s'.handles == s.handles[id := s.handles[id].(value := p)]
  {
    var h := s.handles[id];
    if p == h.value then s
    else
      var t := Increase(Decrease(s, h.value, h.deleter), p);
      t.(handles := t.handles[id := h.(value := p)])
  }

  /** What a program does with its handles. An address given to Build is one the allocator hands out;
      tmp is the parameter that operator= takes by value. */
  datatype Op =
    | Default(id: Id)
    | Build(id: Id, p: Ptr, typ: Type, content: string)
    | Copy(id: Id, from: Id)
    | Assign(id: Id, from: Id, tmp: Id)
    | Destroy(id: Id)

  predicate Enabled(s: State, op: Op) {
    match op
    case Default(id) => id !in s.handles
    case Build(id, p, typ, content) => id !in s.handles && p != 0 && p !in s.memory
    case Copy(id, from) => id !in s.handles && from in s.handles
    case Assign(id, from, tmp) => id in s.handles && from in s.handles && tmp !in s.handles
    case Destroy(id) => id in s.handles
  }

  function DoDefault(s: State, id: Id): State {
    s.(handles := s.handles[id := Handle("int", 0, None)])
  }

  function DoBuild(s: State, id: Id, p: Ptr, typ: Type, content: string): State
    requires id !in s.handles
  {
    var s1 := s.(handles := s.handles[id := Handle(typ, 0, None)],
                 memory := s.memory[p := Cell(|s.built|, typ, content)],
                 built := s.built + [typ]);
    var s2 := SetValue(s1, id, p);
    s2.(handles := s2.handles[id := s2.handles[id].(deleter := Some(typ))])
  }

  function DoCopy(s: State, id: Id, from: Id): State
    requires id !in s.handles && from in s.handles
  {
    var obj := s.handles[from];
    var s1 := s.(handles := s.handles[id := Handle(obj.typ, 0, None)]);
    var s2 := SetValue(s1, id, obj.value);
    s2.(handles := s2.handles[id := obj])
  }

  function DoDestroy(s: State, id: Id): State
    requires id in s.handles
  {
    var h := s.handles[id];
    Decrease(s.(handles := s.handles - {id}), h.value, h.deleter)
  }

  function DoAssign(s: State, id: Id, from: Id, tmp: Id): (s': State)
    requires Enabled(s, Assign(id, from, tmp))
  {
    var s1 := DoCopy(s, tmp, from);
    var rhs := s1.handles[tmp];
    var s2 := SetValue(s1, id, rhs.value);
    DoDestroy(s2.(handles := s2.handles[id := rhs]), tmp)
  }

  function Do(s: State, op: Op): State
    requires Enabled(s, op)
  {
    match op
    case Default(id) => DoDefault(s, id)
    case Build(id, p, typ, content) => DoBuild(s, id, p, typ, content)
    case Copy(id, from) => DoCopy(s, id, from)
    case Assign(id, from, tmp) => DoAssign(s, id, from, tmp)
    case Destroy(id) => DoDestroy(s, id)
  }

  /** The live handles that point to p. */
  function Holders(handles: map<Id, Handle>, p: Ptr): set<Id> {
    set id | id in handles && handles[id].value == p
  }

  /** The table counts, for every payload, the handles that point to it. */
  ghost predicate Counted(s: State) {
    && 0 !in s.refs && s.refs.Keys == s.memory.Keys
    && (forall id :: id in s.handles && s.handles[id].value != 0 ==> s.handles[id].value in s.refs)
    && (forall p :: p in s.refs ==> s.refs[p] == |Holders(s.handles, p)| > 0)
  }

  /** Every handle has the type of its payload, and the deleter for it. */
  ghost predicate Typed(s: State) {
    forall id :: id in s.handles && s.handles[id].value in s.memory ==>
      s.handles[id].typ == s.memory[s.handles[id].value].typ && s.handles[id].deleter == Some(s.handles[id].typ)
  }

  function Deletions(deleted: seq<Deletion>, serial: nat): nat {
    if deleted == [] then 0
    else (if deleted[|deleted| - 1].serial == serial then 1 else 0) + Deletions(deleted[..|deleted| - 1], serial)
  }

  /** The addresses that hold the payload with that serial number. */
  function Homes(memory: map<Ptr, Cell>, serial: nat): set<Ptr> {
    set p | p in memory && memory[p].serial == serial
  }

  /** Every payload built so far is in the heap at one address or was deleted once, never both, and
      every deletion used the deleter of the payload's type. */
  ghost predicate DeletedOnce(s: State) {
    && (forall p :: p in s.memory ==> s.memory[p].serial < |s.built| && s.memory[p].typ == s.built[s.memory[p].serial])
    && (forall n: nat :: n < |s.built| ==> Deletions(s.deleted, n) + |Homes(s.memory, n)| == 1)
    && (forall i :: 0 <= i < |s.deleted| ==>
                      s.deleted[i].serial < |s.built| && s.deleted[i].deleter == Some(s.built[s.deleted[i].serial]))
  }

  ghost predicate Good(s: State) {
    !s.missed && Counted(s) && Typed(s) && DeletedOnce(s)
  }

  lemma HoldersWithout(handles: map<Id, Handle>, id: Id, p: Ptr)
    requires id in handles
    ensures Holders(handles - {id}, p) == Holders(handles, p) - {id}
    ensures |Holders(handles - {id}, p)| == |Holders(handles, p)| - if handles[id].value == p then 1 else 0
  {
    assert Holders(handles - {id}, p) == Holders(handles, p) - {id};
    if handles[id].value == p {
      assert id in Holders(handles, p);
    } else {
      assert id !in Holders(handles, p);
    }
  }

  lemma HoldersWith(handles: map<Id, Handle>, id: Id, h: Handle, p: Ptr)
    requires id !in handles
    ensures |Holders(handles[id := h], p)| == |Holders(handles, p)| + if h.value == p then 1 else 0
  {
    var all := handles[id := h];
    assert all - {id} == handles;
    HoldersWithout(all, id, p);
  }

  lemma HeldByAnother(handles: map<Id, Handle>, id: Id, j: Id)
    requires id in handles && j in handles && j != id
    ensures |Holders(handles - {id}, handles[j].value)| > 0
  {
    assert j in Holders(handles - {id}, handles[j].value);
  }

  /** The heap and the table after a handle is gone. */
  lemma DestroyCounts(s: State, id: Id)
    requires Counted(s) && id in s.handles
    ensures Counted(DoDestroy(s, id)) && DoDestroy(s, id).missed == s.missed
  {
    hide Holders;
    var h, t := s.handles[id], DoDestroy(s, id);
    var rest := s.handles - {id};
    assert t.handles == rest;
    forall p | p in s.refs ensures |Holders(rest, p)| == s.refs[p] - if h.value == p then 1 else 0 {
      HoldersWithout(s.handles, id, p);
    }
    forall j | j in rest && rest[j].value != 0 ensures rest[j].value in t.refs {
      HeldByAnother(s.handles, id, j);
    }
  }

  lemma DestroyTypes(s: State, id: Id)
    requires Counted(s) && Typed(s) && id in s.handles
    ensures Typed(DoDestroy(s, id))
    ensures forall p :: p in DoDestroy(s, id).memory ==> p in s.memory && DoDestroy(s, id).memory[p] == s.memory[p]
  {
  }

  /** A destruction deletes at most one payload, and that with the deleter of its own type. */
  lemma DestroyDeletes(s: State, id: Id)
    requires Counted(s) && Typed(s) && DeletedOnce(s) && id in s.handles
    ensures DeletedOnce(DoDestroy(s, id))
  {
    hide Holders;
    var p, t := s.handles[id].value, DoDestroy(s, id);
    if t.memory != s.memory {
      DeleteOnce(s, p, t);
    }
  }

  lemma DeleteOnce(s: State, p: Ptr, t: State)
    requires DeletedOnce(s) && p in s.memory && t.built == s.built && t.memory == s.memory - {p}
    requires t.deleted == s.deleted + [Deletion(s.memory[p].serial, Some(s.memory[p].typ))]
    ensures DeletedOnce(t)
  {
    hide Deletions, Homes;
    forall n: nat | n < |t.built| ensures Deletions(t.deleted, n) + |Homes(t.memory, n)| == 1 {
      DeletionsPush(s.deleted, t.deleted[|s.deleted|], n);
      HomesWithout(s.memory, p, n);
    }
  }

  lemma DeletionsPush(deleted: seq<Deletion>, d: Deletion, n: nat)
    ensures Deletions(deleted + [d], n) == Deletions(deleted, n) + if d.serial == n then 1 else 0
  {
    assert (deleted + [d])[..|deleted|] == deleted;
  }

  lemma HomesWithout(memory: map<Ptr, Cell>, p: Ptr, n: nat)
    requires p in memory
    ensures |Homes(memory - {p}, n)| == |Homes(memory, n)| - if memory[p].serial == n then 1 else 0
  {
    assert Homes(memory - {p}, n) == Homes(memory, n) - {p};
    if memory[p].serial == n {
      assert p in Homes(memory, n);
    } else {
      assert p !in Homes(memory, n);
    }
  }

  lemma DestroyGood(s: State, id: Id)
    requires Good(s) && id in s.handles
    ensures Good(DoDestroy(s, id))
  {
    hide Counted, Typed, DeletedOnce, DoDestroy;
    DestroyCounts(s, id);
    DestroyTypes(s, id);
    DestroyDeletes(s, id);
  }

  lemma CopyGood(s: State, id: Id, from: Id)
    requires Good(s) && id !in s.handles && from in s.handles
    ensures Good(DoCopy(s, id, from))
  {
    hide DoCopy, Gain, Counted, Typed, DeletedOnce;
    CopyIs(s, id, from);
    GainCounts(s, id, from);
    GainTypes(s, id, from);
  }

  lemma GainCounts(s: State, id: Id, from: Id)
    requires Counted(s) && id !in s.handles && from in s.handles
    ensures Counted(Gain(s, id, s.handles[from]))
  {
    hide Holders;
    var obj, t := s.handles[from], Gain(s, id, s.handles[from]);
    forall p | p in s.refs ensures |Holders(t.handles, p)| == s.refs[p] + if obj.value == p then 1 else 0 {
      HoldersWith(s.handles, id, obj, p);
    }
  }

  lemma GainTypes(s: State, id: Id, from: Id)
    requires Typed(s) && from in s.handles
    ensures var t := Gain(s, id, s.handles[from]);
            Typed(t) && t.missed == s.missed && (DeletedOnce(s) ==> DeletedOnce(t))
  {
    hide Homes, Deletions;
  }

  /** A new null handle, or a null handle in place of another one. */
  lemma NullGood(s: State, id: Id, h: Handle)
    requires Good(s) && h.value == 0 && (id in s.handles ==> s.handles[id].value == 0)
    ensures Good(s.(handles := s.handles[id := h]))
  {
    hide Deletions, Homes;
    var t := s.(handles := s.handles[id := h]);
    forall p | p != 0 ensures Holders(t.handles, p) == Holders(s.handles, p) {
    }
  }

  lemma BuildIs(s: State, id: Id, p: Ptr, typ: Type, content: string)
    requires Counted(s) && Enabled(s, Build(id, p, typ, content))
    ensures DoBuild(s, id, p, typ, content) ==
              s.(handles := s.handles[id := Handle(typ, p, Some(typ))], refs := s.refs[p := 1],
                 memory := s.memory[p := Cell(|s.built|, typ, content)], built := s.built + [typ])
  {
    hide Holders;
    var t := DoBuild(s, id, p, typ, content);
    assert t.handles == s.handles[id := Handle(typ, p, Some(typ))];
  }

  lemma BuildGood(s: State, id: Id, p: Ptr, typ: Type, content: string)
    requires Good(s) && Enabled(s, Build(id, p, typ, content))
    ensures Good(DoBuild(s, id, p, typ, content))
  {
    hide Counted, Typed, DeletedOnce, DoBuild;
    BuildIs(s, id, p, typ, content);
    var t, h, c := DoBuild(s, id, p, typ, content), Handle(typ, p, Some(typ)), Cell(|s.built|, typ, content);
    BuildCounts(s, id, h, t);
    BuildTypes(s, id, h, c, t);
    BuildDeletes(s, p, c, t);
  }

  lemma BuildTypes(s: State, id: Id, h: Handle, c: Cell, t: State)
    requires Counted(s) && Typed(s) && h.value != 0 && h.value !in s.memory && h.typ == c.typ
             && h.deleter == Some(c.typ)
    requires t.handles == s.handles[id := h] && t.memory == s.memory[h.value := c]
    ensures Typed(t)
  {
    hide Holders;
  }

  lemma BuildCounts(s: State, id: Id, h: Handle, t: State)
    requires Counted(s) && id !in s.handles && h.value != 0 && h.value !in s.memory
    requires t.handles == s.handles[id := h] && t.refs == s.refs[h.value := 1]
             && t.memory.Keys == s.memory.Keys + {h.value}
    ensures Counted(t)
  {
    hide Holders;
    forall q | q in t.refs ensures t.refs[q] == |Holders(t.handles, q)| > 0 {
      HoldersWith(s.handles, id, h, q);
      if q == h.value {
        NobodyHolds(s, q);
      }
    }
  }

  lemma NobodyHolds(s: State, p: Ptr)
    requires Counted(s) && p != 0 && p !in s.refs
    ensures |Holders(s.handles, p)| == 0
  {
    assert Holders(s.handles, p) == {};
  }

  lemma BuildDeletes(s: State, p: Ptr, c: Cell, t: State)
    requires DeletedOnce(s) && p !in s.memory && c.serial == |s.built|
    requires t.memory == s.memory[p := c] && t.built == s.built + [c.typ] && t.deleted == s.deleted
    ensures DeletedOnce(t)
  {
    hide Homes, Deletions;
    forall n: nat | n < |t.built| ensures Deletions(t.deleted, n) + |Homes(t.memory, n)| == 1 {
      assert t.memory - {p} == s.memory;
      HomesWithout(t.memory, p, n);
      if n == |s.built| {
        NotYetBuilt(s, n);
      }
    }
  }

  lemma NotYetBuilt(s: State, n: nat)
    requires DeletedOnce(s) && n >= |s.built|
    ensures Deletions(s.deleted, n) == 0 && |Homes(s.memory, n)| == 0
  {
    assert Homes(s.memory, n) == {};
    NeverDeleted(s.deleted, n);
  }

  lemma {:induction false} NeverDeleted(deleted: seq<Deletion>, n: nat)
    requires forall i :: 0 <= i < |deleted| ==> deleted[i].serial != n
    ensures Deletions(deleted, n) == 0
  {
    if deleted != [] {
      NeverDeleted(deleted[..|deleted| - 1], n);
    }
  }

  /** The state with one more handle. */
  function Gain(s: State, id: Id, h: Handle): State {
    Increase(s, h.value).(handles := s.handles[id := h])
  }

  lemma CopyIs(s: State, id: Id, from: Id)
    requires id !in s.handles && from in s.handles
    ensures DoCopy(s, id, from) == Gain(s, id, s.handles[from])
  {
    hide Increase, Decrease;
    var h := s.handles[from];
    var s1 := s.(handles := s.handles[id := Handle(h.typ, 0, None)]);
    assert s1.handles[id := s1.handles[id].(value := h.value)][id := h] == s.handles[id := h];
    IncreaseParts(s, s1, h.value);
    DecreaseNull(s1, None);
  }

  lemma DecreaseNull(s: State, deleter: Option<Type>)
    ensures Decrease(s, 0, deleter) == s && Increase(s, 0) == s
  {
  }

  lemma IncreaseParts(s: State, t: State, p: Ptr)
    requires t == s.(handles := t.handles)
    ensures Increase(t, p) == Increase(s, p).(handles := t.handles)
  {
  }

  lemma DecreaseParts(s: State, t: State, p: Ptr, deleter: Option<Type>)
    requires t == s.(handles := t.handles)
    ensures Decrease(t, p, deleter) == Decrease(s, p, deleter).(handles := t.handles)
  {
    hide Delete;
    DeleteParts(s.(refs := s.refs - {p}), t.(refs := t.refs - {p}), p, deleter);
  }

  lemma DeleteParts(s: State, t: State, p: Ptr, deleter: Option<Type>)
    requires t == s.(handles := t.handles)
    ensures Delete(t, p, deleter) == Delete(s, p, deleter).(handles := t.handles)
  {
  }

  /** Changing a handle's payload is destroying the handle and gaining another one. */
  lemma SwapIs(s: State, id: Id, rhs: Handle)
    requires id in s.handles && s.handles[id].value != rhs.value
    ensures var s2 := SetValue(s, id, rhs.value);
            s2.(handles := s2.handles[id := rhs]) == Gain(DoDestroy(s, id), id, rhs)
  {
    hide Increase, Decrease;
    var h, rest := s.handles[id], s.(handles := s.handles - {id});
    DecreaseParts(s, rest, h.value, h.deleter);
    IncreaseParts(Decrease(s, h.value, h.deleter), DoDestroy(s, id), rhs.value);
    assert (s.handles - {id})[id := rhs] == s.handles[id := h.(value := rhs.value)][id := rhs];
  }

  /** Assignment is copying to the by-value parameter, letting go of the old payload, gaining the new
      one, and letting go of the parameter; assigning what a handle already holds changes nothing but
      a null handle's type. */
  lemma AssignIs(s: State, id: Id, from: Id, tmp: Id)
    requires Typed(s) && Counted(s) && Enabled(s, Assign(id, from, tmp))
    ensures var (s1, rhs) := (DoCopy(s, tmp, from), s.handles[from]);
            DoAssign(s, id, from, tmp) ==
              if rhs.value != s.handles[id].value then DoDestroy(Gain(DoDestroy(s1, id), id, rhs), tmp)
              else if rhs.value != 0 then DoDestroy(s1, tmp)
              else DoDestroy(s1.(handles := s1.handles[id := rhs]), tmp)
  {
    hide Increase, Decrease, DoCopy, DoDestroy, Gain, Counted;
    var s1, rhs := DoCopy(s, tmp, from), s.handles[from];
    CopyHandles(s, tmp, from);
    if rhs.value != s.handles[id].value {
      SwapIs(s1, id, rhs);
    } else if rhs.value != 0 {
      SameHandle(s, id, from);
      assert s1.handles[id := rhs] == s1.handles;
    }
  }

  lemma SameHandle(s: State, a: Id, b: Id)
    requires Typed(s) && Counted(s) && a in s.handles && b in s.handles
    requires s.handles[a].value == s.handles[b].value != 0
    ensures s.handles[a] == s.handles[b]
  {
  }

  lemma AssignGood(s: State, id: Id, from: Id, tmp: Id)
    requires Good(s) && Enabled(s, Assign(id, from, tmp))
    ensures Good(DoAssign(s, id, from, tmp))
  {
    hide Good, DoAssign, DoCopy, DoDestroy, Counted, Typed;
    Books(s);
    AssignIs(s, id, from, tmp);
    CopyGood(s, tmp, from);
    var s1, rhs := DoCopy(s, tmp, from), s.handles[from];
    CopyHandles(s, tmp, from);
    if rhs.value != s.handles[id].value {
      DestroyGood(s1, id);
      var s2 := DoDestroy(s1, id);
      DestroyHandles(s1, id);
      CopyGood(s2, id, tmp);
      CopyIs(s2, id, tmp);
      DestroyGood(DoCopy(s2, id, tmp), tmp);
    } else if rhs.value != 0 {
      DestroyGood(s1, tmp);
    } else {
      NullGood(s1, id, rhs);
      DestroyGood(s1.(handles := s1.handles[id := rhs]), tmp);
    }
  }

  lemma Books(s: State)
    requires Good(s)
    ensures Counted(s) && Typed(s)
  {
  }

  lemma CopyHandles(s: State, id: Id, from: Id)
    requires id !in s.handles && from in s.handles
    ensures DoCopy(s, id, from).handles == s.handles[id := s.handles[from]]
  {
  }

  lemma DestroyHandles(s: State, id: Id)
    requires id in s.handles
    ensures DoDestroy(s, id).handles == s.handles - {id}
  {
  }

  /** Every operation keeps the books: counts equal live handles, no branch that should not happen,
      every payload deleted at most once and by its own deleter. */
  lemma StepGood(s: State, op: Op)
    requires Good(s) && Enabled(s, op)
    ensures Good(Do(s, op))
  {
    hide Good, DoBuild, DoCopy, DoAssign, DoDestroy;
    match op
    case Default(id) => NullGood(s, id, Handle("int", 0, None));
    case Build(id, p, typ, content) => BuildGood(s, id, p, typ, content);
    case Copy(id, from) => CopyGood(s, id, from);
    case Assign(id, from, tmp) => AssignGood(s, id, from, tmp);
    case Destroy(id) => DestroyGood(s, id);
  }
}
