/** Trigger devices: triggers called directly and triggers handed to shared workers, the registry of
    both, and how often each of them ticks. */
module TriggerRegistry {
  import opened Lists

  type Obj = nat

  /** What a worker is looked up by. */
  datatype Key = Key(prio: int, affinity: int, divisor: int) {
    /** worker_key::operator<. */
    predicate Less(a: Key) {
      if prio < a.prio then true
      else if prio > a.prio then false
      else if affinity < a.affinity then true
      else if affinity > a.affinity then false
      else if divisor < a.divisor then true
      else if divisor > a.divisor then false
      else divisor < a.divisor
    }
  }

  /** The order is strict and total, so a map ordered by it finds exactly the equal key; priorities come
      first, affinities decide between equal ones, and divisors between equal ones of these. */
  lemma KeysAreOrdered(a: Key, b: Key, c: Key)
    ensures a.prio < b.prio ==> a.Less(b)
    ensures a.prio == b.prio && a.affinity < b.affinity ==> a.Less(b)
    ensures a.prio == b.prio && a.affinity == b.affinity ==> (a.Less(b) <==> a.divisor < b.divisor)
    ensures !a.Less(a)
    ensures a.Less(b) && b.Less(c) ==> a.Less(c)
    ensures !a.Less(b) && !b.Less(a) <==> a == b
    ensures !(a.Less(b) && b.Less(a))
  {
  }

  datatype Counter = Counter(divisor: int, cnt: int)

  datatype Worker = Worker(obj: Obj, list: seq<Obj>)

  /** All trigger objects, workers included, with their counters; the list of a trigger device; its
      workers. */
  datatype State = State(objects: map<Obj, Counter>, triggers: seq<Obj>, workers: map<Key, Worker>)

  predicate IsWorker(s: State, o: Obj) {
    exists k :: k in s.workers && s.workers[k].obj == o
  }

  /** The list without every occurrence of the given objects. */
  function Without(q: seq<Obj>, gone: set<Obj>): seq<Obj> {
    if q == [] then []
    else (if q[0] in gone then [] else [q[0]]) + Without(q[1..], gone)
  }

  lemma {:induction false} WithoutCount(q: seq<Obj>, gone: set<Obj>, o: Obj)
    ensures Count(Without(q, gone), o) == if o in gone then 0 else Count(q, o)
  {
    if q != [] {
      WithoutCount(q[1..], gone, o);
      var rest := Without(q[1..], gone);
      assert ([q[0]] + rest)[1..] == rest && [] + rest == rest;
    }
  }

  lemma {:induction false} WithoutTwice(q: seq<Obj>, a: set<Obj>, b: set<Obj>)
    ensures Without(Without(q, a), b) == Without(q, a + b)
  {
    if q != [] {
      WithoutTwice(q[1..], a, b);
      var rest := Without(q[1..], a);
      assert ([q[0]] + rest)[1..] == rest && [] + rest == rest;
    }
  }

  lemma {:induction false} WithoutIn(q: seq<Obj>, gone: set<Obj>)
    ensures forall o :: o in Without(q, gone) <==> o in q && o !in gone
  {
    if q != [] {
      WithoutIn(q[1..], gone);
    }
  }

  /** A worker has something to do, runs at its key's divisor, and is in the device's list once; its
      triggers are no workers, have its divisor and are in its list once. */
  ghost predicate WorkerFits(s: State, k: Key)
    requires k in s.workers
  {
    var w := s.workers[k];
    && w.list != [] && w.obj in s.objects && s.objects[w.obj].divisor == k.divisor
    && Count(s.triggers, w.obj) == 1
    && forall t :: t in w.list ==> TriggerFits(s, w, k.divisor, t)
  }

  ghost predicate TriggerFits(s: State, w: Worker, divisor: int, t: Obj) {
    Count(w.list, t) == 1 && t in s.objects && s.objects[t].divisor == divisor && !IsWorker(s, t)
  }

  ghost predicate Valid(s: State) {
    && (forall k :: k in s.workers ==> WorkerFits(s, k))
    && (forall k, l :: k in s.workers && l in s.workers && s.workers[k].obj == s.workers[l].obj ==> k == l)
    && forall t :: t in s.triggers ==> t in s.objects
  }

  /** add_trigger; a worker created for it is the object spare. Adding to a worker twice throws. */
  function Add(s: State, t: Obj, direct: bool, prio: int, affinity: int, spare: Obj): (State, bool)
    requires t in s.objects
  {
    var k := Key(prio, affinity, s.objects[t].divisor);
    if direct then (s.(triggers := s.triggers + [t]), true)
    else if k !in s.workers then
      (s.(objects := s.objects[spare := Counter(k.divisor, 0)],
          triggers := s.triggers + [spare],
          workers := s.workers[k := Worker(spare, [t])]), true)
    else if t in s.workers[k].list then (s, false)
    else (s.(workers := s.workers[k := s.workers[k].(list := s.workers[k].list + [t])]), true)
  }

  /** Workers that have nothing left when t is gone. */
  function Idle(s: State, t: Obj): set<Obj> {
    set k | k in s.workers && Without(s.workers[k].list, {t}) == [] :: s.workers[k].obj
  }

  /** remove_trigger. */
  function Remove(s: State, t: Obj): State {
    s.(triggers := Without(s.triggers, {t} + Idle(s, t)),
       workers := map k | k in s.workers && Without(s.workers[k].list, {t}) != [] ::
                    Worker(s.workers[k].obj, Without(s.workers[k].list, {t})))
  }

  lemma AddValid(s: State, t: Obj, direct: bool, prio: int, affinity: int, spare: Obj)
    requires Valid(s) && t in s.objects && !IsWorker(s, t) && spare !in s.objects
    ensures Valid(Add(s, t, direct, prio, affinity, spare).0)
  {
    hide Count;
    var k, s' := Key(prio, affinity, s.objects[t].divisor), Add(s, t, direct, prio, affinity, spare).0;
    if !direct && k !in s.workers {
      AddWorkerValid(s, k, t, spare, s');
    } else {
      forall l | l in s'.workers ensures WorkerFits(s', l) {
        assert WorkerFits(s, l);
        CountPush(s.triggers, t, s.workers[l].obj);
        if !direct && l == k && t !in s.workers[k].list {
          AddToWorkerFits(s, k, t, s');
        } else {
          OtherWorkerFits(s, l, s');
        }
      }
    }
  }

  lemma AddWorkerValid(s: State, k: Key, t: Obj, spare: Obj, s': State)
    requires Valid(s) && t in s.objects && !IsWorker(s, t) && spare !in s.objects
    requires k !in s.workers && k.divisor == s.objects[t].divisor
    requires s' == State(s.objects[spare := Counter(k.divisor, 0)], s.triggers + [spare],
             s.workers[k := Worker(spare, [t])])
    ensures Valid(s')
  {
    hide Count;
    CountIn(s.triggers, spare);
    CountPush([], t, t);
    CountPush(s.triggers, spare, spare);
    assert [] + [t] == [t] && Count([], t) == 0 by { CountIn([], t); }
    forall l | l in s'.workers ensures WorkerFits(s', l) {
      if l != k {
        assert WorkerFits(s, l);
        CountPush(s.triggers, spare, s.workers[l].obj);
        OtherWorkerFits(s, l, s');
      }
    }
  }

  /** A worker left alone still fits if no trigger of it became a worker. */
  lemma OtherWorkerFits(s: State, l: Key, s': State)
    requires l in s.workers && l in s'.workers && s'.workers[l] == s.workers[l] && WorkerFits(s, l)
    requires forall o :: o in s.objects ==> o in s'.objects && s'.objects[o] == s.objects[o]
    requires forall o :: o in s.objects && IsWorker(s', o) ==> IsWorker(s, o)
    requires Count(s'.triggers, s.workers[l].obj) == 1
    ensures WorkerFits(s', l)
  {
    hide Count, IsWorker;
    var w := s.workers[l];
    forall t | t in w.list ensures TriggerFits(s', w, l.divisor, t) {
      assert TriggerFits(s, w, l.divisor, t);
    }
  }

  lemma AddToWorkerFits(s: State, k: Key, t: Obj, s': State)
    requires k in s.workers && WorkerFits(s, k) && t in s.objects && s.objects[t].divisor == k.divisor
             && !IsWorker(s, t)
    requires t !in s.workers[k].list
    requires s' == s.(workers := s.workers[k := s.workers[k].(list := s.workers[k].list + [t])])
    ensures WorkerFits(s', k)
  {
    hide Count;
    var w, w' := s.workers[k], s'.workers[k];
    CountIn(w.list, t);
    forall u | u in w'.list ensures TriggerFits(s', w', k.divisor, u) {
      CountPush(w.list, t, u);
      if u != t {
        assert TriggerFits(s, w, k.divisor, u);
      }
      assert IsWorker(s', u) ==> IsWorker(s, u);
    }
  }

  lemma RemoveValid(s: State, t: Obj)
    requires Valid(s) && !IsWorker(s, t)
    ensures Valid(Remove(s, t))
  {
    hide Count, Without;
    var s', gone := Remove(s, t), {t} + Idle(s, t);
    WithoutIn(s.triggers, gone);
    forall k | k in s'.workers ensures WorkerFits(s', k) {
      var w, w' := s.workers[k], s'.workers[k];
      assert WorkerFits(s, k);
      WithoutCount(s.triggers, gone, w.obj);
      assert w.obj !in gone;
      WithoutIn(w.list, {t});
      forall u | u in w'.list ensures TriggerFits(s', w', k.divisor, u) {
        assert TriggerFits(s, w, k.divisor, u);
        WithoutCount(w.list, {t}, u);
        assert IsWorker(s', u) ==> IsWorker(s, u);
      }
    }
  }

  /** The trigger is nowhere any more, workers without triggers are gone from the registry and from the
      list, and everything else is as often in its list as before. */
  lemma RemoveRemoves(s: State, t: Obj)
    requires Valid(s) && !IsWorker(s, t)
    ensures var s' := Remove(s, t);
            && t !in s'.triggers
            && (forall k :: k in s'.workers <==> k in s.workers && exists u :: u in s.workers[k].list && u != t)
            && (forall k, o :: k in s'.workers ==>
                  Count(s'.workers[k].list, o) == if o == t then 0 else Count(s.workers[k].list, o))
            && (forall o :: o != t && !IsWorker(s, o) ==> Count(s'.triggers, o) == Count(s.triggers, o))
            && (forall k :: k in s.workers ==> Count(s'.triggers, s.workers[k].obj) == if k in s'.workers then 1 else 0)
  {
    hide Count, Without;
    var s', gone := Remove(s, t), {t} + Idle(s, t);
    WithoutIn(s.triggers, gone);
    forall k | k in s.workers
      ensures k in s'.workers <==> exists u :: u in s.workers[k].list && u != t
      ensures Count(s'.triggers, s.workers[k].obj) == if k in s'.workers then 1 else 0
    {
      var w := s.workers[k];
      WithoutIn(w.list, {t});
      var rest := Without(w.list, {t});
      assert rest != [] ==> rest[0] in rest;
      assert WorkerFits(s, k);
      WithoutCount(s.triggers, gone, w.obj);
      assert w.obj in gone <==> rest == [];
    }
    forall k, o | k in s'.workers 
      ensures Count(s'.workers[k].list, o) == if o == t then 0 else Count(s.workers[k].list, o)
    {
      WithoutCount(s.workers[k].list, {t}, o);
    }
    forall o | o != t && !IsWorker(s, o) ensures Count(s'.triggers, o) == Count(s.triggers, o) {
      WithoutCount(s.triggers, gone, o);
    }
  }

  lemma {:induction false} WithoutNone(q: seq<Obj>, gone: set<Obj>)
    requires forall o :: o in q ==> o !in gone
    ensures Without(q, gone) == q
  {
    if q != [] {
      WithoutNone(q[1..], gone);
      assert [q[0]] + q[1..] == q;
    }
  }

  lemma {:induction false} WithoutPush(q: seq<Obj>, x: Obj, gone: set<Obj>)
    ensures Without(q + [x], gone) == Without(q, gone) + if x in gone then [] else [x]
  {
    if q == [] {
      assert q + [x] == [x] && [x][1..] == [];
    } else {
      WithoutPush(q[1..], x, gone);
      assert (q + [x])[1..] == q[1..] + [x];
    }
  }

  /** Nobody has t: it is neither listed nor in the list of a worker. */
  ghost predicate Unlisted(s: State, t: Obj) {
    t !in s.triggers && forall k :: k in s.workers ==> t !in s.workers[k].list
  }

  /** Where the trigger is after add_trigger: once more in the device's list, or once in the list of
      the worker with its key; nothing else moves. */
  lemma AddAdds(s: State, t: Obj, direct: bool, prio: int, affinity: int, spare: Obj)
    requires Valid(s) && t in s.objects && !IsWorker(s, t) && spare !in s.objects
    ensures var (k, r) := (Key(prio, affinity, s.objects[t].divisor), Add(s, t, direct, prio, affinity, spare));
            var s' := r.0;
            && (r.1 <==> direct || k !in s.workers || t !in s.workers[k].list)
            && (!r.1 ==> s' == s)
            && (direct ==> Count(s'.triggers, t) == Count(s.triggers, t) + 1 && s'.workers == s.workers)
            && (!direct ==>
                  k in s'.workers && Count(s'.workers[k].list, t) == 1 && Count(s'.triggers, t) == Count(s.triggers, t))
            && (forall l :: l in s.workers && (l != k || direct) ==> l in s'.workers && s'.workers[l] == s.workers[l])
            && (forall o :: o in s.objects && o != t ==> Count(s'.triggers, o) == Count(s.triggers, o))
            && s.triggers <= s'.triggers
            && (!direct && k in s.workers ==> s.workers[k].list <= s'.workers[k].list)
  {
    hide Count;
    var k := Key(prio, affinity, s.objects[t].divisor);
    forall o ensures Count(s.triggers + [t], o) == Count(s.triggers, o) + if t == o then 1 else 0
             ensures Count(s.triggers + [spare], o) == Count(s.triggers, o) + if spare == o then 1 else 0
    {
      CountPush(s.triggers, t, o);
      CountPush(s.triggers, spare, o);
    }
    if !direct {
      if k !in s.workers {
        CountOfOne(t);
      } else {
        assert WorkerFits(s, k);
        CountIn(s.workers[k].list, t);
        CountPush(s.workers[k].list, t, t);
        assert t in s.workers[k].list ==> TriggerFits(s, s.workers[k], k.divisor, t);
      }
    }
  }

  lemma CountOfOne(t: Obj)
    ensures Count([t], t) == 1
  {
  }

  /** Removing a trigger undoes adding it, down to the worker that was created for it. */
  lemma RemoveUndoesAdd(s: State, t: Obj, direct: bool, prio: int, affinity: int, spare: Obj)
    requires Valid(s) && t in s.objects && !IsWorker(s, t) && spare !in s.objects && Unlisted(s, t)
    ensures var s' := Remove(Add(s, t, direct, prio, affinity, spare).0, t);
            s'.triggers == s.triggers && s'.workers == s.workers
  {
    hide Count, Without;
    var k, s1 := Key(prio, affinity, s.objects[t].divisor), Add(s, t, direct, prio, affinity, spare).0;
    var s', added := Remove(s1, t), !direct && k !in s.workers;
    forall l | l in s.workers
      ensures l in s1.workers && s1.workers[l].obj == s.workers[l].obj
      ensures Without(s1.workers[l].list, {t}) == s.workers[l].list != []
    {
      assert WorkerFits(s, l);
      WithoutNone(s.workers[l].list, {t});
      WithoutPush(s.workers[l].list, t, {t});
    }
    OneIsRemoved(t);
    var gone := {t} + if added then {spare} else {};
    IdleIs(s, s1, t, k, added, spare);
    WithoutNone(s.triggers, gone);
    WithoutPush(s.triggers, t, gone);
    WithoutPush(s.triggers, spare, gone);
  }

  lemma OneIsRemoved(t: Obj)
    ensures Without([t], {t}) == []
  {
    assert [t][1..] == [];
  }

  /** Only the worker added for t is left with nothing. */
  lemma IdleIs(s: State, s1: State, t: Obj, k: Key, added: bool, spare: Obj)
    requires forall l :: l in s.workers ==> l in s1.workers && s1.workers[l].obj == s.workers[l].obj
                                            && Without(s1.workers[l].list, {t}) == s.workers[l].list != []
    requires forall l :: l in s1.workers ==> l in s.workers || (added && l == k)
    requires added ==>
               k !in s.workers && k in s1.workers && s1.workers[k] == Worker(spare, [t]) && Without([t], {t}) == []
    ensures Idle(s1, t) == if added then {spare} else {}
    ensures Remove(s1, t).workers == s.workers
  {
    hide Without;
    if added {
      assert s1.workers[k].obj == spare;
    }
    assert Remove(s1, t).workers == s.workers;
  }

  datatype Op = AddOp(t: Obj, direct: bool, prio: int, affinity: int, spare: Obj) | RemoveOp(t: Obj)

  /** Triggers handed in and taken out exist and are no workers; a new worker is a new object. */
  predicate Callable(s: State, op: Op) {
    !IsWorker(s, op.t) && (op.AddOp? ==> op.t in s.objects && op.spare !in s.objects)
  }

  function Do(s: State, op: Op): State
    requires Callable(s, op)
  {
    match op
    case AddOp(t, direct, prio, affinity, spare) => Add(s, t, direct, prio, affinity, spare).0
    case RemoveOp(t) => Remove(s, t)
  }

  predicate Runs(s: State, ops: seq<Op>)
    decreases |ops|
  {
    ops != [] ==> Callable(s, ops[0]) && Runs(Do(s, ops[0]), ops[1..])
  }

  function End(s: State, ops: seq<Op>): State
    requires Runs(s, ops)
    decreases |ops|
  {
    if ops == [] then s else End(Do(s, ops[0]), ops[1..])
  }

  /** Over any adds and removes the registry stays in order. */
  lemma {:induction false} RegistryStaysValid(s: State, ops: seq<Op>)
    requires Valid(s) && Runs(s, ops)
    ensures Valid(End(s, ops))
    decreases |ops|
  {
    hide Valid, Callable, Do, IsWorker;
    if ops != [] {
      DoValid(s, ops[0]);
      RegistryStaysValid(Do(s, ops[0]), ops[1..]);
    }
  }

  lemma DoValid(s: State, op: Op)
    requires Valid(s) && Callable(s, op)
    ensures Valid(Do(s, op))
  {
    hide Valid, IsWorker, Add, Remove;
    match op
    case AddOp(t, direct, prio, affinity, spare) => AddValid(s, t, direct, prio, affinity, spare);
    case RemoveOp(t) => RemoveValid(s, t);
  }

  /** What do_trigger leaves: the counters, and who ticked. */
  datatype Round = Round(objects: map<Obj, Counter>, ticked: seq<Obj>)

  predicate Countable(objects: map<Obj, Counter>, q: seq<Obj>) {
    forall o :: o in q ==> o in objects && objects[o].divisor != 0
  }

  /** The counter comes round. Whether the remainder is 0 does not depend on its sign. */
  predicate Due(c: Counter)
    requires c.divisor != 0
  {
    (c.cnt + 1) % c.divisor == 0
  }

  /** One step of the loop of do_trigger. */
  function TickOne(r: Round, o: Obj): (r': Round)
    requires o in r.objects && r.objects[o].divisor != 0
    ensures r'.objects.Keys == r.objects.Keys
    ensures forall x :: x in r.objects ==> r'.objects[x].divisor == r.objects[x].divisor
  {
    var c := r.objects[o];
    if Due(c) then Round(r.objects[o := c.(cnt := 0)], r.ticked + [o])
    else Round(r.objects[o := c.(cnt := c.cnt + 1)], r.ticked)
  }

  function Ticks(r: Round, q: seq<Obj>): (r': Round)
    requires Countable(r.objects, q)
    ensures r'.objects.Keys == r.objects.Keys
    ensures forall x :: x in r.objects ==> r'.objects[x].divisor == r.objects[x].divisor
    decreases |q|
  {
    if q == [] then r else Ticks(TickOne(r, q[0]), q[1..])
  }

  /** n calls of do_trigger. */
  function Rounds(r: Round, q: seq<Obj>, n: nat): (r': Round)
    requires Countable(r.objects, q)
    ensures r'.objects.Keys == r.objects.Keys
    ensures forall x :: x in r.objects ==> r'.objects[x].divisor == r.objects[x].divisor
  {
    if n == 0 then r else Ticks(Rounds(r, q, n - 1), q)
  }

  lemma {:induction false} TicksOfOthers(r: Round, q: seq<Obj>, o: Obj)
    requires Countable(r.objects, q) && o in r.objects && o !in q
    ensures var r' := Ticks(r, q); r'.objects[o] == r.objects[o] && Count(r'.ticked, o) == Count(r.ticked, o)
    decreases |q|
  {
    hide Count, Due;
    if q != [] {
      CountPush(r.ticked, q[0], o);
      TicksOfOthers(TickOne(r, q[0]), q[1..], o);
    }
  }

  /** An entry listed once is counted once a round, wherever it stands in the list. */
  lemma {:induction false} TicksOfOne(r: Round, q: seq<Obj>, o: Obj)
    requires Countable(r.objects, q) && o in r.objects && Count(q, o) == 1 && r.objects[o].divisor != 0
    ensures var (c, r', one) := (r.objects[o], Ticks(r, q), TickOne(Round(r.objects, []), o));
            && r'.objects[o] == one.objects[o]
            && Count(r'.ticked, o) == Count(r.ticked, o) + if Due(c) then 1 else 0
    decreases |q|
  {
    CountIn(q, o);
    CountTail(q, o);
    hide Count, Due;
    var r1 := TickOne(r, q[0]);
    CountPush(r.ticked, q[0], o);
    if q[0] == o {
      CountIn(q[1..], o);
      TicksOfOthers(r1, q[1..], o);
    } else {
      TicksOfOne(r1, q[1..], o);
    }
  }

  lemma NextQuotient(x: nat, d: nat)
    requires d >= 1
    ensures x % d + 1 == d ==> (x + 1) % d == 0 && (x + 1) / d == x / d + 1
    ensures x % d + 1 < d ==> (x + 1) % d == x % d + 1 && (x + 1) / d == x / d
  {
    var q, m := x / d, x % d;
    if m + 1 == d {
      Quotient(x + 1, d, q + 1, 0);
    } else {
      Quotient(x + 1, d, q, m + 1);
    }
  }

  lemma Quotient(x: nat, d: nat, q: nat, m: nat)
    requires d >= 1 && m < d && x == d * q + m
    ensures x / d == q && x % d == m
  {
    var p := x / d;
    assert x == d * p + x % d;
    if p < q {
      Larger(d, p + 1, q);
    } else if q < p {
      Larger(d, q + 1, p);
    }
  }

  lemma Larger(d: nat, a: nat, b: nat)
    requires a <= b
    ensures d * a <= d * b
  {
  }

  lemma SmallRemainder(c: nat, d: nat)
    requires c < d
    ensures c % d == c && c / d == 0
  {
  }

  /** A trigger with divisor d listed once ticks floor((c + n) / d) times in n calls. */
  lemma {:induction false} TicksEveryDivisor(r: Round, q: seq<Obj>, o: Obj, n: nat)
    requires Countable(r.objects, q) && o in r.objects && Count(q, o) == 1
    requires r.objects[o].divisor >= 1 && 0 <= r.objects[o].cnt < r.objects[o].divisor
    ensures var (c, d, r') := (r.objects[o].cnt, r.objects[o].divisor, Rounds(r, q, n));
            && r'.objects[o] == Counter(d, (c + n) % d)
            && Count(r'.ticked, o) == Count(r.ticked, o) + (c + n) / d
  {
    hide Count, Ticks;
    var c, d := r.objects[o].cnt, r.objects[o].divisor;
    if n == 0 {
      SmallRemainder(c, d);
    } else {
      TicksEveryDivisor(r, q, o, n - 1);
      TicksInNextRound(Rounds(r, q, n - 1), q, o, c + n - 1);
    }
  }

  /** One more round takes the counter from x % d to (x + 1) % d and ticks when the quotient grows. */
  lemma TicksInNextRound(r: Round, q: seq<Obj>, o: Obj, x: nat)
    requires Countable(r.objects, q) && o in r.objects && Count(q, o) == 1
    requires r.objects[o].divisor >= 1 && r.objects[o].cnt == x % r.objects[o].divisor
    ensures var (d, r') := (r.objects[o].divisor, Ticks(r, q));
            && r'.objects[o] == Counter(d, (x + 1) % d)
            && Count(r'.ticked, o) == Count(r.ticked, o) + (x + 1) / d - x / d
  {
    hide Count, Ticks;
    var d := r.objects[o].divisor;
    TicksOfOne(r, q, o);
    NextQuotient(x, d);
    DivisibleIffFull(x % d, d);
  }

  lemma DivisibleIffFull(m: nat, d: nat)
    requires m < d
    ensures (m + 1) % d == 0 <==> m + 1 == d
  {
    if m + 1 < d {
      SmallRemainder(m + 1, d);
    }
  }

  /** The entries of the list that come round, in its order. */
  function DueIn(objects: map<Obj, Counter>, q: seq<Obj>): seq<Obj>
    requires Countable(objects, q)
  {
    if q == [] then [] else (if Due(objects[q[0]]) then [q[0]] else []) + DueIn(objects, q[1..])
  }

  lemma {:induction false} DueUntouched(objects: map<Obj, Counter>, objects': map<Obj, Counter>, q: seq<Obj>)
    requires Countable(objects, q) && Countable(objects', q)
    requires forall o :: o in q ==> objects'[o] == objects[o]
    ensures DueIn(objects', q) == DueIn(objects, q)
  {
    hide Due;
    if q != [] {
      DueUntouched(objects, objects', q[1..]);
    }
  }

  /** Where nothing is listed twice, one round ticks the entries that come round, in the list's order. */
  lemma {:induction false} TicksInOrder(r: Round, q: seq<Obj>)
    requires Countable(r.objects, q) && Distinct(q)
    ensures Ticks(r, q).ticked == r.ticked + DueIn(r.objects, q)
    decreases |q|
  {
    hide Due;
    if q == [] {
      assert r.ticked + [] == r.ticked;
    } else {
      var r1, rest := TickOne(r, q[0]), q[1..];
      TicksInOrder(r1, rest);
      DueUntouched(r.objects, r1.objects, rest);
      var one := if Due(r.objects[q[0]]) then [q[0]] else [];
      assert r1.ticked == r.ticked + one;
      assert (r.ticked + one) + DueIn(r.objects, rest) == r.ticked + (one + DueIn(r.objects, rest));
    }
  }

  // How often triggers tick after they have been added or removed.

  /** Counters of entries with a positive divisor are below it. */
  predicate InRange(objects: map<Obj, Counter>) {
    forall o :: o in objects && objects[o].divisor >= 1 ==> 0 <= objects[o].cnt < objects[o].divisor
  }

  /** Neither adding nor removing touches the counter of an object that exists already. */
  lemma {:induction false} CountersStay(s: State, ops: seq<Op>)
    requires Runs(s, ops)
    ensures forall o :: o in s.objects ==> o in End(s, ops).objects && End(s, ops).objects[o] == s.objects[o]
    decreases |ops|
  {
    hide IsWorker;
    if ops != [] {
      CountersStay(Do(s, ops[0]), ops[1..]);
    }
  }

  lemma {:induction false} NotListedNotTicked(r: Round, q: seq<Obj>, o: Obj, n: nat)
    requires Countable(r.objects, q) && o in r.objects && o !in q
    ensures var r' := Rounds(r, q, n); r'.objects[o] == r.objects[o] && Count(r'.ticked, o) == Count(r.ticked, o)
  {
    hide Count, Ticks;
    if n > 0 {
      NotListedNotTicked(r, q, o, n - 1);
      TicksOfOthers(Rounds(r, q, n - 1), q, o);
    }
  }

  /** How often o ticks in n rounds of the device. */
  function TicksIn(s: State, o: Obj, n: nat): nat
    requires Countable(s.objects, s.triggers)
  {
    Count(Rounds(Round(s.objects, []), s.triggers, n).ticked, o)
  }

  lemma TicksInIs(s: State, o: Obj, n: nat)
    requires Countable(s.objects, s.triggers) && o in s.objects && Count(s.triggers, o) == 1
    requires s.objects[o].divisor >= 1 && 0 <= s.objects[o].cnt < s.objects[o].divisor
    ensures TicksIn(s, o, n) == (s.objects[o].cnt + n) / s.objects[o].divisor
  {
    hide Rounds;
    TicksEveryDivisor(Round(s.objects, []), s.triggers, o, n);
  }

  /** The entry that ticks on behalf of t once it is added: t itself or its worker. */
  function EntryFor(s: State, t: Obj, direct: bool, prio: int, affinity: int, spare: Obj): Obj
    requires t in s.objects
  {
    var k := Key(prio, affinity, s.objects[t].divisor);
    if direct then t else if k in s.workers then s.workers[k].obj else spare
  }

  lemma AddListsEntry(s: State, t: Obj, direct: bool, prio: int, affinity: int, spare: Obj)
    requires Valid(s) && t in s.objects && !IsWorker(s, t) && spare !in s.objects && (direct ==> t !in s.triggers)
    requires Countable(s.objects, s.triggers) && s.objects[t].divisor >= 1
    ensures var (s', e) := (Add(s, t, direct, prio, affinity, spare).0, EntryFor(s, t, direct, prio, affinity, spare));
            && Countable(s'.objects, s'.triggers) && Count(s'.triggers, e) == 1
            && e in s'.objects && s'.objects[e].divisor == s.objects[t].divisor
            && s'.objects[e].cnt == if e in s.objects then s.objects[e].cnt else 0
  {
    hide Count;
    var k := Key(prio, affinity, s.objects[t].divisor);
    if !direct && k in s.workers {
      assert WorkerFits(s, k);
    }
    CountIn(s.triggers, t);
    CountIn(s.triggers, spare);
    CountPush(s.triggers, t, t);
    CountPush(s.triggers, spare, spare);
  }

  /** A trigger that has been added ticks through its entry: a new worker with divisor d ticks n / d times
      in n rounds; t itself, or a worker that was there before, goes on from where its counter stands. */
  lemma TicksAfterAdd(s: State, t: Obj, direct: bool, prio: int, affinity: int, spare: Obj, n: nat)
    requires Valid(s) && t in s.objects && !IsWorker(s, t) && spare !in s.objects && (direct ==> t !in s.triggers)
    requires Countable(s.objects, s.triggers) && InRange(s.objects) && s.objects[t].divisor >= 1
    ensures var (s', e) := (Add(s, t, direct, prio, affinity, spare).0, EntryFor(s, t, direct, prio, affinity, spare));
            && Countable(s'.objects, s'.triggers)
            && TicksIn(s', e, n) == ((if e in s.objects then s.objects[e].cnt else 0) + n) / s.objects[t].divisor
  {
    hide Valid, Countable, Add, TicksIn, Count, IsWorker;
    AddListsEntry(s, t, direct, prio, affinity, spare);
    var e := EntryFor(s, t, direct, prio, affinity, spare);
    if e in s.objects {
      AddKeeps(s, t, direct, prio, affinity, spare, e);
    }
    TicksInIs(Add(s, t, direct, prio, affinity, spare).0, e, n);
  }

  lemma AddKeeps(s: State, t: Obj, direct: bool, prio: int, affinity: int, spare: Obj, o: Obj)
    requires t in s.objects && spare !in s.objects && o in s.objects
    ensures var s' := Add(s, t, direct, prio, affinity, spare).0; o in s'.objects && s'.objects[o] == s.objects[o]
  {
  }

  /** Who is listed once ticks on as before when something else is added. */
  lemma OthersTickAsBefore(s: State, t: Obj, direct: bool, prio: int, affinity: int, spare: Obj, o: Obj, n: nat)
    requires Valid(s) && t in s.objects && !IsWorker(s, t) && spare !in s.objects && (direct ==> t !in s.triggers)
    requires Countable(s.objects, s.triggers) && InRange(s.objects) && s.objects[t].divisor >= 1
    requires o in s.objects && Count(s.triggers, o) == 1 && s.objects[o].divisor >= 1
    ensures var s' := Add(s, t, direct, prio, affinity, spare).0;
            Countable(s'.objects, s'.triggers) && TicksIn(s', o, n) == TicksIn(s, o, n)
  {
    hide Valid, TicksIn, Count, IsWorker;
    AddListsEntry(s, t, direct, prio, affinity, spare);
    AddKeeps(s, t, direct, prio, affinity, spare, o);
    CountIn(s.triggers, t);
    CountPush(s.triggers, t, o);
    CountPush(s.triggers, spare, o);
    TicksInIs(s, o, n);
    TicksInIs(Add(s, t, direct, prio, affinity, spare).0, o, n);
  }

  /** Once a trigger is removed it does not tick; nor does a worker it left with nothing. */
  lemma NoTicksAfterRemove(s: State, t: Obj, n: nat)
    requires Valid(s) && !IsWorker(s, t) && Countable(s.objects, s.triggers)
    ensures var s' := Remove(s, t);
            && Countable(s'.objects, s'.triggers)
            && (t in s.objects ==> TicksIn(s', t, n) == 0)
            && forall k :: k in s.workers && k !in s'.workers ==>
                 s.workers[k].obj in s.objects && TicksIn(s', s.workers[k].obj, n) == 0
  {
    hide Count, Without, Rounds;
    var s' := Remove(s, t);
    RemoveRemoves(s, t);
    WithoutIn(s.triggers, {t} + Idle(s, t));
    if t in s.objects {
      NotListedNotTicked(Round(s.objects, []), s'.triggers, t, n);
      CountOfNone(t);
    }
    forall k | k in s.workers && k !in s'.workers
      ensures s.workers[k].obj in s.objects && TicksIn(s', s.workers[k].obj, n) == 0
    {
      assert WorkerFits(s, k);
      CountIn(s'.triggers, s.workers[k].obj);
      NotListedNotTicked(Round(s.objects, []), s'.triggers, s.workers[k].obj, n);
      CountOfNone(s.workers[k].obj);
    }
  }

  lemma CountOfNone(o: Obj)
    ensures Count([], o) == 0
  {
  }

  class TriggerDevice {
    var objects: map<Obj, Counter>
    var triggers: seq<Obj>
    var workers: map<Key, Worker>
    var ticked: seq<Obj>

    ghost function AsState(): State
      reads this
    {
      State(objects, triggers, workers)
    }

    constructor (objects: map<Obj, Counter>)
      ensures Valid(AsState()) && AsState() == State(objects, [], map[]) && ticked == []
    {
      this.objects, triggers, workers, ticked := objects, [], map[], [];
    }

    /** spare is the object a new worker would be. */
    method AddTrigger(t: Obj, direct: bool, prio: int, affinity: int, spare: Obj) returns (ok: bool)
      requires Valid(AsState()) && t in objects && !IsWorker(AsState(), t) && spare !in objects
      modifies this`objects, this`triggers, this`workers
      ensures Valid(AsState())
      ensures (AsState(), ok) == Add(old(AsState()), t, direct, prio, affinity, spare)
    {
      hide Valid;
      AddValid(AsState(), t, direct, prio, affinity, spare);
      ghost var s := AsState();
      var k := Key(prio, affinity, objects[t].divisor);
      if direct {
        triggers := triggers + [t];
        return true;
      }
      if k !in workers {
        objects := objects[spare := Counter(k.divisor, 0)];
        workers := workers[k := Worker(spare, [])];
        triggers := triggers + [spare];
      }
      if t in workers[k].list {
        return false;
      }
      workers := workers[k := workers[k].(list := workers[k].list + [t])];
      ok := true;
      assert [] + [t] == [t];
      assert k !in s.workers ==> workers == s.workers[k := Worker(spare, [t])];
    }

    /** Removes t from the list and from all workers, and workers it leaves with nothing. */
    method RemoveTrigger(t: Obj)
      requires Valid(AsState()) && !IsWorker(AsState(), t)
      modifies this`triggers, this`workers
      ensures Valid(AsState())
      ensures AsState() == Remove(old(AsState()), t)
    {
      hide Valid, Without, IdleOf, Swept, Idle;
      RemoveValid(AsState(), t);
      ghost var s, swept := AsState(), {};
      triggers := Without(triggers, {t});
      var todo := workers.Keys;
      SweepStarts(s, t);
      while todo != {}
        invariant objects == s.objects && swept !! todo && swept + todo == s.workers.Keys
        invariant Swept(s, t, swept, triggers, workers)
        decreases |todo|
      {
        var k :| k in todo;
        SweepsNext(s, t, swept, triggers, workers, k);
        todo := todo - {k};
        swept := swept + {k};
        var w := Worker(workers[k].obj, Without(workers[k].list, {t}));
        if w.list == [] {
          triggers := Without(triggers, {w.obj});
          workers := workers - {k};
        } else {
          workers := workers[k := w];
        }
      }
      assert swept == s.workers.Keys;
      SweepEnds(s, t, triggers, workers);
    }

    /** Counts every entry up and ticks those that come round. */
    method DoTrigger()
      requires Countable(objects, triggers)
      modifies this`objects, this`ticked
      ensures Round(objects, ticked) == Ticks(old(Round(objects, ticked)), triggers)
    {
      hide Ticks;
      ghost var r := Round(objects, ticked);
      var i := 0;
      TicksEnd(r, triggers);
      while i < |triggers|
        invariant i <= |triggers| && Countable(objects, triggers)
        invariant Ticks(Round(objects, ticked), triggers[i..]) == Ticks(r, triggers)
      {
        ghost var now := Round(objects, ticked);
        var t := triggers[i];
        var c := objects[t];
        c := c.(cnt := c.cnt + 1);
        if c.cnt % c.divisor == 0 {
          c := c.(cnt := 0);
          ticked := ticked + [t];
        }
        objects := objects[t := c];
        TicksNext(now, triggers, i);
        i := i + 1;
      }
      TicksEnd(Round(objects, ticked), triggers);
    }
  }

  lemma TicksNext(r: Round, q: seq<Obj>, i: nat)
    requires i < |q| && Countable(r.objects, q)
    ensures Ticks(r, q[i..]) == Ticks(TickOne(r, q[i]), q[i + 1..])
  {
    hide TickOne;
    assert q[i..][1..] == q[i + 1..];
  }

  lemma TicksEnd(r: Round, q: seq<Obj>)
    requires Countable(r.objects, q)
    ensures Ticks(r, q[|q|..]) == r && q[0..] == q
  {
  }

  /** The idle workers among those with the given keys. */
  ghost function IdleOf(s: State, t: Obj, keys: set<Key>): set<Obj> {
    set k | k in s.workers && k in keys && Without(s.workers[k].list, {t}) == [] :: s.workers[k].obj
  }

  /** The list and the workers when those with the given keys have been visited. */
  ghost predicate Swept(s: State, t: Obj, keys: set<Key>, triggers: seq<Obj>, workers: map<Key, Worker>) {
    && triggers == Without(s.triggers, {t} + IdleOf(s, t, keys))
    && workers.Keys <= s.workers.Keys
    && forall k :: k in s.workers ==>
         if k !in keys then k in workers && workers[k] == s.workers[k]
         else if Without(s.workers[k].list, {t}) == [] then k !in workers
         else k in workers && workers[k] == Worker(s.workers[k].obj, Without(s.workers[k].list, {t}))
  }

  lemma SweepStarts(s: State, t: Obj)
    ensures Swept(s, t, {}, Without(s.triggers, {t}), s.workers)
  {
    hide Without;
    assert {t} + IdleOf(s, t, {}) == {t};
  }

  lemma SweepsNext(s: State, t: Obj, keys: set<Key>, triggers: seq<Obj>, workers: map<Key, Worker>, k: Key)
    requires Swept(s, t, keys, triggers, workers) && k in s.workers && k !in keys
    ensures k in workers
    ensures var w := Worker(workers[k].obj, Without(workers[k].list, {t}));
            if w.list == [] then Swept(s, t, keys + {k}, Without(triggers, {w.obj}), workers - {k})
            else Swept(s, t, keys + {k}, triggers, workers[k := w])
  {
    hide Without;
    var w, gone := s.workers[k], {t} + IdleOf(s, t, keys);
    if Without(w.list, {t}) == [] {
      WithoutTwice(s.triggers, gone, {w.obj});
      assert gone + {w.obj} == {t} + IdleOf(s, t, keys + {k});
    } else {
      assert gone == {t} + IdleOf(s, t, keys + {k});
    }
  }

  lemma SweepEnds(s: State, t: Obj, triggers: seq<Obj>, workers: map<Key, Worker>)
    requires Swept(s, t, s.workers.Keys, triggers, workers)
    ensures State(s.objects, triggers, workers) == Remove(s, t)
  {
    hide Without;
    assert IdleOf(s, t, s.workers.Keys) == Idle(s, t);
    assert workers == Remove(s, t).workers;
  }
}
