/** The log pool and the log thread as a step system: loggers take objects from the pool, fill them
    and hand them over; one thread prints them. Critical sections under the mutex are single steps. */
module LogPool {
  import opened Lists

  type Obj = nat

  /** Where the log thread stands. It holds the mutex while Checking, Testing and Draining, and is without
      it before it starts, in the condition wait, while it prints, and after it has finished. Checking is
      before the run flag is read, Testing after that and before the wake-up flag is; whoever stops the
      thread does not take the mutex and can come between the two. */
  datatype Thread =
    | NotStarted
    | Checking
    | Testing
    | Waiting(notified: bool)
    | Draining
    | Printing(obj: Obj)
    | Printed(obj: Obj)
    | Finished

  /** Pools, buffers, the objects loggers hold, the wake-up flag, the switches, the thread. logged and
      printed are the texts handed over asynchronously and the texts the thread has printed. */
  datatype State = State(
    empty: seq<Obj>, full: seq<Obj>, held: set<Obj>, text: map<Obj, string>,
    flag: bool, sync: bool, running: bool, thread: Thread,
    logged: seq<string>, printed: seq<string>, direct: seq<string>)

  predicate Locked(t: Thread) {
    t.Checking? || t.Testing? || t.Draining?
  }

  datatype Action =
    | GetPoolObject
    | Fill(obj: Obj, line: string)
    | Log(obj: Obj)
    | ReturnPoolObject(obj: Obj)
    | SwitchSync(sync: bool)
    | Stop
    | Start
    | Check
    | Test
    | Wake(timeout: bool)
    | Drain
    | Print
    | PutBack

  /** get_pool_object and log take the mutex; return_pool_object does not. */
  predicate Enabled(s: State, a: Action) {
    match a
    case GetPoolObject => !Locked(s.thread)
    case Fill(obj, line) => obj in s.held
    case Log(obj) => obj in s.held && obj in s.text && !Locked(s.thread)
    case ReturnPoolObject(obj) => obj in s.held
    case SwitchSync(_) => true
    case Stop => true
    case Start => s.thread.NotStarted?
    case Check => s.thread.Checking?
    case Test => s.thread.Testing?
    case Wake(timeout) => s.thread.Waiting?
    case Drain => s.thread.Draining?
    case Print => s.thread.Printing? && s.thread.obj in s.text
    case PutBack => s.thread.Printed?
  }

  /** notify_all reaches the thread only if it is waiting. */
  function Notify(t: Thread): Thread {
    if t.Waiting? then Waiting(true) else t
  }

  function Do(s: State, a: Action): State
    requires Enabled(s, a)
  {
    match a
    case GetPoolObject =>
      if s.empty == [] then s else s.(empty := s.empty[1..], held := s.held + {s.empty[0]})
    case Fill(obj, line) => s.(text := s.text[obj := line])
    case Log(obj) =>
      if s.sync then s.(held := s.held - {obj}, empty := s.empty + [obj], direct := s.direct + [s.text[obj]])
      else
        s.(held := s.held - {obj}, full := s.full + [obj], logged := s.logged + [s.text[obj]],
           flag := true, thread := if s.flag then s.thread else Notify(s.thread))
    case ReturnPoolObject(obj) => s.(held := s.held - {obj}, empty := s.empty + [obj])
    case SwitchSync(sync) => s.(sync := sync)
    case Stop => s.(running := false, thread := Notify(s.thread))
    case Start => s.(running := true, thread := Checking)
    case Check => s.(thread := if s.running then Testing else Finished)
    case Test =>
      if s.flag then s.(flag := false, thread := Draining) else s.(thread := Waiting(false))
    case Wake(timeout) =>
      if timeout then s.(thread := Checking) else s.(flag := false, thread := Draining)
    case Drain =>
      if s.full == [] then s.(thread := Checking) else s.(full := s.full[1..], thread := Printing(s.full[0]))
    case Print => s.(printed := s.printed + [s.text[s.thread.obj]], thread := Printed(s.thread.obj))
    case PutBack => s.(empty := s.empty + [s.thread.obj], thread := Draining)
  }

  function Pool(size: nat): seq<Obj> {
    seq(size, i => i)
  }

  function Begin(size: nat): State {
    State(Pool(size), [], {}, map[], false, false, false, NotStarted, [], [], [])
  }

  predicate InHand(t: Thread, obj: Obj) {
    (t.Printing? || t.Printed?) && t.obj == obj
  }

  /** In how many places the object is: in a pool (counted as often as it occurs there), held by a
      logger, in the thread's hands. */
  function Places(s: State, obj: Obj): nat {
    Count(s.empty, obj) + Count(s.full, obj)
    + (if obj in s.held then 1 else 0) + (if InHand(s.thread, obj) then 1 else 0)
  }

  /** Every object of the pool, and no other, is in exactly one place, once. */
  ghost predicate Conserved(s: State, size: nat) {
    forall obj: Obj :: Places(s, obj) == if obj < size then 1 else 0
  }

  /** Objects handed over or in print have texts. */
  ghost predicate Filled(s: State) {
    && (forall i :: 0 <= i < |s.full| ==> s.full[i] in s.text)
    && ((s.thread.Printing? || s.thread.Printed?) ==> s.thread.obj in s.text)
  }

  function Texts(objs: seq<Obj>, text: map<Obj, string>): (lines: seq<string>)
    requires forall i :: 0 <= i < |objs| ==> objs[i] in text
    ensures |lines| == |objs| && forall i :: 0 <= i < |objs| ==> lines[i] == text[objs[i]]
  {
    seq(|objs|, i requires 0 <= i < |objs| => text[objs[i]])
  }

  /** What the thread has popped but not yet printed, then what is still queued. */
  ghost function Pending(s: State): seq<string>
    requires Filled(s)
  {
    (if s.thread.Printing? then [s.text[s.thread.obj]] else []) + Texts(s.full, s.text)
  }

  /** Printed plus pending is what was logged, in that order. */
  ghost predicate InOrder(s: State) {
    Filled(s) && s.logged == s.printed + Pending(s)
  }

  /** No message is stranded: when the thread is about to wait or waits, a queued message means that
      the flag is set, and a flag set during the wait means that the thread was notified. */
  predicate NotStranded(s: State) {
    && (s.thread.NotStarted? || s.thread.Checking? || s.thread.Testing? || s.thread.Waiting? ==>
          (s.full != [] ==> s.flag))
    && (s.thread.Waiting? && s.flag ==> s.thread.notified)
  }

  ghost predicate Invariant(s: State, size: nat) {
    Conserved(s, size) && InOrder(s) && NotStranded(s)
  }

  lemma BeginHolds(size: nat)
    ensures Invariant(Begin(size), size)
  {
    forall obj: Obj ensures Places(Begin(size), obj) == if obj < size then 1 else 0 {
      PoolOnce(size, obj);
    }
  }

  lemma {:induction false} PoolOnce(size: nat, obj: Obj)
    ensures Count(Pool(size), obj) == if obj < size then 1 else 0
    decreases size
  {
    if size > 0 {
      PoolOnce(size - 1, obj);
      var last: Obj := size - 1;
      CountPush(Pool(size - 1), last, obj);
      assert Pool(size) == Pool(size - 1) + [last];
    } else {
      assert Pool(size) == [];
    }
  }

  lemma StepHolds(s: State, a: Action, size: nat)
    requires Invariant(s, size) && Enabled(s, a)
    ensures Invariant(Do(s, a), size)
  {
    StepConserves(s, a, size);
    StepOrders(s, a, size);
    StepStrandsNone(s, a);
  }

  lemma StepMoves(s: State, a: Action, obj: Obj)
    requires Enabled(s, a) && Places(s, obj) <= 1 && (s.empty != [] ==> Places(s, s.empty[0]) <= 1)
    ensures Places(Do(s, a), obj) == Places(s, obj)
  {
    hide Count;
    match a
    case GetPoolObject =>
      if s.empty != [] {
        CountIn(s.empty, s.empty[0]);
        CountTail(s.empty, obj);
      }
    case Log(x) =>
      CountPush(s.empty, x, obj);
      CountPush(s.full, x, obj);
    case ReturnPoolObject(x) => CountPush(s.empty, x, obj);
    case Drain =>
      if s.full != [] {
        CountTail(s.full, obj);
      }
    case PutBack => CountPush(s.empty, s.thread.obj, obj);
    case _ =>
  }

  lemma StepConserves(s: State, a: Action, size: nat)
    requires Conserved(s, size) && Enabled(s, a)
    ensures Conserved(Do(s, a), size)
  {
    hide Places, Enabled;
    forall obj: Obj ensures Places(Do(s, a), obj) == if obj < size then 1 else 0 {
      StepMoves(s, a, obj);
    }
  }

  lemma StepStrandsNone(s: State, a: Action)
    requires NotStranded(s) && Enabled(s, a)
    ensures NotStranded(Do(s, a))
  {
  }

  lemma StepOrders(s: State, a: Action, size: nat)
    requires Conserved(s, size) && InOrder(s) && Enabled(s, a)
    ensures InOrder(Do(s, a))
  {
    hide Conserved, InOrder;
    match a
    case Fill(obj, line) =>
      HeldIsApart(s, obj, size);
      FillOrders(s, obj, line);
    case Log(obj) => LogOrders(s, obj);
    case Drain => DrainOrders(s);
    case Print => PrintOrders(s);
    case _ => OthersOrder(s, a);
  }

  lemma HeldIsApart(s: State, obj: Obj, size: nat)
    requires Conserved(s, size) && obj in s.held
    ensures obj !in s.full && !InHand(s.thread, obj)
  {
    hide Count;
    assert Places(s, obj) <= 1;
    CountIn(s.full, obj);
  }

  lemma FillOrders(s: State, obj: Obj, line: string)
    requires InOrder(s) && Enabled(s, Fill(obj, line)) && obj !in s.full && !InHand(s.thread, obj)
    ensures InOrder(Do(s, Fill(obj, line)))
  {
    var s' := Do(s, Fill(obj, line));
    assert forall i :: 0 <= i < |s.full| ==> s.full[i] != obj;
    assert Texts(s'.full, s'.text) == Texts(s.full, s.text);
  }

  lemma LogOrders(s: State, obj: Obj)
    requires InOrder(s) && Enabled(s, Log(obj))
    ensures InOrder(Do(s, Log(obj)))
  {
    var s' := Do(s, Log(obj));
    if !s.sync {
      assert Texts(s'.full, s'.text) == Texts(s.full, s.text) + [s.text[obj]];
      assert Pending(s') == Pending(s) + [s.text[obj]];
    }
  }

  lemma DrainOrders(s: State)
    requires InOrder(s) && Enabled(s, Drain)
    ensures InOrder(Do(s, Drain))
  {
    hide Texts;
    if s.full != [] {
      TextsSplit(s.full, s.text);
      var rest := Texts(s.full[1..], s.text);
      assert [] + ([s.text[s.full[0]]] + rest) == [s.text[s.full[0]]] + rest;
    }
  }

  lemma TextsSplit(q: seq<Obj>, text: map<Obj, string>)
    requires q != [] && forall i :: 0 <= i < |q| ==> q[i] in text
    ensures forall i :: 0 <= i < |q[1..]| ==> q[1..][i] in text
    ensures Texts(q, text) == [text[q[0]]] + Texts(q[1..], text)
  {
  }

  lemma PrintOrders(s: State)
    requires InOrder(s) && Enabled(s, Print)
    ensures InOrder(Do(s, Print))
  {
  }

  lemma OthersOrder(s: State, a: Action)
    requires InOrder(s) && Enabled(s, a) && !a.Fill? && !a.Log? && !a.Drain? && !a.Print?
    ensures InOrder(Do(s, a))
  {
    hide Texts;
  }

  predicate Runs(s: State, actions: seq<Action>)
    decreases |actions|
  {
    actions != [] ==> Enabled(s, actions[0]) && Runs(Do(s, actions[0]), actions[1..])
  }

  function End(s: State, actions: seq<Action>): State
    requires Runs(s, actions)
    decreases |actions|
  {
    if actions == [] then s else End(Do(s, actions[0]), actions[1..])
  }

  lemma {:induction false} RunHolds(s: State, actions: seq<Action>, size: nat)
    requires Invariant(s, size) && Runs(s, actions)
    ensures Invariant(End(s, actions), size)
    decreases |actions|
  {
    hide Invariant, Do, Enabled;
    if actions != [] {
      StepHolds(s, actions[0], size);
      RunHolds(Do(s, actions[0]), actions[1..], size);
    }
  }

  /** Over all interleavings from a new pool: no object is lost or doubled, what the thread has printed
      is the beginning of what was logged, in the order of the calls to log and with the texts
      logged, and a waiting thread with messages queued has its flag set and has been notified. */
  lemma LogsInOrderAndStrandsNone(size: nat, actions: seq<Action>)
    requires Runs(Begin(size), actions)
    ensures var s := End(Begin(size), actions);
            && (forall obj: Obj :: Places(s, obj) == if obj < size then 1 else 0)
            && Filled(s) && s.logged == s.printed + Pending(s)
            && (s.thread.Waiting? && s.full != [] ==> s.flag && s.thread.notified)
  {
    hide Places, Filled, Pending;
    BeginHolds(size);
    RunHolds(Begin(size), actions, size);
  }

  /** What the loggers have done so far, from their calls alone: the switch, the buffers, and the texts
      handed to log while the switch was set and while it was not. */
  datatype Calls = Calls(sync: bool, text: map<Obj, string>, direct: seq<string>, queued: seq<string>)

  function After(c: Calls, a: Action): Calls {
    match a
    case Fill(obj, line) => c.(text := c.text[obj := line])
    case SwitchSync(sync) => c.(sync := sync)
    case Log(obj) =>
      if obj !in c.text then c
      else if c.sync then c.(direct := c.direct + [c.text[obj]])
      else c.(queued := c.queued + [c.text[obj]])
    case _ => c
  }

  function CallsOf(c: Calls, actions: seq<Action>): Calls
    decreases |actions|
  {
    if actions == [] then c else CallsOf(After(c, actions[0]), actions[1..])
  }

  function LogCalls(actions: seq<Action>): nat {
    if actions == [] then 0 else (if actions[0].Log? then 1 else 0) + LogCalls(actions[1..])
  }

  predicate Agrees(s: State, c: Calls) {
    s.sync == c.sync && s.text == c.text && s.direct == c.direct && s.logged == c.queued
  }

  lemma {:induction false} RunAgrees(s: State, c: Calls, actions: seq<Action>)
    requires Runs(s, actions) && Agrees(s, c)
    ensures var (s', c') := (End(s, actions), CallsOf(c, actions));
            Agrees(s', c') && |c'.direct| + |c'.queued| == |c.direct| + |c.queued| + LogCalls(actions)
    decreases |actions|
  {
    hide Do, Enabled, After, Agrees;
    if actions != [] {
      StepAgrees(s, c, actions[0]);
      RunAgrees(Do(s, actions[0]), After(c, actions[0]), actions[1..]);
    }
  }

  lemma StepAgrees(s: State, c: Calls, a: Action)
    requires Enabled(s, a) && Agrees(s, c)
    ensures var c' := After(c, a);
            Agrees(Do(s, a), c')
            && |c'.direct| + |c'.queued| == |c.direct| + |c.queued| + if a.Log? then 1 else 0
  {
  }

  /** Over all interleavings from a new pool, told from the calls alone: what was handed to log while
      sync_logging was set has been printed by log itself, with the text of that moment and in that order;
      what was handed over otherwise is what the thread has printed and what is pending; and that is every
      call of log. */
  lemma NoCallLosesItsText(size: nat, actions: seq<Action>)
    requires Runs(Begin(size), actions)
    ensures var (s, c) := (End(Begin(size), actions), CallsOf(Calls(false, map[], [], []), actions));
            && s.direct == c.direct
            && Filled(s) && s.printed + Pending(s) == c.queued
            && |s.direct| + |s.printed| + |Pending(s)| == LogCalls(actions)
  {
    hide Filled, Pending, Places;
    LogsInOrderAndStrandsNone(size, actions);
    RunAgrees(Begin(size), Calls(false, map[], [], []), actions);
  }

  /** What a step takes out of the pool of empty objects, and what it puts back. */
  function TakenBy(s: State, a: Action): seq<Obj> {
    if a.GetPoolObject? && s.empty != [] then [s.empty[0]] else []
  }

  function ReturnedBy(s: State, a: Action): seq<Obj>
    requires Enabled(s, a)
  {
    if (a.Log? && s.sync) || a.ReturnPoolObject? then [a.obj]
    else if a.PutBack? then [s.thread.obj]
    else []
  }

  function Taken(s: State, actions: seq<Action>): seq<Obj>
    requires Runs(s, actions)
    decreases |actions|
  {
    if actions == [] then [] else TakenBy(s, actions[0]) + Taken(Do(s, actions[0]), actions[1..])
  }

  function Returned(s: State, actions: seq<Action>): seq<Obj>
    requires Runs(s, actions)
    decreases |actions|
  {
    if actions == [] then [] else ReturnedBy(s, actions[0]) + Returned(Do(s, actions[0]), actions[1..])
  }

  /** Over all interleavings the pool of empty objects is first in, first out. */
  lemma {:induction false} PoolIsFifo(s: State, actions: seq<Action>)
    requires Runs(s, actions)
    ensures s.empty + Returned(s, actions) == Taken(s, actions) + End(s, actions).empty
    decreases |actions|
  {
    hide Do, Enabled, TakenBy, ReturnedBy;
    if actions != [] {
      var s' := Do(s, actions[0]);
      StepIsFifo(s, actions[0]);
      PoolIsFifo(s', actions[1..]);
      var a, b, c, d := TakenBy(s, actions[0]), ReturnedBy(s, actions[0]), Taken(s', actions[1..]),
        Returned(s', actions[1..]);
      calc {
        s.empty + (b + d);
        (s.empty + b) + d;
        (a + s'.empty) + d;
        a + (s'.empty + d);
        a + (c + End(s, actions).empty);
        (a + c) + End(s, actions).empty;
      }
    } else {
      assert s.empty + [] == [] + s.empty;
    }
  }

  lemma StepIsFifo(s: State, a: Action)
    requires Enabled(s, a)
    ensures s.empty + ReturnedBy(s, a) == TakenBy(s, a) + Do(s, a).empty
    ensures forall obj <- TakenBy(s, a) :: obj in Do(s, a).held
  {
  }

  /** A thread that has not finished, with nothing to keep it from its work. */
  predicate AtWork(s: State) {
    s.running && !s.thread.NotStarted? && !s.thread.Finished?
  }

  /** The thread's next step; a wait goes on unless it was notified. */
  function ThreadStep(s: State): State
    requires AtWork(s) && Filled(s)
  {
    match s.thread
    case Checking => Do(s, Check)
    case Testing => Do(s, Test)
    case Waiting(notified) => if notified then Do(s, Wake(false)) else s
    case Draining => Do(s, Drain)
    case Printing(obj) => Do(s, Print)
    case Printed(obj) => Do(s, PutBack)
  }

  lemma ThreadStepHolds(s: State, size: nat)
    requires Invariant(s, size) && AtWork(s)
    ensures var t := ThreadStep(s); Invariant(t, size) && AtWork(t) && t.logged == s.logged
  {
    hide Conserved, InOrder, NotStranded, Filled;
    match s.thread
    case Checking => StepHolds(s, Check, size);
    case Testing => StepHolds(s, Test, size);
    case Waiting(notified) => if notified { StepHolds(s, Wake(false), size); }
    case Draining => StepHolds(s, Drain, size);
    case Printing(obj) => PrintEnabled(s); StepHolds(s, Print, size);
    case Printed(obj) => StepHolds(s, PutBack, size);
  }

  lemma PrintEnabled(s: State)
    requires InOrder(s) && s.thread.Printing?
    ensures Enabled(s, Print)
  {
  }

  /** The state after k steps of the thread, with no logger doing anything. */
  ghost function Alone(s: State, k: nat, size: nat): State
    requires Invariant(s, size) && AtWork(s)
    decreases k
  {
    if k == 0 then s else ThreadStepHolds(s, size); Alone(ThreadStep(s), k - 1, size)
  }

  /** An upper bound for the thread's steps until nothing is pending. */
  function Rank(s: State): nat {
    3 * |s.full| + match s.thread
                   case Waiting(_) => 3
                   case Checking => 2
                   case Testing => 1
                   case Printing(_) => 2
                   case Printed(_) => 1
                   case _ => 0
  }

  lemma ThreadStepAdvances(s: State)
    requires InOrder(s) && NotStranded(s) && AtWork(s) && Pending(s) != []
    ensures Rank(ThreadStep(s)) < Rank(s)
  {
  }

  /** Left alone in any reachable state, the thread prints every message logged, without waiting for
      a timeout, within Rank(s) steps. */
  lemma {:induction false} PrintsEverything(s: State, size: nat)
    requires Invariant(s, size) && AtWork(s)
    ensures exists k: nat :: k <= Rank(s) && Alone(s, k, size).printed == s.logged
    decreases Rank(s)
  {
    hide Invariant, AtWork, Rank, Pending, ThreadStep;
    Parts(s, size);
    if Pending(s) == [] {
      assert Alone(s, 0, size) == s;
    } else {
      ThreadStepHolds(s, size);
      ThreadStepAdvances(s);
      var t := ThreadStep(s);
      PrintsEverything(t, size);
      var k: nat :| k <= Rank(t) && Alone(t, k, size).printed == t.logged;
      assert Alone(s, k + 1, size) == Alone(t, k, size);
    }
  }

  lemma Parts(s: State, size: nat)
    requires Invariant(s, size)
    ensures InOrder(s) && NotStranded(s) && s.logged == s.printed + Pending(s)
  {
  }

  /** The steps until the thread, left alone, is back in its wait. */
  function UntilRest(s: State): nat {
    var drained := 3 * |s.full| + if s.flag then 6 else 3;
    match s.thread
    case Waiting(notified) => if notified then 3 * |s.full| + 4 else 0
    case Checking => if s.flag then 3 * |s.full| + 5 else 2
    case Testing => if s.flag then 3 * |s.full| + 4 else 1
    case Draining => drained
    case Printing(_) => drained + 2
    case Printed(_) => drained + 1
    case _ => 0
  }

  /** Left alone the thread comes to rest: it waits with its flag down, nothing queued and everything that
      was logged printed; it does not go round for nothing. */
  lemma {:induction false} ComesToRest(s: State, size: nat)
    requires Invariant(s, size) && AtWork(s)
    ensures var t := Alone(s, UntilRest(s), size);
            t.thread == Waiting(false) && !t.flag && t.full == [] && t.printed == s.logged
    decreases UntilRest(s)
  {
    hide Conserved, Texts, ThreadStep, UntilRest;
    if UntilRest(s) > 0 {
      ThreadStepHolds(s, size);
      RestIsNearer(s);
      ComesToRest(ThreadStep(s), size);
    } else {
      IsAtRest(s);
    }
  }

  lemma RestIsNearer(s: State)
    requires InOrder(s) && NotStranded(s) && AtWork(s) && UntilRest(s) > 0
    ensures UntilRest(s) == UntilRest(ThreadStep(s)) + 1
  {
    hide InOrder, Texts;
  }

  lemma IsAtRest(s: State)
    requires InOrder(s) && NotStranded(s) && AtWork(s) && UntilRest(s) == 0
    ensures s.thread == Waiting(false) && !s.flag && s.full == [] && s.printed == s.logged
  {
  }

  /** The thread's next step once it has been told to stop; a wait ends by its time-out if not otherwise. */
  function LastStep(s: State): State
    requires Filled(s)
  {
    match s.thread
    case NotStarted => s
    case Checking => Do(s, Check)
    case Testing => Do(s, Test)
    case Waiting(notified) => Do(s, Wake(!notified))
    case Draining => Do(s, Drain)
    case Printing(obj) => Do(s, Print)
    case Printed(obj) => Do(s, PutBack)
    case Finished => s
  }

  lemma LastStepHolds(s: State, size: nat)
    requires Invariant(s, size) && !s.running && !s.thread.NotStarted?
    ensures var t := LastStep(s);
            Invariant(t, size) && !t.running && !t.thread.NotStarted? && t.logged == s.logged
  {
    hide Conserved, InOrder, NotStranded, Filled;
    match s.thread
    case Checking => StepHolds(s, Check, size);
    case Testing => StepHolds(s, Test, size);
    case Waiting(notified) => StepHolds(s, Wake(!notified), size);
    case Draining => StepHolds(s, Drain, size);
    case Printing(obj) => PrintEnabled(s); StepHolds(s, Print, size);
    case Printed(obj) => StepHolds(s, PutBack, size);
    case _ =>
  }

  /** The state after k such steps. */
  ghost function Closing(s: State, k: nat, size: nat): State
    requires Invariant(s, size) && !s.running && !s.thread.NotStarted?
    decreases k
  {
    if k == 0 then s else LastStepHolds(s, size); Closing(LastStep(s), k - 1, size)
  }

  /** The steps left until it has finished. */
  function Left(s: State): nat {
    match s.thread
    case NotStarted => 0
    case Checking => 1
    case Testing => if s.flag then 3 * |s.full| + 3 else 3
    case Waiting(notified) => if notified then 3 * |s.full| + 3 else 2
    case Draining => 3 * |s.full| + 2
    case Printing(_) => 3 * |s.full| + 4
    case Printed(_) => 3 * |s.full| + 3
    case Finished => 0
  }

  /** Told to stop, the thread finishes within Left(s) steps; what it has in hand then is printed, and what
      is still queued is all that is missing from the output. */
  lemma {:induction false} StoppedThreadFinishes(s: State, size: nat)
    requires Invariant(s, size) && !s.running && !s.thread.NotStarted?
    ensures var t := Closing(s, Left(s), size);
            t.thread == Finished && Filled(t) && t.printed + Texts(t.full, t.text) == s.logged
    decreases Left(s)
  {
    hide Conserved, NotStranded, Texts, LastStep, Left;
    NoneLeft(s);
    if s.thread != Finished {
      LastStepHolds(s, size);
      OneStepLess(s);
      StoppedThreadFinishes(LastStep(s), size);
    } else {
      assert [] + Texts(s.full, s.text) == Texts(s.full, s.text);
    }
  }

  /** The thread stands between the two tests and its flag is down: it goes into the wait from there. */
  predicate Unwakeable(s: State) {
    s.thread.Testing? && !s.flag
  }

  lemma OneStepLess(s: State)
    requires InOrder(s) && !s.running && !s.thread.NotStarted? && !s.thread.Finished?
    ensures Left(s) == Left(LastStep(s)) + 1
  {
    hide InOrder, Texts;
  }

  lemma NoneLeft(s: State)
    requires !s.thread.NotStarted?
    ensures Left(s) == 0 <==> s.thread.Finished?
  {
  }

  ghost function Stopped(s: State, size: nat): (t: State)
    requires Invariant(s, size)
    ensures Invariant(t, size) && !t.running && (t.thread.NotStarted? <==> s.thread.NotStarted?)
  {
    StepHolds(s, Stop, size);
    Do(s, Stop)
  }

  /** On its way to the end the thread comes to a wait that only the time-out ends. */
  ghost predicate WaitsForTimeout(s: State, size: nat)
    requires Invariant(s, size) && !s.running && !s.thread.NotStarted?
  {
    exists k: nat :: Closing(s, k, size).thread == Waiting(false)
  }

  /** Stop is to let the thread finish without a time-out. In any state of a started thread it does exactly
      if the thread is not between its two tests with its flag down: from there it goes into the wait after
      it was notified, and only the time-out ends that wait. */
  lemma StopNeedsNoTimeoutIff(s: State, size: nat)
    requires Invariant(s, size) && !s.thread.NotStarted?
    ensures WaitsForTimeout(Stopped(s, size), size) <==> Unwakeable(s)
  {
    hide Conserved, NotStranded;
    var s' := Stopped(s, size);
    if Unwakeable(s) {
      LastStepHolds(s', size);
      var k: nat := 1;
      assert Closing(s', k, size) == Closing(LastStep(s'), 0, size) == Do(s', Test);
      assert Closing(s', k, size).thread == Waiting(false);
    } else {
      forall k: nat ensures Closing(s', k, size).thread != Waiting(false) {
        StaysAwake(s', k, size);
      }
    }
  }

  lemma {:induction false} StaysAwake(s: State, k: nat, size: nat)
    requires Invariant(s, size) && !s.running && !s.thread.NotStarted?
    requires s.thread != Waiting(false) && !Unwakeable(s)
    ensures Closing(s, k, size).thread != Waiting(false)
    decreases k
  {
    hide Conserved, NotStranded;
    if k > 0 {
      LastStepHolds(s, size);
      StaysAwake(LastStep(s), k - 1, size);
    }
  }

  /** Over all interleavings from a new pool: a thread that was started, and not stopped since, is at work,
      so that, left alone, it comes to rest with everything printed. */
  lemma StartedThreadPrints(size: nat, actions: seq<Action>, i: nat)
    requires Runs(Begin(size), actions) && i < |actions| && actions[i] == Start && Stop !in actions[i..]
    ensures var s := End(Begin(size), actions);
            && Invariant(s, size) && AtWork(s)
            && var t := Alone(s, UntilRest(s), size); t.full == [] && t.printed == s.logged
  {
    hide *;
    BeginHolds(size);
    RunHolds(Begin(size), actions, size);
    IsAtWork(Begin(size), actions, i);
    ComesToRest(End(Begin(size), actions), size);
  }

  lemma {:induction false} IsAtWork(s: State, actions: seq<Action>, i: nat)
    requires Runs(s, actions) && i < |actions| && actions[i] == Start && Stop !in actions[i..]
    ensures AtWork(End(s, actions))
    decreases |actions|
  {
    if i == 0 {
      StaysAtWork(Do(s, Start), actions[1..]);
    } else {
      assert actions[1..][i - 1..] == actions[i..];
      IsAtWork(Do(s, actions[0]), actions[1..], i - 1);
    }
  }

  lemma {:induction false} StaysAtWork(s: State, actions: seq<Action>)
    requires Runs(s, actions) && AtWork(s) && Stop !in actions
    ensures AtWork(End(s, actions))
    decreases |actions|
  {
    if actions != [] {
      StaysAtWork(Do(s, actions[0]), actions[1..]);
    }
  }
}
