/** What power_up reports, on any graph, from any states and with any hooks: exactly the modules in error
    when their turn comes and those whose request throws. */
module KernelReport {
  import opened Lists
  import opened ModuleStates
  import opened KernelModel
  import opened KernelResult
  import opened KernelErrors
  import opened KernelPowerUp

  ghost predicate Starts(g: Graph, targets: States, w: World) {
    Fits(g, w) && Mapped(g) && targets.Keys == g.depends.Keys
  }

  /** The module is asked for its target: it is not in error and below the target, or the target is boot. */
  predicate Tried(s: State, target: State) {
    s != Error && (Code(s) < Code(target) || target == Boot)
  }

  ghost predicate Fails(g: Graph, throws: Faults, w: World, m: Name, target: State)
    requires Fits(g, w) && m in g.depends
  {
    w.states[m] == Error || (Tried(w.states[m], target) && SetState(g, throws, w, m, target, []).Throw?)
  }

  /** The world when the i-th module's turn comes. */
  ghost function WorldAt(g: Graph, targets: States, throws: Faults, w: World, i: nat): (w': World)
    requires Starts(g, targets, w) && i <= |g.order|
    ensures Fits(g, w')
  {
    if i == 0 then w
    else
      InMap(g, i - 1);
      var m, w' := g.order[i - 1], WorldAt(g, targets, throws, w, i - 1);
      if Tried(w'.states[m], targets[m]) then SetState(g, throws, w', m, targets[m], []).w else w'
  }

  ghost predicate FailsAt(g: Graph, targets: States, throws: Faults, w: World, i: nat)
    requires Starts(g, targets, w) && i < |g.order|
  {
    InMap(g, i);
    Fails(g, throws, WorldAt(g, targets, throws, w, i), g.order[i], targets[g.order[i]])
  }

  /** The modules that fail from the i-th turn on, in the order of the map. */
  ghost function FailingFrom(g: Graph, targets: States, throws: Faults, w: World, i: nat): seq<Name>
    requires Starts(g, targets, w) && i <= |g.order|
    decreases |g.order| - i
  {
    if i == |g.order| then []
    else (if FailsAt(g, targets, throws, w, i) then [g.order[i]] else []) + FailingFrom(g, targets, throws, w, i + 1)
  }

  lemma {:induction false} PowerUpFrom(g: Graph, targets: States, throws: Faults, w: World, i: nat, failed: seq<Name>)
    requires Starts(g, targets, w) && i <= |g.order|
    ensures PowerUp(g, targets, throws, WorldAt(g, targets, throws, w, i), i, failed)
            == PoweredUp(WorldAt(g, targets, throws, w, |g.order|), failed + FailingFrom(g, targets, throws, w, i))
    decreases |g.order| - i
  {
    hide SetState, Mapped, PowerUp, PowerUpModule, WorldAt, FailsAt;
    var now := WorldAt(g, targets, throws, w, i);
    if i == |g.order| {
      PowerUpEnd(g, targets, throws, now, failed);
      assert failed + [] == failed;
    } else {
      PowerUpOneTurn(g, targets, throws, now, i, failed);
      var m := g.order[i];
      var one := PowerUpModule(g, throws, now, m, targets[m]);
      OneTurn(g, targets, throws, w, i);
      PowerUpFrom(g, targets, throws, w, i + 1, failed + one.failed);
      Regroup(failed, one.failed, FailingFrom(g, targets, throws, w, i + 1));
    }
  }

  lemma Regroup(a: seq<Name>, b: seq<Name>, c: seq<Name>)
    ensures (a + b) + c == a + (b + c)
  {
  }

  lemma OneTurn(g: Graph, targets: States, throws: Faults, w: World, i: nat)
    requires Starts(g, targets, w) && i < |g.order|
    ensures g.order[i] in g.depends && g.order[i] in targets
    ensures var one := PowerUpModule(g, throws, WorldAt(g, targets, throws, w, i), g.order[i], targets[g.order[i]]);
            && one.w == WorldAt(g, targets, throws, w, i + 1)
            && one.failed == if FailsAt(g, targets, throws, w, i) then [g.order[i]] else []
  {
    hide SetState;
    InMap(g, i);
  }

  /** Some of the modules from the i-th on, each once. */
  ghost predicate SomeFrom(order: seq<Name>, i: nat, some: seq<Name>) {
    Distinct(some) && forall x <- some :: exists j :: i <= j < |order| && order[j] == x
  }

  lemma OneMore(order: seq<Name>, i: nat, rest: seq<Name>)
    requires Distinct(order) && i < |order| && SomeFrom(order, i + 1, rest)
    ensures SomeFrom(order, i, rest) && order[i] !in rest && SomeFrom(order, i, [order[i]] + rest)
  {
    forall x <- rest ensures x != order[i] && exists j :: i <= j < |order| && order[j] == x {
      var j :| i + 1 <= j < |order| && order[j] == x;
    }
    forall x <- [order[i]] + rest ensures exists j :: i <= j < |order| && order[j] == x {
      assert x == order[i] || x in rest;
    }
  }

  lemma {:induction false} FailingAre(g: Graph, targets: States, throws: Faults, w: World, i: nat)
    requires Starts(g, targets, w) && i <= |g.order|
    ensures var failing := FailingFrom(g, targets, throws, w, i);
            && SomeFrom(g.order, i, failing)
            && forall j :: i <= j < |g.order| ==> (g.order[j] in failing <==> FailsAt(g, targets, throws, w, j))
    decreases |g.order| - i
  {
    hide FailsAt, SomeFrom, WorldAt;
    if i < |g.order| {
      FailingAre(g, targets, throws, w, i + 1);
      var rest := FailingFrom(g, targets, throws, w, i + 1);
      OneMore(g.order, i, rest);
      assert [] + rest == rest;
    } else {
      assert SomeFrom(g.order, i, []) by { NoneFrom(g.order, i); }
    }
  }

  lemma NoneFrom(order: seq<Name>, i: nat)
    ensures SomeFrom(order, i, [])
  {
  }

  lemma {:induction false} ErrorsBefore(g: Graph, targets: States, throws: Faults, w: World, i: nat, j: nat)
    requires Starts(g, targets, w) && i <= j <= |g.order|
    ensures NoNewErrors(WorldAt(g, targets, throws, w, i).states, WorldAt(g, targets, throws, w, j).states)
    decreases j - i
  {
    hide SetState;
    var now := WorldAt(g, targets, throws, w, j);
    NoNewErrorsSame(now.states);
    if i < j {
      ErrorsBefore(g, targets, throws, w, i, j - 1);
      InMap(g, j - 1);
      var m, last := g.order[j - 1], WorldAt(g, targets, throws, w, j - 1);
      SetStateNoNewErrors(g, throws, last, m, targets[m], []);
      NoNewErrorsOn(WorldAt(g, targets, throws, w, i).states, last.states, now.states);
    }
  }

  /** A module that is not reported has met its target at its turn, or a dependency in error was in its way. */
  ghost predicate MetOrBlocked(g: Graph, v: States, v': States, m: Name, target: State) {
    m in v' && v'[m] != Error && (v'[m] == target || Code(target) <= Code(v'[m]) || Blocked(g, v, m))
  }

  lemma UnreportedMet(g: Graph, targets: States, throws: Faults, w: World, i: nat)
    requires Starts(g, targets, w) && i < |g.order| && !FailsAt(g, targets, throws, w, i)
    ensures g.order[i] in targets
    ensures MetOrBlocked(g, WorldAt(g, targets, throws, w, i).states, WorldAt(g, targets, throws, w, i + 1).states,
              g.order[i], targets[g.order[i]])
  {
    hide SetState, Blocked;
    InMap(g, i);
    var m, now := g.order[i], WorldAt(g, targets, throws, w, i);
    ShortMeansBlocked(g, throws, now, m, targets[m], []);
    SetStateNoNewErrors(g, throws, now, m, targets[m], []);
  }

  /** Whatever the graph, the states and the hooks: power_up reports exactly the modules in error at their
      turn and those whose request throws, each once; a module in error is passed over; nobody who ends in
      error goes unreported; and who is not reported met its target at its turn or was blocked. */
  lemma ReportsExactly(g: Graph, targets: States, throws: Faults, w: World)
    requires Starts(g, targets, w)
    ensures var r := PowerUp(g, targets, throws, w, 0, []);
            && r.w == WorldAt(g, targets, throws, w, |g.order|) && Distinct(r.failed)
            && (forall x <- r.failed :: x in g.order)
            && (forall i :: 0 <= i < |g.order| ==> (g.order[i] in r.failed <==> FailsAt(g, targets, throws, w, i)))
            && (forall x :: x in r.w.states && r.w.states[x] == Error ==> x in r.failed)
  {
    hide Mapped, PowerUp, WorldAt, FailsAt, FailingFrom, NoNewErrors;
    var r, n := PowerUp(g, targets, throws, w, 0, []), |g.order|;
    assert WorldAt(g, targets, throws, w, 0) == w by { StartsAt(g, targets, throws, w); }
    PowerUpFrom(g, targets, throws, w, 0, []);
    FailingAre(g, targets, throws, w, 0);
    assert [] + FailingFrom(g, targets, throws, w, 0) == FailingFrom(g, targets, throws, w, 0);
    forall x | x in r.w.states && r.w.states[x] == Error ensures x in r.failed {
      var i := IndexOf(g, x);
      ErrorsBefore(g, targets, throws, w, i, n);
      EndsInError(g, targets, throws, w, i);
    }
  }

  lemma StartsAt(g: Graph, targets: States, throws: Faults, w: World)
    requires Starts(g, targets, w)
    ensures WorldAt(g, targets, throws, w, 0) == w
  {
  }

  lemma IndexOf(g: Graph, x: Name) returns (i: nat)
    requires Mapped(g) && x in g.depends
    ensures i < |g.order| && g.order[i] == x
  {
    i :| 0 <= i < |g.order| && g.order[i] == x;
  }

  lemma EndsInError(g: Graph, targets: States, throws: Faults, w: World, i: nat)
    requires Starts(g, targets, w) && i < |g.order|
    requires var v := WorldAt(g, targets, throws, w, |g.order|).states;
             NoNewErrors(WorldAt(g, targets, throws, w, i).states, v) && g.order[i] in v && v[g.order[i]] == Error
    ensures FailsAt(g, targets, throws, w, i)
  {
    hide SetState, WorldAt;
    InMap(g, i);
  }

  /** A module's own turn: in error it is reported and nothing moves; otherwise it goes unreported exactly if
      its request does not throw, and has then met its target or was blocked. */
  lemma TurnIs(g: Graph, targets: States, throws: Faults, w: World, i: nat)
    requires Starts(g, targets, w) && i < |g.order|
    ensures var (m, r) := (g.order[i], PowerUp(g, targets, throws, w, 0, []));
            var (now, next) := (WorldAt(g, targets, throws, w, i), WorldAt(g, targets, throws, w, i + 1));
            && m in now.states && m in targets
            && (now.states[m] == Error ==> m in r.failed && next == now)
            && (m !in r.failed ==> MetOrBlocked(g, now.states, next.states, m, targets[m]))
  {
    hide PowerUp, SetState, Blocked;
    ReportsExactly(g, targets, throws, w);
    InMap(g, i);
    if !FailsAt(g, targets, throws, w, i) {
      UnreportedMet(g, targets, throws, w, i);
    }
  }
}
