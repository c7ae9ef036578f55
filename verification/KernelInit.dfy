/** Requests for init only ever lower modules, on any graph, whatever hooks throw. */
module KernelInit {
  import opened ModuleStates
  import opened Ladder
  import opened LadderProofs
  import opened KernelModel
  import opened KernelGraph

  /** No module stands higher in v' than in v. */
  ghost predicate NoHigher(v: States, v': States) {
    v'.Keys == v.Keys && forall x :: x in v ==> Code(v'[x]) <= Code(v[x])
  }

  /** Every step between the worlds lowers the module it moves and nothing ends above its start. */
  ghost predicate Lowers(w: World, w': World) {
    && w.steps <= w'.steps
    && NoHigher(w.states, w'.states)
    && forall i :: |w.steps| <= i < |w'.steps| ==> LoweringStep(w.states, w'.steps[i])
  }

  ghost predicate LoweringStep(from: States, s: Step) {
    s.mod in s.before && Code(s.to) < Code(s.before[s.mod]) && NoHigher(from, s.After())
  }

  lemma LowersOn(a: World, b: World, c: World)
    requires Lowers(a, b) && Lowers(b, c)
    ensures Lowers(a, c)
  {
    forall i | |a.steps| <= i < |c.steps| ensures LoweringStep(a.states, c.steps[i]) {
      if i < |b.steps| {
        assert c.steps[i] == b.steps[i];
      }
    }
  }

  /** Each assignment lowers the state. */
  ghost predicate Falls(s: State, visited: seq<State>) {
    forall i :: 0 <= i < |visited| ==> Code(visited[i]) < Code(Before(s, visited, i))
  }

  lemma {:induction false} FallsBelow(s: State, visited: seq<State>, i: nat)
    requires Falls(s, visited) && i <= |visited|
    ensures Code(Before(s, visited, i)) <= Code(s)
  {
    if i > 0 {
      FallsBelow(s, visited, i - 1);
    }
  }

  lemma DriveToInitFalls(s: State, throws: Hooks, calls: nat)
    ensures Falls(s, ModuleDrive(s, Init, throws, calls).visited)
  {
    if s in {Preop, Safeop, Op} {
      hide WalkTo;
      DriveVisits(s, Init, throws, calls);
      var visited := ModuleDrive(s, Init, throws, calls).visited;
      forall i | 0 <= i < |visited| ensures Code(visited[i]) < Code(Before(s, visited, i)) {
        assert visited[i] == AtRung(Rung(s) - 1 - i);
      }
    }
  }

  lemma FallingMoveLowers(w: World, w': World, m: Name, visited: seq<State>)
    requires m in w.states && Moved(w, w', m, visited) && Falls(w.states[m], visited)
    ensures Lowers(w, w')
  {
    forall i | |w.steps| <= i < |w'.steps| ensures LoweringStep(w.states, w'.steps[i]) {
      var k := i - |w.steps|;
      FallsBelow(w.states[m], visited, k);
      var s := TrailStep(w.states, m, visited, k);
      assert s.After() == w.states[m := visited[k]];
      assert LoweringStep(w.states, s) && w'.steps[i] == s;
    }
    FallsBelow(w.states[m], visited, |visited|);
  }

  lemma MoveToInitLowers(throws: Faults, w: World, m: Name)
    requires m in w.states && m in w.calls
    ensures var r := Move(throws, w, m, Init);
            Lowers(w, r.w) && (r.Return? ==> r.w.states[m] == Init) && (NeverFails(throws) ==> r.Return?)
  {
    DriveToInitFalls(w.states[m], throws(m), w.calls[m]);
    DriveEnds(w.states[m], Init, throws(m), w.calls[m]);
    if w.states[m] != Error {
      DriveWalks(w.states[m], Init, throws(m), w.calls[m]);
    }
    MoveEffect(throws, w, m, Init);
    FallingMoveLowers(w, Move(throws, w, m, Init).w, m, ModuleDrive(w.states[m], Init, throws(m), w.calls[m]).visited);
  }

  /** A request for init lowers modules step by step, on any graph, and ends in init unless a hook
      throws or a dependency is not registered. */
  lemma {:induction false} SetStateInitLowers(g: Graph, throws: Faults, w: World, m: Name, caller: seq<Name>)
    requires Fits(g, w)
    ensures var r := SetState(g, throws, w, m, Init, caller);
            && Lowers(w, r.w)
            && (r.Return? ==> m in g.depends && r.w.states[m] == Init)
            && (Registered(g) && NeverFails(throws) && m in g.depends ==> r.Return?)
    decreases |Uncalled(g, caller)|, m in caller, 3, 0
  {
    hide RaiseDepends, DropDependents, DropExcludes, Finish, Lowers, Registered, NeverFails;
    LowersNothing(w);
    if m in g.depends && w.states[m] != Init {
      FinishInitLowers(g, throws, w, m, caller);
    }
  }

  lemma LowersNothing(w: World)
    ensures Lowers(w, w)
  {
  }

  lemma {:induction false} FinishInitLowers(g: Graph, throws: Faults, w: World, m: Name, caller: seq<Name>)
    requires Fits(g, w) && m in g.depends
    ensures var r := Finish(g, throws, w, m, Init, caller);
            && Lowers(w, r.w)
            && (r.Return? ==> r.w.states[m] == Init)
            && (Registered(g) && NeverFails(throws) ==> r.Return?)
    decreases |Uncalled(g, caller)|, m in caller, 2, 0
  {
    hide RaiseDepends, DropDependents, SetState, Lowers, Uncalled, Registered, NeverFails, Move;
    RaiseDependsInitLowers(g, throws, w, m, caller, 0);
    var r1 := RaiseDepends(g, throws, w, m, Init, caller, 0);
    if r1.Next? {
      GrownMeasure(g, caller, r1.caller, m);
      DropDependentsLowers(g, throws, r1.w, m, Init, r1.caller, 0);
      var r2 := DropDependents(g, throws, r1.w, m, Init, r1.caller, 0);
      LowersOn(w, r1.w, r2.w);
      if r2.Next? {
        MoveToInitLowers(throws, r2.w, m);
        LowersOn(w, r2.w, Move(throws, r2.w, m, Init).w);
      }
    }
  }

  lemma {:induction false} RaiseDependsInitLowers(g: Graph, throws: Faults, w: World, m: Name, caller: seq<Name>,
          i: nat)
    requires Fits(g, w) && m in g.depends && i <= |g.depends[m]|
    ensures var r := RaiseDepends(g, throws, w, m, Init, caller, i);
            Lowers(w, r.w) && !r.Return? && (Registered(g) && NeverFails(throws) ==> r.Next?)
    decreases |Uncalled(g, caller)|, m in caller, 1, |g.depends[m]| - i
  {
    hide SetState, RaiseDepends, Lowers, Uncalled, NeverFails;
    LowersNothing(w);
    if i == |g.depends[m]| {
      RaiseEnds(g, throws, w, m, Init, caller);
    } else {
      RaiseTurn(g, throws, w, m, Init, caller, i);
      var d := g.depends[m][i];
      assert DependsOn(g, m, d);
      if d !in caller && d in g.depends && MustRaise(w.states, d, Init) {
        var caller' := caller + [m];
        GrownMeasure(g, caller, caller', m);
        SetStateInitLowers(g, throws, w, d, caller');
        var r := SetState(g, throws, w, d, Init, caller');
        if !r.Throw? {
          RaiseDependsInitLowers(g, throws, r.w, m, caller', i + 1);
          LowersOn(w, r.w, RaiseDepends(g, throws, r.w, m, Init, caller', i + 1).w);
        }
      } else if d in caller || d in g.depends {
        RaiseDependsInitLowers(g, throws, w, m, caller, i + 1);
      }
    }
  }

  lemma {:induction false} DropDependentsLowers(g: Graph, throws: Faults, w: World, m: Name, t: State,
          caller: seq<Name>, i: nat)
    requires Fits(g, w) && m in g.depends && i <= |g.order|
    ensures var r := DropDependents(g, throws, w, m, t, caller, i);
            Lowers(w, r.w) && !r.Return? && (Registered(g) && NeverFails(throws) ==> r.Next?)
    decreases |Uncalled(g, caller)|, m in caller, 1, |g.order| - i
  {
    hide SetState, DropDependents, Lowers, Uncalled, Registered, NeverFails;
    LowersNothing(w);
    if i == |g.order| {
      DropEnds(g, throws, w, m, t, caller);
    } else {
      DropTurn(g, throws, w, m, t, caller, i);
      var x := g.order[i];
      if x in g.depends && MustDrop(g, w.states, m, t, caller, x) {
        var caller' := caller + [m];
        GrownMeasure(g, caller, caller', m);
        SetStateInitLowers(g, throws, w, x, caller');
        var r := SetState(g, throws, w, x, Init, caller');
        if !r.Throw? {
          DropDependentsLowers(g, throws, r.w, m, t, caller', i + 1);
          LowersOn(w, r.w, DropDependents(g, throws, r.w, m, t, caller', i + 1).w);
        }
      } else {
        DropDependentsLowers(g, throws, w, m, t, caller, i + 1);
      }
    }
  }

  /** kernel::power_down from the i-th module of the map on; exceptions are caught and logged. */
  ghost function PowerDown(g: Graph, throws: Faults, w: World, i: nat): (w': World)
    requires Fits(g, w) && i <= |g.order|
    ensures Fits(g, w')
    decreases |g.order| - i
  {
    if i == |g.order| then w
    else PowerDown(g, throws, SetState(g, throws, w, g.order[i], Init, []).w, i + 1)
  }

  lemma {:induction false} PowerDownLowers(g: Graph, throws: Faults, w: World, i: nat)
    requires Fits(g, w) && Mapped(g) && i <= |g.order|
    requires Registered(g) && NeverFails(throws) ==> Down(g, w.states, i)
    ensures var w' := PowerDown(g, throws, w, i);
            && Lowers(w, w')
            && (Registered(g) && NeverFails(throws) ==> forall x :: x in w'.states ==> w'.states[x] == Init)
    decreases |g.order| - i
  {
    hide SetState, Registered, NeverFails, Mapped, Lowers;
    LowersNothing(w);
    if i == |g.order| {
      AllInit(g, throws, w);
    } else {
      InMap(g, i);
      SetStateInitLowers(g, throws, w, g.order[i], []);
      var w1 := SetState(g, throws, w, g.order[i], Init, []).w;
      if Registered(g) && NeverFails(throws) {
        DownOn(g, w, w1, i);
      }
      PowerDownLowers(g, throws, w1, i + 1);
      LowersOn(w, w1, PowerDown(g, throws, w1, i + 1));
    }
  }

  /** The first i modules of the map are in init. */
  ghost predicate Down(g: Graph, v: States, i: nat)
    requires i <= |g.order|
  {
    forall j :: 0 <= j < i ==> g.order[j] in v && v[g.order[j]] == Init
  }

  lemma DownOn(g: Graph, w: World, w1: World, i: nat)
    requires i < |g.order| && Down(g, w.states, i) && Lowers(w, w1)
    requires g.order[i] in w1.states && w1.states[g.order[i]] == Init
    ensures Down(g, w1.states, i + 1)
  {
  }

  lemma AllInit(g: Graph, throws: Faults, w: World)
    requires Fits(g, w) && Mapped(g)
    requires Registered(g) && NeverFails(throws) ==> Down(g, w.states, |g.order|)
    ensures Registered(g) && NeverFails(throws) ==> forall x :: x in w.states ==> w.states[x] == Init
  {
    if Registered(g) && NeverFails(throws) {
      forall x | x in w.states ensures w.states[x] == Init {
        assert x in g.order;
      }
    }
  }

  /** power_down, on any graph, cyclic ones included: it only ever lowers modules, and if no hook
      throws and every dependency is registered it leaves every module in init. */
  lemma PowerDownReachesInit(g: Graph, throws: Faults, w: World)
    requires Fits(g, w) && Mapped(g)
    ensures var w' := PowerDown(g, throws, w, 0);
            && Lowers(w, w')
            && (Registered(g) && NeverFails(throws) ==> forall x :: x in w'.states ==> w'.states[x] == Init)
  {
    PowerDownLowers(g, throws, w, 0);
  }

  /** The world when the i-th module is asked for init: everybody before it has been asked, thrown or not. */
  ghost function DownTo(g: Graph, throws: Faults, w: World, i: nat): (w': World)
    requires Fits(g, w) && i <= |g.order|
    ensures Fits(g, w')
  {
    if i == 0 then w else SetState(g, throws, DownTo(g, throws, w, i - 1), g.order[i - 1], Init, []).w
  }

  lemma {:induction false} PowerDownFrom(g: Graph, throws: Faults, w: World, i: nat)
    requires Fits(g, w) && i <= |g.order|
    ensures PowerDown(g, throws, DownTo(g, throws, w, i), i) == DownTo(g, throws, w, |g.order|)
    decreases |g.order| - i
  {
    hide SetState;
    if i < |g.order| {
      PowerDownFrom(g, throws, w, i + 1);
    }
  }

  lemma {:induction false} LowersBetween(g: Graph, throws: Faults, w: World, i: nat, j: nat)
    requires Fits(g, w) && i <= j <= |g.order|
    ensures Lowers(DownTo(g, throws, w, i), DownTo(g, throws, w, j))
    decreases j - i
  {
    hide SetState, Lowers;
    var to := DownTo(g, throws, w, j);
    LowersNothing(to);
    if i < j {
      LowersBetween(g, throws, w, i, j - 1);
      var last := DownTo(g, throws, w, j - 1);
      SetStateInitLowers(g, throws, last, g.order[j - 1], []);
      LowersOn(DownTo(g, throws, w, i), last, to);
    }
  }

  /** power_down asks every module, whatever was thrown before: whoever's own request does not throw ends in
      init. */
  lemma PowerDownAsksAll(g: Graph, throws: Faults, w: World, i: nat)
    requires Fits(g, w) && i < |g.order|
    ensures var (w', m) := (PowerDown(g, throws, w, 0), g.order[i]);
            !SetState(g, throws, DownTo(g, throws, w, i), m, Init, []).Throw? ==>
              m in w'.states && w'.states[m] == Init
  {
    hide SetState, PowerDown, DownTo, Lowers, Registered, NeverFails;
    DownBy(g, throws, w, i);
    PowerDownFrom(g, throws, w, 0);
    SetStateInitLowers(g, throws, DownTo(g, throws, w, i), g.order[i], []);
    LowersBetween(g, throws, w, i + 1, |g.order|);
    var r := SetState(g, throws, DownTo(g, throws, w, i), g.order[i], Init, []);
    if !r.Throw? {
      StaysInInit(r.w, DownTo(g, throws, w, |g.order|), g.order[i]);
    }
  }

  lemma DownBy(g: Graph, throws: Faults, w: World, i: nat)
    requires Fits(g, w) && i < |g.order|
    ensures DownTo(g, throws, w, 0) == w
    ensures DownTo(g, throws, w, i + 1) == SetState(g, throws, DownTo(g, throws, w, i), g.order[i], Init, []).w
  {
    hide SetState;
  }

  lemma StaysInInit(w: World, w': World, m: Name)
    requires Lowers(w, w') && m in w.states && w.states[m] == Init
    ensures m in w'.states && w'.states[m] == Init
  {
  }
}
