/** kernel::set_state as a function on values: the recursion over dependencies, dependents and
    excludes, with the by-value list of callers that guards it. The class in Kernel.dfy runs the
    loops; every theorem about orchestration is a theorem about these functions. */
module KernelModel {
  import opened Lists
  import opened ModuleStates
  import opened Ladder

  type Name = string
  type States = map<Name, State>

  /** The registered modules in map order, with what each depends on and excludes. */
  datatype Graph = Graph(order: seq<Name>, depends: map<Name, seq<Name>>, excludes: map<Name, seq<Name>>)

  /** The order lists every registered module exactly once. */
  ghost predicate Mapped(g: Graph) {
    && Distinct(g.order)
    && (forall i :: 0 <= i < |g.order| ==> g.order[i] in g.depends)
    && forall n :: n in g.depends ==> n in g.order
  }

  lemma InMap(g: Graph, i: nat)
    requires Mapped(g) && i < |g.order|
    ensures g.order[i] in g.depends
  {
  }

  /** One state change of one module: the state vector it starts from and the module's new state. */
  datatype Step = Step(mod: Name, before: States, to: State) {
    function After(): States {
      before[mod := to]
    }
  }

  /** For each module, which of its hook calls throw. */
  type Faults = Name -> Hooks

  ghost predicate NeverFails(throws: Faults) {
    forall m :: NeverThrows(throws(m))
  }

  /** The modules' states, the hook calls each has made so far, and every state change so far. */
  datatype World = World(states: States, calls: map<Name, nat>, steps: seq<Step>)

  /** How a piece of set_state ends: go on (with the list of callers), return, or throw. */
  datatype Flow = Next(w: World, caller: seq<Name>) | Return(w: World) | Throw(w: World)

  predicate Fits(g: Graph, w: World) {
    w.states.Keys == g.depends.Keys && w.calls.Keys == g.depends.Keys && g.excludes.Keys == g.depends.Keys
  }

  /** The state changes of module m when it is assigned the given states one after another. */
  function Trail(v: States, m: Name, visited: seq<State>): (steps: seq<Step>)
    requires m in v
    ensures |steps| == |visited|
    ensures forall i :: 0 <= i < |visited| ==> steps[i] == TrailStep(v, m, visited, i)
  {
    seq(|visited|, i requires 0 <= i < |visited| => TrailStep(v, m, visited, i))
  }

  function TrailStep(v: States, m: Name, visited: seq<State>, i: nat): Step
    requires m in v && i < |visited|
  {
    Step(m, v[m := Before(v[m], visited, i)], visited[i])
  }

  lemma TrailEffect(v: States, m: Name, visited: seq<State>, i: nat)
    requires m in v && i < |visited|
    ensures var s := TrailStep(v, m, visited, i);
            s.mod == m && m in s.before && s.before[m] == Before(v[m], visited, i) && s.to == visited[i]
            && s.After() == v[m := visited[i]]
  {
    assert TrailStep(v, m, visited, i).After() == v[m := visited[i]];
  }

  /** mdl->set_state(state), and the throw that follows when it answers -1. */
  function Move(throws: Faults, w: World, m: Name, t: State): (r: Flow)
    requires m in w.states && m in w.calls
    ensures !r.Next? && r.w.states.Keys == w.states.Keys && r.w.calls.Keys == w.calls.Keys
  {
    var d := ModuleDrive(w.states[m], t, throws(m), w.calls[m]);
    var w' := World(w.states[m := Last(w.states[m], d.visited)], w.calls[m := d.calls],
                    w.steps + Trail(w.states, m, d.visited));
    if d.ok then Return(w') else Throw(w')
  }

  /** From w to w' module m was assigned the given states one after another; nothing else changed. */
  ghost predicate Moved(w: World, w': World, m: Name, visited: seq<State>)
    requires m in w.states
  {
    && |w'.steps| == |w.steps| + |visited|
    && w.steps <= w'.steps
    && w'.states == w.states[m := Before(w.states[m], visited, |visited|)]
    && forall i :: |w.steps| <= i < |w'.steps| ==>
                     w'.steps[i] == TrailStep(w.states, m, visited, i - |w.steps|)
  }

  lemma MoveEffect(throws: Faults, w: World, m: Name, t: State)
    requires m in w.states && m in w.calls
    ensures Moved(w, Move(throws, w, m, t).w, m, ModuleDrive(w.states[m], t, throws(m), w.calls[m]).visited)
  {
    hide ModuleDrive, TrailStep;
  }

  ghost function Uncalled(g: Graph, caller: seq<Name>): set<Name> {
    g.depends.Keys - (set n <- caller)
  }

  predicate Grown(caller: seq<Name>, caller': seq<Name>, m: Name) {
    (forall n <- caller :: n in caller') && (forall n <- caller' :: n in caller || n == m)
  }

  /** Pushing the current module either leaves the set of callers alone or shrinks what is left. */
  lemma GrownMeasure(g: Graph, caller: seq<Name>, caller': seq<Name>, m: Name)
    requires m in g.depends && Grown(caller, caller', m)
    ensures m in caller ==> Uncalled(g, caller') == Uncalled(g, caller) && m in caller'
    ensures m !in caller && m in caller' ==> |Uncalled(g, caller')| < |Uncalled(g, caller)|
    ensures m !in caller && m !in caller' ==> Uncalled(g, caller') == Uncalled(g, caller)
  {
    if m !in caller && m in caller' {
      assert Uncalled(g, caller') == Uncalled(g, caller) - {m};
    }
  }

  /** Why calling another module d with the current one pushed is a smaller problem. */
  lemma PushMeasure(g: Graph, caller: seq<Name>, callers: seq<Name>, m: Name, d: Name)
    requires m in g.depends && Grown(caller, callers, m) && (d !in callers || m !in callers)
    ensures Grown(caller, callers + [m], m)
    ensures |Uncalled(g, callers + [m])| < |Uncalled(g, caller)|
            || (Uncalled(g, callers + [m]) == Uncalled(g, caller) && m in caller && d !in callers + [m])
  {
    GrownMeasure(g, caller, callers + [m], m);
  }

  lemma GrownSame(caller: seq<Name>, m: Name)
    ensures Grown(caller, caller, m)
  {
  }

  /** kernel::set_state(mod_name, state, caller). */
  ghost function SetState(g: Graph, throws: Faults, w: World, m: Name, t: State, caller: seq<Name>): (r: Flow)
    requires Fits(g, w)
    ensures !r.Next? && Fits(g, r.w)
    decreases t != Init, |Uncalled(g, caller)|, m in caller, 3, 0
  {
    if m !in g.depends then Throw(w)
    else if w.states[m] == t then Return(w)
    else
      var r0 := if t == Boot then SetState(g, throws, w, m, Init, []) else Return(w);
      if r0.Throw? then r0 else Finish(g, throws, r0.w, m, t, caller)
  }

  /** set_state from its first loop on. */
  ghost function Finish(g: Graph, throws: Faults, w: World, m: Name, t: State, caller: seq<Name>): (r: Flow)
    requires Fits(g, w) && m in g.depends
    ensures !r.Next? && Fits(g, r.w)
    decreases t != Init, |Uncalled(g, caller)|, m in caller, 2, 0
  {
    var r1 := RaiseDepends(g, throws, w, m, t, caller, 0);
    if !r1.Next? then r1
    else
      GrownMeasure(g, caller, r1.caller, m);
      var r2 := DropDependents(g, throws, r1.w, m, t, r1.caller, 0);
      if !r2.Next? then r2
      else
        GrownMeasure(g, r1.caller, r2.caller, m);
        var r3 := if t == Init then r2 else DropExcludes(g, throws, r2.w, m, t, r2.caller, 0);
        if !r3.Next? then r3 else Move(throws, r3.w, m, t)
  }

  /** The loop over mdl->get_depends(), from the i-th on. */
  ghost function RaiseDepends(g: Graph, throws: Faults, w: World, m: Name, t: State, caller: seq<Name>,
          i: nat): (r: Flow)
    requires Fits(g, w) && m in g.depends && i <= |g.depends[m]|
    ensures Fits(g, r.w)
    ensures r.Next? ==> Grown(caller, r.caller, m)
    decreases t != Init, |Uncalled(g, caller)|, m in caller, 1, |g.depends[m]| - i
  {
    if i == |g.depends[m]| then Next(w, caller)
    else
      var d := g.depends[m][i];
      if d in caller then RaiseDepends(g, throws, w, m, t, caller, i + 1)
      else if d !in g.depends then Throw(w)
      else if w.states[d] == Error && t == Init then RaiseDepends(g, throws, w, m, t, caller, i + 1)
      else if w.states[d] == Error then Return(w)
      else if Code(w.states[d]) < Code(t) || w.states[d] == Boot then
        var caller' := caller + [m];
        GrownMeasure(g, caller, caller', m);
        var r := SetState(g, throws, w, d, t, caller');
        if r.Throw? then r else RaiseDepends(g, throws, r.w, m, t, caller', i + 1)
      else RaiseDepends(g, throws, w, m, t, caller, i + 1)
  }

  /** Whether the module x is to be dropped because it depends on m and stands above t. */
  predicate MustDrop(g: Graph, v: States, m: Name, t: State, caller: seq<Name>, x: Name)
    requires x in g.depends && x in v
  {
    x != m && m in g.depends[x] && m !in caller && Code(v[x]) > Code(t)
  }

  /** The loop over the module map that drops dependents, from the i-th module on. */
  ghost function DropDependents(g: Graph, throws: Faults, w: World, m: Name, t: State, caller: seq<Name>,
          i: nat): (r: Flow)
    requires Fits(g, w) && m in g.depends && i <= |g.order|
    ensures Fits(g, r.w)
    ensures r.Next? ==> Grown(caller, r.caller, m)
    decreases t != Init, |Uncalled(g, caller)|, m in caller, 1, |g.order| - i
  {
    if i == |g.order| then Next(w, caller)
    else
      var x := g.order[i];
      if x in g.depends && MustDrop(g, w.states, m, t, caller, x) then
        var caller' := caller + [m];
        GrownMeasure(g, caller, caller', m);
        var r := SetState(g, throws, w, x, Init, caller');
        if r.Throw? then r else DropDependents(g, throws, r.w, m, t, caller', i + 1)
      else DropDependents(g, throws, w, m, t, caller, i + 1)
  }

  /** The loop over mdl->get_excludes(), from the i-th on. */
  ghost function DropExcludes(g: Graph, throws: Faults, w: World, m: Name, t: State, caller: seq<Name>,
          i: nat): (r: Flow)
    requires Fits(g, w) && m in g.depends && i <= |g.excludes[m]| && t != Init
    ensures Fits(g, r.w)
    ensures r.Next? ==> r.caller == caller
    decreases true, |Uncalled(g, caller)|, m in caller, 1, |g.excludes[m]| - i
  {
    if i == |g.excludes[m]| then Next(w, caller)
    else
      var e := g.excludes[m][i];
      if e in caller then DropExcludes(g, throws, w, m, t, caller, i + 1)
      else if e !in g.depends then Throw(w)
      else if w.states[e] == Init then DropExcludes(g, throws, w, m, t, caller, i + 1)
      else
        var r := SetState(g, throws, w, e, Init, caller);
        if r.Throw? then r else DropExcludes(g, throws, r.w, m, t, caller, i + 1)
  }

  // One turn of each loop, for proofs that need no more of its definition.

  predicate MustRaise(v: States, d: Name, t: State)
    requires d in v
  {
    v[d] != Error && (Code(v[d]) < Code(t) || v[d] == Boot)
  }

  lemma RaiseTurn(g: Graph, throws: Faults, w: World, m: Name, t: State, caller: seq<Name>, i: nat)
    requires Fits(g, w) && m in g.depends && i < |g.depends[m]|
    ensures var d, all := g.depends[m][i], RaiseDepends(g, throws, w, m, t, caller, i);
            if d in caller then all == RaiseDepends(g, throws, w, m, t, caller, i + 1)
            else if d !in g.depends then all == Throw(w)
            else if MustRaise(w.states, d, t) then
              var r := SetState(g, throws, w, d, t, caller + [m]);
              all == if r.Throw? then r else RaiseDepends(g, throws, r.w, m, t, caller + [m], i + 1)
            else if w.states[d] == Error && t != Init then all == Return(w)
            else all == RaiseDepends(g, throws, w, m, t, caller, i + 1)
  {
    hide SetState;
  }

  lemma RaiseEnds(g: Graph, throws: Faults, w: World, m: Name, t: State, caller: seq<Name>)
    requires Fits(g, w) && m in g.depends
    ensures RaiseDepends(g, throws, w, m, t, caller, |g.depends[m]|) == Next(w, caller)
  {
  }

  lemma DropEnds(g: Graph, throws: Faults, w: World, m: Name, t: State, caller: seq<Name>)
    requires Fits(g, w) && m in g.depends
    ensures DropDependents(g, throws, w, m, t, caller, |g.order|) == Next(w, caller)
  {
  }

  lemma DropTurn(g: Graph, throws: Faults, w: World, m: Name, t: State, caller: seq<Name>, i: nat)
    requires Fits(g, w) && m in g.depends && i < |g.order|
    ensures var x, all := g.order[i], DropDependents(g, throws, w, m, t, caller, i);
            if x in g.depends && MustDrop(g, w.states, m, t, caller, x) then
              var r := SetState(g, throws, w, x, Init, caller + [m]);
              all == if r.Throw? then r else DropDependents(g, throws, r.w, m, t, caller + [m], i + 1)
            else all == DropDependents(g, throws, w, m, t, caller, i + 1)
  {
    hide SetState;
  }

  // The three ways through Finish.

  lemma FinishStopsRaising(g: Graph, throws: Faults, w: World, m: Name, t: State, caller: seq<Name>)
    requires Fits(g, w) && m in g.depends && !RaiseDepends(g, throws, w, m, t, caller, 0).Next?
    ensures Finish(g, throws, w, m, t, caller) == RaiseDepends(g, throws, w, m, t, caller, 0)
  {
    hide SetState, RaiseDepends, DropDependents, DropExcludes, Move;
  }

  lemma FinishStopsDropping(g: Graph, throws: Faults, w: World, w1: World, m: Name, t: State, caller: seq<Name>,
          caller1: seq<Name>)
    requires Fits(g, w) && Fits(g, w1) && m in g.depends
    requires RaiseDepends(g, throws, w, m, t, caller, 0) == Next(w1, caller1)
    requires !DropDependents(g, throws, w1, m, t, caller1, 0).Next?
    ensures Finish(g, throws, w, m, t, caller) == DropDependents(g, throws, w1, m, t, caller1, 0)
  {
    hide SetState, RaiseDepends, DropDependents, DropExcludes, Move;
  }

  lemma FinishGoesOn(g: Graph, throws: Faults, w: World, w1: World, w2: World, m: Name, t: State,
          caller: seq<Name>, caller1: seq<Name>, caller2: seq<Name>)
    requires Fits(g, w) && Fits(g, w1) && Fits(g, w2) && m in g.depends
    requires RaiseDepends(g, throws, w, m, t, caller, 0) == Next(w1, caller1)
    requires DropDependents(g, throws, w1, m, t, caller1, 0) == Next(w2, caller2)
    ensures t == Init ==> Finish(g, throws, w, m, t, caller) == Move(throws, w2, m, t)
    ensures t != Init ==>
              var r3 := DropExcludes(g, throws, w2, m, t, caller2, 0);
              Finish(g, throws, w, m, t, caller) == if !r3.Next? then r3 else Move(throws, r3.w, m, t)
  {
    hide SetState, RaiseDepends, DropDependents, DropExcludes, Move;
  }
}
