/** Modules that exclude each other are never outside init together, on any dependency graph. */
module KernelMutex {
  import opened ModuleStates
  import opened Ladder
  import opened KernelModel
  import opened KernelGraph
  import opened KernelInit

  ghost predicate Exclusive(g: Graph, v: States) {
    forall a, e :: a in g.excludes && e in g.excludes[a] && a in v && e in v ==> v[a] == Init || v[e] == Init
  }

  ghost predicate Symmetric(g: Graph) {
    forall a, e :: a in g.excludes && e in g.excludes && e in g.excludes[a] ==> a in g.excludes[e]
  }

  /** No module excludes a module that transitively depends on it, itself included. */
  ghost predicate NoExcludedDependent(g: Graph) {
    forall a, e :: a in g.excludes && e in g.excludes[a] ==> !Reaches(g, e, a)
  }

  /** The state vector after every step between the worlds, and the last one, is exclusive. */
  ghost predicate StaysExclusive(g: Graph, w: World, w': World) {
    && w.steps <= w'.steps
    && Exclusive(g, w'.states)
    && forall i :: |w.steps| <= i < |w'.steps| ==> Exclusive(g, w'.steps[i].After())
  }

  lemma ExclusiveSame(g: Graph, w: World)
    requires Exclusive(g, w.states)
    ensures StaysExclusive(g, w, w)
  {
  }

  lemma ExclusiveAfter(g: Graph, w: World, w': World)
    requires StaysExclusive(g, w, w')
    ensures Exclusive(g, w'.states)
  {
  }

  lemma ExclusiveOn(g: Graph, a: World, b: World, c: World)
    requires StaysExclusive(g, a, b) && StaysExclusive(g, b, c)
    ensures StaysExclusive(g, a, c)
  {
    forall i | |a.steps| <= i < |c.steps| ensures Exclusive(g, c.steps[i].After()) {
      if i < |b.steps| {
        assert c.steps[i] == b.steps[i];
      }
    }
  }

  lemma LoweredExclusive(g: Graph, v: States, v': States)
    requires Exclusive(g, v) && NoHigher(v, v')
    ensures Exclusive(g, v')
  {
  }

  lemma LowersExclusive(g: Graph, w: World, w': World)
    requires Exclusive(g, w.states) && Lowers(w, w')
    ensures StaysExclusive(g, w, w') && Exclusive(g, w'.states)
  {
    LoweredExclusive(g, w.states, w'.states);
    forall i | |w.steps| <= i < |w'.steps| ensures Exclusive(g, w'.steps[i].After()) {
      assert LoweringStep(w.states, w'.steps[i]);
      LoweredExclusive(g, w.states, w'.steps[i].After());
    }
  }

  /** Every registered module that m excludes is in init. */
  ghost predicate Alone(g: Graph, v: States, m: Name) {
    m in g.excludes && forall e :: e in g.excludes[m] && e in v ==> e != m && v[e] == Init
  }

  lemma MoveAlone(g: Graph, w: World, w': World, m: Name, visited: seq<State>)
    requires m in w.states && Fits(g, w) && Symmetric(g) && Exclusive(g, w.states) && Alone(g, w.states, m)
    requires Moved(w, w', m, visited)
    ensures StaysExclusive(g, w, w')
  {
    forall i | |w.steps| <= i < |w'.steps| ensures Exclusive(g, w'.steps[i].After()) {
      var k := i - |w.steps|;
      assert w'.steps[i] == TrailStep(w.states, m, visited, k);
      assert w'.steps[i].After() == w.states[m := visited[k]];
      AloneMoves(g, w.states, m, visited[k]);
    }
    AloneMoves(g, w.states, m, Before(w.states[m], visited, |visited|));
  }

  lemma AloneMoves(g: Graph, v: States, m: Name, s: State)
    requires v.Keys == g.depends.Keys == g.excludes.Keys && m in v
    requires Symmetric(g) && Exclusive(g, v) && Alone(g, v, m)
    ensures Exclusive(g, v[m := s])
  {
  }

  /** Callers of a request for a state other than init all depend on the module transitively. */
  ghost predicate CallersDepend(g: Graph, caller: seq<Name>, m: Name) {
    forall c <- caller :: Reaches(g, c, m)
  }

  /** Mutual exclusion through one request: arbitrary graph, arbitrary target, arbitrary hooks. */
  lemma {:induction false} SetStateExclusive(g: Graph, throws: Faults, w: World, m: Name, t: State, caller: seq<Name>)
    requires Fits(g, w) && Symmetric(g) && NoExcludedDependent(g) && Exclusive(g, w.states)
    requires t != Init ==> CallersDepend(g, caller, m)
    ensures StaysExclusive(g, w, SetState(g, throws, w, m, t, caller).w)
    decreases t != Init, |Uncalled(g, caller)|, m in caller, 3, 0
  {
    hide RaiseDepends, DropDependents, DropExcludes, Finish;
    if t == Init {
      SetStateInitLowers(g, throws, w, m, caller);
      LowersExclusive(g, w, SetState(g, throws, w, m, t, caller).w);
    } else if m in g.depends && w.states[m] != t {
      var r0 := if t == Boot then SetState(g, throws, w, m, Init, []) else Return(w);
      if t == Boot {
        SetStateExclusive(g, throws, w, m, Init, []);
      }
      if !r0.Throw? {
        FinishExclusive(g, throws, r0.w, m, t, caller);
        ExclusiveOn(g, w, r0.w, SetState(g, throws, w, m, t, caller).w);
      }
    }
  }

  /** The part of set_state after the detour through init that a request for boot makes. */
  lemma {:induction false} FinishExclusive(g: Graph, throws: Faults, w: World, m: Name, t: State, caller: seq<Name>)
    requires Fits(g, w) && Symmetric(g) && NoExcludedDependent(g) && Exclusive(g, w.states)
    requires t != Init && CallersDepend(g, caller, m) && m in g.depends
    ensures StaysExclusive(g, w, Finish(g, throws, w, m, t, caller).w)
    decreases t != Init, |Uncalled(g, caller)|, m in caller, 2, 0
  {
    hide SetState, RaiseDepends, DropDependents, DropExcludes, Move, StaysExclusive, Exclusive, Symmetric,
         NoExcludedDependent, Lowers, Uncalled, Moved, ModuleDrive;
    RaiseDependsExclusive(g, throws, w, m, t, caller, 0);
    var r1 := RaiseDepends(g, throws, w, m, t, caller, 0);
    ExclusiveAfter(g, w, r1.w);
    if r1.Next? {
      DropDependentsLowers(g, throws, r1.w, m, t, r1.caller, 0);
      var r2 := DropDependents(g, throws, r1.w, m, t, r1.caller, 0);
      LowersExclusive(g, r1.w, r2.w);
      ExclusiveOn(g, w, r1.w, r2.w);
      if r2.Next? {
        assert Grown(caller, r1.caller, m) && Grown(r1.caller, r2.caller, m);
        ReachesSelf(g, m);
        EndExclusive(g, throws, r2.w, m, t, r2.caller);
        var r3 := DropExcludes(g, throws, r2.w, m, t, r2.caller, 0);
        ExclusiveOn(g, w, r2.w, if r3.Next? then Move(throws, r3.w, m, t).w else r3.w);
      }
    }
  }

  /** The end of set_state: the excludes go down, then the module moves. */
  lemma EndExclusive(g: Graph, throws: Faults, w: World, m: Name, t: State, caller: seq<Name>)
    requires Fits(g, w) && Symmetric(g) && NoExcludedDependent(g) && Exclusive(g, w.states)
    requires t != Init && CallersDepend(g, caller, m) && m in g.depends
    ensures var r := DropExcludes(g, throws, w, m, t, caller, 0);
            StaysExclusive(g, w, if r.Next? then Move(throws, r.w, m, t).w else r.w)
  {
    hide DropExcludes, Move, StaysExclusive, Exclusive, Symmetric, NoExcludedDependent, CallersDepend, Lowers,
         Moved, ModuleDrive;
    DropExcludesClears(g, throws, w, m, t, caller, 0);
    var r := DropExcludes(g, throws, w, m, t, caller, 0);
    LowersExclusive(g, w, r.w);
    if r.Next? {
      MoveEffect(throws, r.w, m, t);
      NotItself(g, r.w.states, m);
      var visited := ModuleDrive(r.w.states[m], t, throws(m), r.w.calls[m]).visited;
      MoveAlone(g, r.w, Move(throws, r.w, m, t).w, m, visited);
      ExclusiveOn(g, w, r.w, Move(throws, r.w, m, t).w);
    }
  }

  lemma NotItself(g: Graph, v: States, m: Name)
    requires NoExcludedDependent(g) && m in g.excludes
    requires forall e :: e in g.excludes[m] && e in v ==> v[e] == Init
    ensures Alone(g, v, m)
  {
    ReachesSelf(g, m);
  }

  lemma CallersOn(g: Graph, caller: seq<Name>, m: Name, d: Name)
    requires CallersDepend(g, caller, m) && DependsOn(g, m, d)
    ensures CallersDepend(g, caller + [m], m) && CallersDepend(g, caller + [m], d)
  {
    ReachesSelf(g, m);
    forall c <- caller + [m] ensures Reaches(g, c, m) && Reaches(g, c, d) {
      ReachesOn(g, c, m, d);
    }
  }

  lemma {:induction false} RaiseOneExclusive(g: Graph, throws: Faults, w: World, m: Name, d: Name, t: State,
          caller: seq<Name>)
    requires Fits(g, w) && Symmetric(g) && NoExcludedDependent(g) && Exclusive(g, w.states)
    requires DependsOn(g, m, d) && d !in caller && t != Init && CallersDepend(g, caller, m)
    ensures StaysExclusive(g, w, SetState(g, throws, w, d, t, caller + [m]).w) && CallersDepend(g, caller + [m], m)
    ensures Exclusive(g, SetState(g, throws, w, d, t, caller + [m]).w.states)
    decreases t != Init, |Uncalled(g, caller)|, m in caller, 1, 0
  {
    hide SetState, RaiseDepends;
    GrownMeasure(g, caller, caller + [m], m);
    CallersOn(g, caller, m, d);
    SetStateExclusive(g, throws, w, d, t, caller + [m]);
  }

  lemma {:induction false} RaiseDependsExclusive(g: Graph, throws: Faults, w: World, m: Name, t: State,
          caller: seq<Name>, i: nat)
    requires Fits(g, w) && Symmetric(g) && NoExcludedDependent(g) && Exclusive(g, w.states)
    requires m in g.depends && i <= |g.depends[m]| && t != Init && CallersDepend(g, caller, m)
    ensures StaysExclusive(g, w, RaiseDepends(g, throws, w, m, t, caller, i).w)
    decreases t != Init, |Uncalled(g, caller)|, m in caller, 1, |g.depends[m]| - i
  {
    hide SetState, RaiseDepends, StaysExclusive, Exclusive, Symmetric, NoExcludedDependent, CallersDepend, Uncalled;
    ExclusiveSame(g, w);
    if i == |g.depends[m]| {
      RaiseEnds(g, throws, w, m, t, caller);
    } else {
      RaiseTurn(g, throws, w, m, t, caller, i);
      var d := g.depends[m][i];
      if d in caller {
        RaiseDependsExclusive(g, throws, w, m, t, caller, i + 1);
      } else if d in g.depends {
        if MustRaise(w.states, d, t) {
          var caller' := caller + [m];
          GrownMeasure(g, caller, caller', m);
          RaiseOneExclusive(g, throws, w, m, d, t, caller);
          var r := SetState(g, throws, w, d, t, caller');
          if !r.Throw? {
            RaiseDependsExclusive(g, throws, r.w, m, t, caller', i + 1);
            ExclusiveOn(g, w, r.w, RaiseDepends(g, throws, r.w, m, t, caller', i + 1).w);
          }
        } else if w.states[d] != Error {
          RaiseDependsExclusive(g, throws, w, m, t, caller, i + 1);
        }
      }
    }
  }

  /** The excludes loop only lowers, and once through, all that m excludes is in init. */
  lemma {:induction false} DropExcludesClears(g: Graph, throws: Faults, w: World, m: Name, t: State,
          caller: seq<Name>, i: nat)
    requires Fits(g, w) && NoExcludedDependent(g) && m in g.depends && i <= |g.excludes[m]| && t != Init
    requires CallersDepend(g, caller, m)
    requires forall j :: 0 <= j < i && g.excludes[m][j] in w.states ==> w.states[g.excludes[m][j]] == Init
    ensures var r := DropExcludes(g, throws, w, m, t, caller, i);
            && Lowers(w, r.w)
            && (r.Next? ==> forall e :: e in g.excludes[m] && e in r.w.states ==> r.w.states[e] == Init)
    decreases |g.excludes[m]| - i
  {
    hide SetState;
    if i < |g.excludes[m]| {
      var e := g.excludes[m][i];
      assert e !in caller;
      if e in g.depends {
        if w.states[e] == Init {
          DropExcludesClears(g, throws, w, m, t, caller, i + 1);
        } else {
          SetStateInitLowers(g, throws, w, e, caller);
          var r := SetState(g, throws, w, e, Init, caller);
          if !r.Throw? {
            DropExcludesClears(g, throws, r.w, m, t, caller, i + 1);
            LowersOn(w, r.w, DropExcludes(g, throws, r.w, m, t, caller, i + 1).w);
          }
        }
      }
    }
  }
}
