/** No request takes a module into error, on graphs of any shape, with any hooks throwing. A request that
    comes back short of its target therefore had a dependency in error before the call. */
module KernelErrors {
  import opened ModuleStates
  import opened Ladder
  import opened LadderProofs
  import opened KernelModel
  import opened KernelResult

  /** Whoever is in error in v' was in error in v. */
  ghost predicate NoNewErrors(v: States, v': States) {
    v'.Keys == v.Keys && forall x :: x in v && v'[x] == Error ==> v[x] == Error
  }

  lemma NoNewErrorsOn(v: States, v': States, v'': States)
    requires NoNewErrors(v, v') && NoNewErrors(v', v'')
    ensures NoNewErrors(v, v'')
  {
  }

  lemma NoNewErrorsSame(v: States)
    ensures NoNewErrors(v, v)
  {
  }

  lemma NotInErrorThen(v: States, v': States, x: Name)
    requires NoNewErrors(v, v') && x in v && v[x] != Error
    ensures x in v' && v'[x] != Error
  {
  }

  lemma MoveErrors(throws: Faults, w: World, m: Name, t: State)
    requires m in w.states && m in w.calls
    ensures NoNewErrors(w.states, Move(throws, w, m, t).w.states)
  {
    hide ModuleDrive, Trail;
    MoveReaches(throws, w, m, t);
    if Refused(w.states[m], t) && t != Init {
      RefusedStays(w.states[m], t, throws(m), w.calls[m]);
    }
  }

  lemma RefusedStays(s: State, t: State, throws: Hooks, calls: nat)
    requires Refused(s, t)
    ensures ModuleDrive(s, t, throws, calls).visited == []
  {
  }

  /** Nobody gets into error, whatever the graph, the states, the hooks, the target and the callers. */
  lemma {:induction false} SetStateNoNewErrors(g: Graph, throws: Faults, w: World, m: Name, t: State, caller: seq<Name>)
    requires Fits(g, w)
    ensures NoNewErrors(w.states, SetState(g, throws, w, m, t, caller).w.states)
    decreases t != Init, |Uncalled(g, caller)|, m in caller, 3, 0
  {
    hide Finish, NoNewErrors;
    NoNewErrorsSame(w.states);
    if m in g.depends && w.states[m] != t {
      var r0 := if t == Boot then SetState(g, throws, w, m, Init, []) else Return(w);
      if t == Boot {
        SetStateNoNewErrors(g, throws, w, m, Init, []);
      }
      if !r0.Throw? {
        FinishErrors(g, throws, r0.w, m, t, caller);
        NoNewErrorsOn(w.states, r0.w.states, Finish(g, throws, r0.w, m, t, caller).w.states);
      }
    }
  }

  lemma {:induction false} FinishErrors(g: Graph, throws: Faults, w: World, m: Name, t: State, caller: seq<Name>)
    requires Fits(g, w) && m in g.depends
    ensures var all := Finish(g, throws, w, m, t, caller).w.states;
            NoNewErrors(w.states, all) && NoNewErrors(RaiseDepends(g, throws, w, m, t, caller, 0).w.states, all)
    decreases t != Init, |Uncalled(g, caller)|, m in caller, 2, 0
  {
    hide SetState, RaiseDepends, DropDependents, DropExcludes, Move, NoNewErrors, Uncalled;
    RaiseErrors(g, throws, w, m, t, caller, 0);
    var r1 := RaiseDepends(g, throws, w, m, t, caller, 0);
    NoNewErrorsSame(r1.w.states);
    if r1.Next? {
      GrownMeasure(g, caller, r1.caller, m);
      DropErrors(g, throws, r1.w, m, t, r1.caller, 0);
      var r2 := DropDependents(g, throws, r1.w, m, t, r1.caller, 0);
      if r2.Next? {
        GrownMeasure(g, r1.caller, r2.caller, m);
        EndErrors(g, throws, r2.w, m, t, r2.caller);
        var r3 := if t == Init then r2 else DropExcludes(g, throws, r2.w, m, t, r2.caller, 0);
        var all := if r3.Next? then Move(throws, r3.w, m, t) else r3;
        NoNewErrorsOn(r1.w.states, r2.w.states, all.w.states);
      }
      NoNewErrorsOn(w.states, r1.w.states, Finish(g, throws, w, m, t, caller).w.states);
    }
  }

  lemma {:induction false} EndErrors(g: Graph, throws: Faults, w: World, m: Name, t: State, caller: seq<Name>)
    requires Fits(g, w) && m in g.depends
    ensures var r3 := if t == Init then Next(w, caller) else DropExcludes(g, throws, w, m, t, caller, 0);
            NoNewErrors(w.states, if r3.Next? then Move(throws, r3.w, m, t).w.states else r3.w.states)
    decreases t != Init, |Uncalled(g, caller)|, m in caller, 1, |g.excludes[m]| + 1
  {
    hide SetState, DropExcludes, Move, NoNewErrors, Uncalled;
    NoNewErrorsSame(w.states);
    if t != Init {
      ExcludeErrors(g, throws, w, m, t, caller, 0);
    }
    var r3 := if t == Init then Next(w, caller) else DropExcludes(g, throws, w, m, t, caller, 0);
    if r3.Next? {
      MoveErrors(throws, r3.w, m, t);
      NoNewErrorsOn(w.states, r3.w.states, Move(throws, r3.w, m, t).w.states);
    }
  }

  lemma {:induction false} RaiseErrors(g: Graph, throws: Faults, w: World, m: Name, t: State, caller: seq<Name>, i: nat)
    requires Fits(g, w) && m in g.depends && i <= |g.depends[m]|
    ensures NoNewErrors(w.states, RaiseDepends(g, throws, w, m, t, caller, i).w.states)
    decreases t != Init, |Uncalled(g, caller)|, m in caller, 1, |g.depends[m]| - i
  {
    hide SetState, RaiseDepends, NoNewErrors, Uncalled;
    NoNewErrorsSame(w.states);
    if i == |g.depends[m]| {
      RaiseEnds(g, throws, w, m, t, caller);
    } else {
      RaiseTurn(g, throws, w, m, t, caller, i);
      var d := g.depends[m][i];
      if d !in caller && d in g.depends && MustRaise(w.states, d, t) {
        var caller' := caller + [m];
        GrownMeasure(g, caller, caller', m);
        SetStateNoNewErrors(g, throws, w, d, t, caller');
        var r := SetState(g, throws, w, d, t, caller');
        if !r.Throw? {
          RaiseErrors(g, throws, r.w, m, t, caller', i + 1);
          NoNewErrorsOn(w.states, r.w.states, RaiseDepends(g, throws, r.w, m, t, caller', i + 1).w.states);
        }
      } else if d in caller || (d in g.depends && (w.states[d] != Error || t == Init)) {
        RaiseErrors(g, throws, w, m, t, caller, i + 1);
      }
    }
  }

  lemma {:induction false} DropErrors(g: Graph, throws: Faults, w: World, m: Name, t: State, caller: seq<Name>, i: nat)
    requires Fits(g, w) && m in g.depends && i <= |g.order|
    ensures NoNewErrors(w.states, DropDependents(g, throws, w, m, t, caller, i).w.states)
    decreases t != Init, |Uncalled(g, caller)|, m in caller, 1, |g.order| - i
  {
    hide SetState, DropDependents, NoNewErrors, Uncalled;
    NoNewErrorsSame(w.states);
    if i == |g.order| {
      DropEnds(g, throws, w, m, t, caller);
    } else {
      DropTurn(g, throws, w, m, t, caller, i);
      var x := g.order[i];
      if x in g.depends && MustDrop(g, w.states, m, t, caller, x) {
        var caller' := caller + [m];
        GrownMeasure(g, caller, caller', m);
        SetStateNoNewErrors(g, throws, w, x, Init, caller');
        var r := SetState(g, throws, w, x, Init, caller');
        if !r.Throw? {
          DropErrors(g, throws, r.w, m, t, caller', i + 1);
          NoNewErrorsOn(w.states, r.w.states, DropDependents(g, throws, r.w, m, t, caller', i + 1).w.states);
        }
      } else {
        DropErrors(g, throws, w, m, t, caller, i + 1);
      }
    }
  }

  lemma {:induction false} ExcludeErrors(g: Graph, throws: Faults, w: World, m: Name, t: State, caller: seq<Name>,
          i: nat)
    requires Fits(g, w) && m in g.depends && i <= |g.excludes[m]| && t != Init
    ensures NoNewErrors(w.states, DropExcludes(g, throws, w, m, t, caller, i).w.states)
    decreases true, |Uncalled(g, caller)|, m in caller, 1, |g.excludes[m]| - i
  {
    hide SetState, NoNewErrors, Uncalled;
    NoNewErrorsSame(w.states);
    if i < |g.excludes[m]| {
      var e := g.excludes[m][i];
      if e in caller || (e in g.depends && w.states[e] == Init) {
        ExcludeErrors(g, throws, w, m, t, caller, i + 1);
      } else if e in g.depends {
        SetStateNoNewErrors(g, throws, w, e, Init, caller);
        var r := SetState(g, throws, w, e, Init, caller);
        if !r.Throw? {
          ExcludeErrors(g, throws, r.w, m, t, caller, i + 1);
          NoNewErrorsOn(w.states, r.w.states, DropExcludes(g, throws, r.w, m, t, caller, i + 1).w.states);
        }
      }
    }
  }

  /** A request that comes back short of its target was not one for init, and a dependency of the module
      was in error before the call. */
  lemma ShortMeansBlocked(g: Graph, throws: Faults, w: World, m: Name, t: State, caller: seq<Name>)
    requires Fits(g, w)
    ensures var r := SetState(g, throws, w, m, t, caller);
            r.Return? ==> m in r.w.states && (r.w.states[m] != t ==> t != Init && Blocked(g, w.states, m))
  {
    hide SetState;
    SetStateNoNewErrors(g, throws, w, m, t, caller);
    ReturnMeansReachedOrBlocked(g, throws, w, m, t, caller);
  }

  /** Without a dependency in error, a request that comes back has reached its target; and where nobody
      is in error, nobody gets there. */
  lemma ReachesWithoutErrors(g: Graph, throws: Faults, w: World, m: Name, t: State, caller: seq<Name>)
    requires Fits(g, w) && !Blocked(g, w.states, m)
    ensures var r := SetState(g, throws, w, m, t, caller);
            && (r.Return? ==> m in r.w.states && r.w.states[m] == t)
            && ((forall x :: x in w.states ==> w.states[x] != Error) ==>
                forall x :: x in r.w.states ==> r.w.states[x] != Error)
  {
    hide SetState, Blocked;
    ShortMeansBlocked(g, throws, w, m, t, caller);
    SetStateNoNewErrors(g, throws, w, m, t, caller);
  }
}
