/** What it means that set_state comes back without an exception, on any graph and from any states. */
module KernelResult {
  import opened ModuleStates
  import opened Ladder
  import opened LadderProofs
  import opened KernelModel
  import opened KernelGraph

  /** A dependency of m is in the error state. */
  ghost predicate Blocked(g: Graph, v: States, m: Name) {
    exists d :: DependsOn(g, m, d) && d in v && v[d] == Error
  }

  lemma MoveReaches(throws: Faults, w: World, m: Name, t: State)
    requires m in w.states && m in w.calls
    ensures var r := Move(throws, w, m, t);
            (r.Return? <==> r.w.states[m] == t && !Refused(w.states[m], t))
            && (r.Throw? && !Refused(w.states[m], t) ==> Regular(r.w.states[m]))
  {
    if !Refused(w.states[m], t) {
      DriveEnds(w.states[m], t, throws(m), w.calls[m]);
    }
    hide ModuleDrive, Trail;
    RefusedFails(w.states[m], t, throws(m), w.calls[m]);
  }

  lemma RefusedFails(s: State, t: State, throws: Hooks, calls: nat)
    ensures Refused(s, t) ==> !ModuleDrive(s, t, throws, calls).ok
  {
  }

  /** The dependency loop ends early without an exception only at a dependency in error. */
  lemma {:induction false} RaiseReturnsBlocked(g: Graph, throws: Faults, w: World, m: Name, t: State,
          caller: seq<Name>, i: nat)
    requires Fits(g, w) && m in g.depends && i <= |g.depends[m]|
    ensures var r := RaiseDepends(g, throws, w, m, t, caller, i); r.Return? ==> t != Init && Blocked(g, r.w.states, m)
    decreases |g.depends[m]| - i
  {
    hide SetState, RaiseDepends;
    if i == |g.depends[m]| {
      RaiseEnds(g, throws, w, m, t, caller);
    } else {
      RaiseTurn(g, throws, w, m, t, caller, i);
      var d := g.depends[m][i];
      assert DependsOn(g, m, d);
      if d in caller {
        RaiseReturnsBlocked(g, throws, w, m, t, caller, i + 1);
      } else if d in g.depends {
        if MustRaise(w.states, d, t) {
          var r := SetState(g, throws, w, d, t, caller + [m]);
          if !r.Throw? {
            RaiseReturnsBlocked(g, throws, r.w, m, t, caller + [m], i + 1);
          }
        } else if w.states[d] != Error || t == Init {
          RaiseReturnsBlocked(g, throws, w, m, t, caller, i + 1);
        }
      }
    }
  }

  lemma {:induction false} DropNeverReturns(g: Graph, throws: Faults, w: World, m: Name, t: State,
          caller: seq<Name>, i: nat)
    requires Fits(g, w) && m in g.depends && i <= |g.order|
    ensures !DropDependents(g, throws, w, m, t, caller, i).Return?
    decreases |g.order| - i
  {
    hide SetState, DropDependents;
    if i == |g.order| {
      DropEnds(g, throws, w, m, t, caller);
    } else {
      DropTurn(g, throws, w, m, t, caller, i);
      var x := g.order[i];
      if x in g.depends && MustDrop(g, w.states, m, t, caller, x) {
        var r := SetState(g, throws, w, x, Init, caller + [m]);
        if !r.Throw? {
          DropNeverReturns(g, throws, r.w, m, t, caller + [m], i + 1);
        }
      } else {
        DropNeverReturns(g, throws, w, m, t, caller, i + 1);
      }
    }
  }

  lemma {:induction false} ExcludesNeverReturn(g: Graph, throws: Faults, w: World, m: Name, t: State,
          caller: seq<Name>, i: nat)
    requires Fits(g, w) && m in g.depends && i <= |g.excludes[m]| && t != Init
    ensures !DropExcludes(g, throws, w, m, t, caller, i).Return?
    decreases |g.excludes[m]| - i
  {
    hide SetState;
    if i < |g.excludes[m]| {
      var e := g.excludes[m][i];
      if e in caller || (e in g.depends && w.states[e] == Init) {
        ExcludesNeverReturn(g, throws, w, m, t, caller, i + 1);
      } else if e in g.depends {
        var r := SetState(g, throws, w, e, Init, caller);
        if !r.Throw? {
          ExcludesNeverReturn(g, throws, r.w, m, t, caller, i + 1);
        }
      }
    }
  }

  /** A request that comes back without an exception has brought the module to its target, or it was
      not a request for init and a dependency of the module is in error. */
  lemma ReturnMeansReachedOrBlocked(g: Graph, throws: Faults, w: World, m: Name, t: State, caller: seq<Name>)
    requires Fits(g, w)
    ensures var r := SetState(g, throws, w, m, t, caller);
            r.Return? ==> m in r.w.states && (r.w.states[m] == t || (t != Init && Blocked(g, r.w.states, m)))
  {
    hide Finish, Blocked;
    if m in g.depends && w.states[m] != t {
      var r0 := if t == Boot then SetState(g, throws, w, m, Init, []) else Return(w);
      if !r0.Throw? {
        FinishReached(g, throws, r0.w, m, t, caller);
      }
    }
  }

  lemma FinishReached(g: Graph, throws: Faults, w: World, m: Name, t: State, caller: seq<Name>)
    requires Fits(g, w) && m in g.depends
    ensures var r := Finish(g, throws, w, m, t, caller);
            r.Return? ==> r.w.states[m] == t || (t != Init && Blocked(g, r.w.states, m))
  {
    hide SetState, RaiseDepends, DropDependents, DropExcludes, Move, Blocked;
    RaiseReturnsBlocked(g, throws, w, m, t, caller, 0);
    var r1 := RaiseDepends(g, throws, w, m, t, caller, 0);
    if r1.Next? {
      DropNeverReturns(g, throws, r1.w, m, t, r1.caller, 0);
      var r2 := DropDependents(g, throws, r1.w, m, t, r1.caller, 0);
      if r2.Next? {
        if t != Init {
          ExcludesNeverReturn(g, throws, r2.w, m, t, r2.caller, 0);
        }
        var r3 := if t == Init then r2 else DropExcludes(g, throws, r2.w, m, t, r2.caller, 0);
        if r3.Next? {
          MoveReaches(throws, r3.w, m, t);
        }
      }
    }
  }
}
