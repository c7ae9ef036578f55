/** What a request that comes back has done to the module's dependencies, on any graph, with any hooks. */
module KernelAnswers {
  import opened ModuleStates
  import opened KernelModel
  import opened KernelGraph
  import opened KernelResult
  import opened KernelErrors
  import opened KernelFence

  /** A fence with everybody inside. */
  ghost function Everywhere(w: World, t: State): Fence {
    Fence(w.states, w.steps, if t == Init then Op else t, if t == Init then {} else w.states.Keys, w.states.Keys,
          w.states.Keys)
  }

  /** x is where it was, in init, or at t. */
  ghost predicate Placed(v: States, v': States, t: State, x: Name) {
    x in v && x in v' && v'[x] in {v[x], Init, t}
  }

  ghost predicate AllPlaced(v: States, v': States, t: State) {
    v'.Keys == v.Keys && forall x :: x in v ==> Placed(v, v', t, x)
  }

  lemma EverywhereFenced(g: Graph, w: World, t: State, m: Name, caller: seq<Name>)
    requires Fits(g, w) && m in g.depends
    ensures var f := Everywhere(w, t);
            && Fenced(g, f) && Inside(g, f, w) && Foreseen(f, m, t) && NoneResists(f, caller)
            && !Stuck(g, f, m) && forall i :: 0 <= i <= |g.depends[m]| ==> !StuckBefore(g, f, m, i)
  {
  }

  lemma WithinPlaces(g: Graph, w: World, t: State, u: States)
    requires Within(g, Everywhere(w, t), u)
    ensures AllPlaced(w.states, u, t)
  {
    hide Stuck;
    forall x | x in w.states ensures Placed(w.states, u, t, x) {
      assert Confined(g, Everywhere(w, t), x, u[x]);
    }
  }

  /** d has been asked for t, or stood at t or above and not in boot; since then it may have been dropped. */
  ghost predicate Answered(v: States, v': States, t: State, d: Name) {
    d in v && d in v' && (v'[d] in {t, Init} || (v'[d] == v[d] != Boot && Code(t) <= Code(v[d])))
  }

  lemma AnsweredBefore(v: States, v': States, v'': States, t: State, d: Name)
    requires AllPlaced(v, v', t) && Answered(v', v'', t, d)
    ensures Answered(v, v'', t, d)
  {
    assert Placed(v, v', t, d);
  }

  lemma AnsweredAfter(v: States, v': States, v'': States, t: State, d: Name)
    requires Answered(v, v', t, d) && AllPlaced(v', v'', t)
    ensures Answered(v, v'', t, d)
  {
    assert Placed(v', v'', t, d);
  }

  lemma RequestPlaces(g: Graph, throws: Faults, w: World, m: Name, t: State, caller: seq<Name>)
    requires Fits(g, w)
    ensures var r := SetState(g, throws, w, m, t, caller); r.Return? ==> AllPlaced(w.states, r.w.states, t)
  {
    if m in g.depends {
      hide SetState, Fenced, Foreseen, Inside, Everywhere, Within, AllPlaced;
      EverywhereFenced(g, w, t, m, caller);
      SetStateKeeps(g, Everywhere(w, t), throws, w, m, t, caller);
      var r := SetState(g, throws, w, m, t, caller);
      if r.Return? {
        WithinPlaces(g, w, t, r.w.states);
      }
    }
  }

  /** After the loop over the dependencies nobody is placed elsewhere than at t or in init. */
  lemma FinishPlaces(g: Graph, throws: Faults, w: World, m: Name, t: State, caller: seq<Name>)
    requires Fits(g, w) && m in g.depends
    ensures var (r1, r) := (RaiseDepends(g, throws, w, m, t, caller, 0), Finish(g, throws, w, m, t, caller));
            r1.Next? && r.Return? ==> AllPlaced(r1.w.states, r.w.states, t)
  {
    hide SetState, RaiseDepends, Finish, Fenced, Foreseen, Inside, Everywhere, Within, AllPlaced, Stuck, NoneResists;
    var r1, r := RaiseDepends(g, throws, w, m, t, caller, 0), Finish(g, throws, w, m, t, caller);
    if r1.Next? && r.Return? {
      EverywhereFenced(g, r1.w, t, m, r1.caller);
      EndKeeps(g, Everywhere(r1.w, t), throws, w, r1.w, m, t, caller, r1.caller);
      WithinPlaces(g, r1.w, t, r.w.states);
    }
  }

  lemma RaisePlaces(g: Graph, throws: Faults, w: World, m: Name, t: State, caller: seq<Name>, i: nat)
    requires Fits(g, w) && m in g.depends && i <= |g.depends[m]|
    ensures var r := RaiseDepends(g, throws, w, m, t, caller, i); r.Next? ==> AllPlaced(w.states, r.w.states, t)
  {
    hide RaiseDepends, Fenced, Foreseen, Inside, Everywhere, Within, AllPlaced, StuckBefore, NoneResists;
    EverywhereFenced(g, w, t, m, caller);
    RaiseKeeps(g, Everywhere(w, t), throws, w, m, t, caller, i);
    var r := RaiseDepends(g, throws, w, m, t, caller, i);
    if r.Next? {
      WithinPlaces(g, w, t, r.w.states);
    }
  }

  /** d counts: it is registered, nobody's caller and not kept back by an error of its own. */
  ghost predicate Counts(g: Graph, v: States, m: Name, caller: seq<Name>, d: Name) {
    d in g.depends && d !in caller && d != m && !Blocked(g, v, d)
  }

  lemma CountsIs(g: Graph, v: States, m: Name, caller: seq<Name>, d: Name)
    requires Counts(g, v, m, caller, d)
    ensures d in g.depends && d !in caller
  {
  }

  lemma CountsStill(g: Graph, throws: Faults, w: World, m: Name, t: State, caller: seq<Name>, d: Name, e: Name)
    requires Fits(g, w) && Counts(g, w.states, m, caller, e)
    ensures Counts(g, SetState(g, throws, w, d, t, caller + [m]).w.states, m, caller + [m], e)
  {
    hide SetState;
    SetStateNoNewErrors(g, throws, w, d, t, caller + [m]);
  }

  lemma {:induction false} LoopAnswers(g: Graph, throws: Faults, w: World, m: Name, t: State, caller: seq<Name>,
          i: nat, j: nat, e: Name)
    requires Fits(g, w) && m in g.depends && i <= j < |g.depends[m]| && e == g.depends[m][j]
    requires Counts(g, w.states, m, caller, e)
    ensures var r := RaiseDepends(g, throws, w, m, t, caller, i);
            r.Next? ==> Answered(w.states, r.w.states, t, e)
    decreases j - i
  {
    hide SetState, RaiseDepends, Counts, Answered, Grown, MustRaise;
    RaiseTurn(g, throws, w, m, t, caller, i);
    var d := g.depends[m][i];
    if j == i {
      CountsIs(g, w.states, m, caller, e);
      if !MustRaise(w.states, d, t) {
        SkippedAnswers(g, throws, w, m, t, caller, i);
      } else if !SetState(g, throws, w, d, t, caller + [m]).Throw? {
        AskedAnswers(g, throws, w, m, t, caller, i);
      }
    } else if d in caller {
      LoopAnswers(g, throws, w, m, t, caller, i + 1, j, e);
    } else if d in g.depends {
      if !MustRaise(w.states, d, t) {
        LoopAnswers(g, throws, w, m, t, caller, i + 1, j, e);
      } else {
        var r := SetState(g, throws, w, d, t, caller + [m]);
        if !r.Throw? {
          CountsStill(g, throws, w, m, t, caller, d, e);
          LoopAnswers(g, throws, r.w, m, t, caller + [m], i + 1, j, e);
          AnswersStill(g, throws, w, m, t, caller, i, e);
        }
      }
    }
  }

  lemma AnswersStill(g: Graph, throws: Faults, w: World, m: Name, t: State, caller: seq<Name>, i: nat, e: Name)
    requires Fits(g, w) && m in g.depends && i < |g.depends[m]|
    requires var r := SetState(g, throws, w, g.depends[m][i], t, caller + [m]);
             && r.Return?
             && var all := RaiseDepends(g, throws, r.w, m, t, caller + [m], i + 1);
             all.Next? ==> Answered(r.w.states, all.w.states, t, e)
    ensures var r := SetState(g, throws, w, g.depends[m][i], t, caller + [m]);
            var all := RaiseDepends(g, throws, r.w, m, t, caller + [m], i + 1);
            all.Next? ==> Answered(w.states, all.w.states, t, e)
  {
    hide SetState, RaiseDepends, AllPlaced, Answered;
    var r := SetState(g, throws, w, g.depends[m][i], t, caller + [m]);
    RequestPlaces(g, throws, w, g.depends[m][i], t, caller + [m]);
    var all := RaiseDepends(g, throws, r.w, m, t, caller + [m], i + 1);
    if all.Next? {
      AnsweredBefore(w.states, r.w.states, all.w.states, t, e);
    }
  }

  /** A dependency that is asked: it is at t when its request comes back. */
  lemma AskedAnswers(g: Graph, throws: Faults, w: World, m: Name, t: State, caller: seq<Name>, i: nat)
    requires Fits(g, w) && m in g.depends && i < |g.depends[m]| && Counts(g, w.states, m, caller, g.depends[m][i])
    requires !SetState(g, throws, w, g.depends[m][i], t, caller + [m]).Throw?
    ensures var d := g.depends[m][i];
            var r := SetState(g, throws, w, d, t, caller + [m]);
            var all := RaiseDepends(g, throws, r.w, m, t, caller + [m], i + 1);
            all.Next? ==> Answered(w.states, all.w.states, t, d)
  {
    hide SetState, RaiseDepends, AllPlaced, Blocked;
    var d := g.depends[m][i];
    var r := SetState(g, throws, w, d, t, caller + [m]);
    ShortMeansBlocked(g, throws, w, d, t, caller + [m]);
    RaisePlaces(g, throws, r.w, m, t, caller + [m], i + 1);
    var all := RaiseDepends(g, throws, r.w, m, t, caller + [m], i + 1);
    if all.Next? {
      AnsweredAfter(w.states, r.w.states, all.w.states, t, d);
    }
  }

  lemma SkippedAnswers(g: Graph, throws: Faults, w: World, m: Name, t: State, caller: seq<Name>, i: nat)
    requires Fits(g, w) && m in g.depends && i < |g.depends[m]| && Counts(g, w.states, m, caller, g.depends[m][i])
    requires !MustRaise(w.states, g.depends[m][i], t)
    ensures var all := RaiseDepends(g, throws, w, m, t, caller, i + 1);
            all.Next? ==> Answered(w.states, all.w.states, t, g.depends[m][i])
  {
    hide RaiseDepends, AllPlaced, Blocked;
    RaisePlaces(g, throws, w, m, t, caller, i + 1);
    var all := RaiseDepends(g, throws, w, m, t, caller, i + 1);
    if all.Next? {
      AnsweredAfter(w.states, w.states, all.w.states, t, g.depends[m][i]);
    }
  }

  /** On any graph, with any hooks: when a request for t comes back on a module without a dependency in
      error, each of its dependencies has been taken to t if it stood below or was in boot, and is there or
      has been dropped to init since; only one with an error further down may have been kept back. */
  lemma DependenciesAnswer(g: Graph, throws: Faults, w: World, m: Name, t: State, caller: seq<Name>, d: Name)
    requires Fits(g, w) && DependsOn(g, m, d) && w.states[m] != t && !Blocked(g, w.states, m)
    requires d in g.depends && d !in caller && d != m && !Blocked(g, w.states, d)
    ensures var r := SetState(g, throws, w, m, t, caller);
            r.Return? ==> Answered(w.states, r.w.states, t, d)
  {
    hide Finish, Blocked, AllPlaced, Answered, NoNewErrors;
    var r0 := if t == Boot then SetState(g, throws, w, m, Init, []) else Return(w);
    if !r0.Throw? {
      NoNewErrorsSame(w.states);
      NothingMoved(w.states, t);
      if t == Boot {
        SetStateNoNewErrors(g, throws, w, m, Init, []);
        RequestPlaces(g, throws, w, m, Init, []);
        InitIsPlaced(w.states, r0.w.states, t);
      }
      NotBlockedSince(g, w.states, r0.w.states, m);
      NotBlockedSince(g, w.states, r0.w.states, d);
      FinishAnswers(g, throws, r0.w, m, t, caller, d);
      var r := Finish(g, throws, r0.w, m, t, caller);
      if r.Return? {
        AnsweredBefore(w.states, r0.w.states, r.w.states, t, d);
      }
    }
  }

  lemma NothingMoved(v: States, t: State)
    ensures AllPlaced(v, v, t)
  {
  }

  lemma InitIsPlaced(v: States, v': States, t: State)
    requires AllPlaced(v, v', Init)
    ensures AllPlaced(v, v', t)
  {
    forall x | x in v ensures Placed(v, v', t, x) {
      assert Placed(v, v', Init, x);
    }
  }

  lemma NotBlockedSince(g: Graph, v: States, v': States, m: Name)
    requires !Blocked(g, v, m) && NoNewErrors(v, v')
    ensures !Blocked(g, v', m)
  {
  }

  lemma FinishAnswers(g: Graph, throws: Faults, w: World, m: Name, t: State, caller: seq<Name>, d: Name)
    requires Fits(g, w) && DependsOn(g, m, d) && !Blocked(g, w.states, m) && Counts(g, w.states, m, caller, d)
    ensures var r := Finish(g, throws, w, m, t, caller); r.Return? ==> Answered(w.states, r.w.states, t, d)
  {
    var j :| 0 <= j < |g.depends[m]| && g.depends[m][j] == d;
    hide SetState, Finish, RaiseDepends, Blocked, AllPlaced, Answered, NoNewErrors, Counts;
    var r1, r := RaiseDepends(g, throws, w, m, t, caller, 0), Finish(g, throws, w, m, t, caller);
    LoopAnswers(g, throws, w, m, t, caller, 0, j, d);
    if r1.Next? {
      FinishPlaces(g, throws, w, m, t, caller);
      if r.Return? {
        AnsweredAfter(w.states, r1.w.states, r.w.states, t, d);
      }
    } else {
      FinishStopsRaising(g, throws, w, m, t, caller);
      RaiseReturnsBlocked(g, throws, w, m, t, caller, 0);
      RaiseErrors(g, throws, w, m, t, caller, 0);
      NotBlockedSince(g, w.states, r1.w.states, m);
    }
  }

  lemma {:induction false} LoopMeetsUnregistered(g: Graph, throws: Faults, w: World, m: Name, t: State,
          caller: seq<Name>, i: nat, j: nat)
    requires Fits(g, w) && m in g.depends && i <= j < |g.depends[m]|
    requires g.depends[m][j] !in g.depends && g.depends[m][j] !in caller
    ensures !RaiseDepends(g, throws, w, m, t, caller, i).Next?
    decreases j - i
  {
    hide SetState, RaiseDepends, MustRaise, Grown;
    RaiseTurn(g, throws, w, m, t, caller, i);
    var d := g.depends[m][i];
    if i < j {
      if d in caller {
        LoopMeetsUnregistered(g, throws, w, m, t, caller, i + 1, j);
      } else if d in g.depends {
        if !MustRaise(w.states, d, t) {
          LoopMeetsUnregistered(g, throws, w, m, t, caller, i + 1, j);
        } else {
          var r := SetState(g, throws, w, d, t, caller + [m]);
          LoopMeetsUnregistered(g, throws, r.w, m, t, caller + [m], i + 1, j);
        }
      }
    }
  }

  lemma {:induction false} ExcludesMeetUnregistered(g: Graph, throws: Faults, w: World, m: Name, t: State,
          caller: seq<Name>, i: nat, j: nat)
    requires Fits(g, w) && m in g.depends && i <= j < |g.excludes[m]| && t != Init
    requires g.excludes[m][j] !in g.depends && g.excludes[m][j] !in caller
    ensures !DropExcludes(g, throws, w, m, t, caller, i).Next?
    decreases j - i
  {
    hide SetState;
    var e := g.excludes[m][i];
    if i < j {
      if e in caller || (e in g.depends && w.states[e] == Init) {
        ExcludesMeetUnregistered(g, throws, w, m, t, caller, i + 1, j);
      } else if e in g.depends {
        var r := SetState(g, throws, w, e, Init, caller);
        ExcludesMeetUnregistered(g, throws, r.w, m, t, caller, i + 1, j);
      }
    }
  }

  /** A name in the dependencies, or for targets other than init in the excludes, that is not registered
      and nobody's caller: the request throws, unless a dependency in error is in its way. */
  lemma UnregisteredThrows(g: Graph, throws: Faults, w: World, m: Name, t: State, caller: seq<Name>, x: Name)
    requires Fits(g, w) && m in g.depends && w.states[m] != t && (t == Init || !Blocked(g, w.states, m))
    requires x in g.depends[m] || (t != Init && x in g.excludes[m])
    requires x !in g.depends && x !in caller
    ensures SetState(g, throws, w, m, t, caller).Throw?
  {
    hide Finish, Blocked, NoNewErrors;
    var r0 := if t == Boot then SetState(g, throws, w, m, Init, []) else Return(w);
    if !r0.Throw? {
      NoNewErrorsSame(w.states);
      if t == Boot {
        SetStateNoNewErrors(g, throws, w, m, Init, []);
      }
      if t != Init {
        NotBlockedSince(g, w.states, r0.w.states, m);
      }
      FinishThrows(g, throws, r0.w, m, t, caller, x);
    }
  }

  lemma FinishThrows(g: Graph, throws: Faults, w: World, m: Name, t: State, caller: seq<Name>, x: Name)
    requires Fits(g, w) && m in g.depends && (t == Init || !Blocked(g, w.states, m))
    requires x in g.depends[m] || (t != Init && x in g.excludes[m])
    requires x !in g.depends && x !in caller
    ensures Finish(g, throws, w, m, t, caller).Throw?
  {
    hide SetState, RaiseDepends, DropDependents, DropExcludes, Move, Blocked, NoNewErrors;
    var r1 := RaiseDepends(g, throws, w, m, t, caller, 0);
    RaiseReturnsBlocked(g, throws, w, m, t, caller, 0);
    RaiseErrors(g, throws, w, m, t, caller, 0);
    if t != Init {
      NotBlockedSince(g, w.states, r1.w.states, m);
    }
    if x in g.depends[m] {
      var j :| 0 <= j < |g.depends[m]| && g.depends[m][j] == x;
      LoopMeetsUnregistered(g, throws, w, m, t, caller, 0, j);
    } else if r1.Next? {
      var j :| 0 <= j < |g.excludes[m]| && g.excludes[m][j] == x;
      DropNeverReturns(g, throws, r1.w, m, t, r1.caller, 0);
      var r2 := DropDependents(g, throws, r1.w, m, t, r1.caller, 0);
      if r2.Next? {
        ExcludesMeetUnregistered(g, throws, r2.w, m, t, r2.caller, 0, j);
        ExcludesNeverReturn(g, throws, r2.w, m, t, r2.caller, 0);
      }
    }
  }

  /** What a request has achieved it does not do again: asked once more, it changes nothing. */
  lemma AskedAgain(g: Graph, throws: Faults, w: World, m: Name, t: State, caller: seq<Name>, caller': seq<Name>)
    requires Fits(g, w) && m in g.depends && !Blocked(g, w.states, m)
    ensures var r := SetState(g, throws, w, m, t, caller);
            r.Return? ==> SetState(g, throws, r.w, m, t, caller') == r
  {
    ShortMeansBlocked(g, throws, w, m, t, caller);
    hide Finish, Blocked;
    var r := SetState(g, throws, w, m, t, caller);
    if r.Return? {
      AlreadyThere(g, throws, r.w, m, t, caller');
    }
  }

  lemma AlreadyThere(g: Graph, throws: Faults, w: World, m: Name, t: State, caller: seq<Name>)
    requires Fits(g, w) && m in g.depends && w.states[m] == t
    ensures SetState(g, throws, w, m, t, caller) == Return(w)
  {
  }
}
