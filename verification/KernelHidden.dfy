/** Two things the list of callers does to a request, on the smallest graphs that show them: what a module
    has asked for hides what stands on it, and callers are not dropped by exclusion. */
module KernelHidden {
  import opened ModuleStates
  import opened Ladder
  import opened LadderProofs
  import opened KernelModel
  import opened KernelResult
  import opened KernelReturns
  import opened KernelLower

  /** Only a, b and c: a in error on b in init on c. */
  ghost predicate ErrorOnTop(g: Graph, w: World, a: Name, b: Name, c: Name, s: State) {
    && Fits(g, w) && a != b && a != c && b != c && g.order == [a, b, c] && g.depends.Keys == {a, b, c}
    && g.depends[a] == [b] && g.depends[b] == [c] && g.depends[c] == []
    && g.excludes[b] == [] && g.excludes[c] == []
    && w.states[a] == Error && w.states[b] == Init && w.states[c] == s
  }

  lemma NoneExcluded(g: Graph, throws: Faults, w: World, m: Name, t: State, caller: seq<Name>)
    requires Fits(g, w) && m in g.depends && t != Init && g.excludes[m] == []
    ensures DropExcludes(g, throws, w, m, t, caller, 0) == Next(w, caller)
  {
    hide SetState;
  }

  lemma MovesAlone(throws: Faults, w: World, m: Name, t: State)
    requires m in w.states && m in w.calls && NeverFails(throws) && !Refused(w.states[m], t)
    ensures var r := Move(throws, w, m, t); r.Return? && r.w.states == w.states[m := t]
  {
    MoveCompletes(throws, w, m, t);
    MoveReaches(throws, w, m, t);
    hide ModuleDrive, Trail;
  }

  lemma SkipsAll(g: Graph, throws: Faults, w: World, m: Name, t: State, caller: seq<Name>)
    requires Fits(g, w) && m in g.depends && |g.order| == 3
    requires forall i :: 0 <= i < 3 ==> g.order[i] in g.depends && !MustDrop(g, w.states, m, t, caller, g.order[i])
    ensures DropDependents(g, throws, w, m, t, caller, 0) == Next(w, caller)
  {
    hide SetState, DropDependents, MustDrop;
    Skips(g, throws, w, m, t, caller, 0);
    Skips(g, throws, w, m, t, caller, 1);
    Skips(g, throws, w, m, t, caller, 2);
    DropEnds(g, throws, w, m, t, caller);
  }

  /** A request for op on a module without dependencies on which nothing higher stands. */
  lemma OnlyMoves(g: Graph, throws: Faults, w: World, m: Name, t: State, caller: seq<Name>)
    requires Fits(g, w) && m in g.depends && |g.order| == 3 && t !in {Init, Boot} && w.states[m] != t
    requires g.depends[m] == [] && g.excludes[m] == []
    requires forall i :: 0 <= i < 3 ==> g.order[i] in g.depends && !MustDrop(g, w.states, m, t, caller, g.order[i])
    ensures SetState(g, throws, w, m, t, caller) == Move(throws, w, m, t)
  {
    IsFinish(g, throws, w, m, t, caller);
    hide SetState, Finish, RaiseDepends, DropDependents, DropExcludes, Move, MustDrop;
    RaiseEnds(g, throws, w, m, t, caller);
    SkipsAll(g, throws, w, m, t, caller);
    FinishGoesOn(g, throws, w, w, w, m, t, caller, caller, caller);
    NoneExcluded(g, throws, w, m, t, caller);
  }

  lemma BelowMoves(g: Graph, throws: Faults, w: World, a: Name, b: Name, c: Name)
    requires ErrorOnTop(g, w, a, b, c, Init) && NeverFails(throws)
    ensures var r := SetState(g, throws, w, c, Op, [b]); r.Return? && r.w.states == w.states[c := Op]
  {
    hide SetState, Move, NeverFails;
    OnlyMoves(g, throws, w, c, Op, [b]);
    MovesAlone(throws, w, c, Op);
  }

  lemma AsksBelow(g: Graph, throws: Faults, w: World, a: Name, b: Name, c: Name)
    requires ErrorOnTop(g, w, a, b, c, Init) && NeverFails(throws)
    ensures b in g.depends
    ensures var r1 := RaiseDepends(g, throws, w, b, Op, [], 0);
            r1.Next? && r1.caller == [b] && r1.w.states == w.states[c := Op]
  {
    BelowMoves(g, throws, w, a, b, c);
    hide SetState, RaiseDepends, Move, NeverFails;
    RaiseTurn(g, throws, w, b, Op, [], 0);
    assert [] + [b] == [b];
    RaiseEnds(g, throws, SetState(g, throws, w, c, Op, [b]).w, b, Op, [b]);
  }

  /** The module in the middle asks for the one below it, and then drops nobody: the failed module on top
      of it stays in error. */
  lemma AskingSparesErrors(g: Graph, throws: Faults, w: World, a: Name, b: Name, c: Name)
    requires ErrorOnTop(g, w, a, b, c, Init) && NeverFails(throws)
    ensures var r := SetState(g, throws, w, b, Op, []);
            r.Return? && r.w.states == map[a := Error, b := Op, c := Op]
  {
    AsksBelow(g, throws, w, a, b, c);
    hide SetState, Finish, RaiseDepends, DropDependents, DropExcludes, Move, NeverFails;
    IsFinish(g, throws, w, b, Op, []);
    var w1 := RaiseDepends(g, throws, w, b, Op, [], 0).w;
    CalledDropsNobody(g, throws, w1, b, Op, [b], 0);
    FinishGoesOn(g, throws, w, w1, w1, b, Op, [], [b], [b]);
    NoneExcluded(g, throws, w1, b, Op, [b]);
    MovesAlone(throws, w1, b, Op);
  }

  lemma DropsOnTop(g: Graph, throws: Faults, w: World, a: Name, b: Name, c: Name)
    requires ErrorOnTop(g, w, a, b, c, Op) && NeverFails(throws)
    ensures b in g.depends
    ensures var r2 := DropDependents(g, throws, w, b, Op, [], 0);
            r2.Next? && r2.caller == [b] && r2.w.states == w.states[a := Init]
  {
    ResetsTop(g, throws, w, a, b, c);
    hide SetState, DropDependents, NeverFails;
    DropTurn(g, throws, w, b, Op, [], 0);
    assert [] + [b] == [b];
    CalledDropsNobody(g, throws, SetState(g, throws, w, a, Init, [b]).w, b, Op, [b], 1);
  }

  lemma ResetsTop(g: Graph, throws: Faults, w: World, a: Name, b: Name, c: Name)
    requires ErrorOnTop(g, w, a, b, c, Op) && NeverFails(throws)
    ensures var r := SetState(g, throws, w, a, Init, [b]); r.Return? && r.w.states == w.states[a := Init]
  {
    hide SetState, Finish, RaiseDepends, DropDependents, Move, NeverFails;
    IsFinish(g, throws, w, a, Init, [b]);
    RaiseTurn(g, throws, w, a, Init, [b], 0);
    RaiseEnds(g, throws, w, a, Init, [b]);
    SkipsAll(g, throws, w, a, Init, [b]);
    FinishGoesOn(g, throws, w, w, w, a, Init, [b], [b], [b]);
    MovesAlone(throws, w, a, Init);
  }

  /** With the one below it in op already, it drops the failed module on top of it to init. */
  lemma NotAskingResetsErrors(g: Graph, throws: Faults, w: World, a: Name, b: Name, c: Name)
    requires ErrorOnTop(g, w, a, b, c, Op) && NeverFails(throws)
    ensures var r := SetState(g, throws, w, b, Op, []);
            r.Return? && r.w.states == map[a := Init, b := Op, c := Op]
  {
    DropsOnTop(g, throws, w, a, b, c);
    hide SetState, Finish, RaiseDepends, DropDependents, DropExcludes, Move, NeverFails;
    IsFinish(g, throws, w, b, Op, []);
    RaiseTurn(g, throws, w, b, Op, [], 0);
    RaiseEnds(g, throws, w, b, Op, []);
    var w2 := DropDependents(g, throws, w, b, Op, [], 0).w;
    FinishGoesOn(g, throws, w, w, w2, b, Op, [], [], [b]);
    NoneExcluded(g, throws, w2, b, Op, [b]);
    MovesAlone(throws, w2, b, Op);
  }

  /** Only b and c: b depends on c, and c excludes b; b is on its way up and c in init. */
  ghost predicate Excluding(g: Graph, w: World, b: Name, c: Name) {
    && Fits(g, w) && b != c && g.order == [b, c] && g.depends.Keys == {b, c}
    && g.depends[b] == [c] && g.depends[c] == [] && g.excludes[c] == [b]
    && w.states[b] == Preop && w.states[c] == Init
  }

  /** A module on whose behalf another is raised is not dropped by that one's exclusion: only the other
      moves. */
  lemma CallersAreNotExcluded(g: Graph, throws: Faults, w: World, b: Name, c: Name)
    requires Excluding(g, w, b, c) && NeverFails(throws)
    ensures c in w.states && c in w.calls
    ensures var r := SetState(g, throws, w, c, Op, [b]);
            r.Return? && r == Move(throws, w, c, Op) && r.w.states == w.states[c := Op]
  {
    hide SetState, Finish, RaiseDepends, DropDependents, Move, NeverFails;
    IsFinish(g, throws, w, c, Op, [b]);
    RaiseEnds(g, throws, w, c, Op, [b]);
    Skips(g, throws, w, c, Op, [b], 0);
    Skips(g, throws, w, c, Op, [b], 1);
    DropEnds(g, throws, w, c, Op, [b]);
    FinishGoesOn(g, throws, w, w, w, c, Op, [b], [b], [b]);
    assert DropExcludes(g, throws, w, c, Op, [b], 0) == Next(w, [b]);
    MovesAlone(throws, w, c, Op);
  }

  /** Only a, e and m, where a depends on m, and m excludes e: a and e are above init, m is in init. */
  ghost predicate LeftStanding(g: Graph, w: World, a: Name, e: Name, m: Name) {
    && Fits(g, w) && a != e && a != m && e != m && g.order == [a, e, m] && g.depends.Keys == {a, e, m}
    && g.depends[a] == [m] && g.depends[e] == [] && g.depends[m] == []
    && g.excludes[a] == [] && g.excludes[e] == [] && g.excludes[m] == [e]
    && w.states[a] == Safeop && w.states[e] == Op && w.states[m] == Init
  }

  /** From w to w' only x has moved. */
  ghost predicate StepsOf(w: World, w': World, x: Name) {
    w.steps <= w'.steps && forall i :: |w.steps| <= i < |w'.steps| ==> w'.steps[i].mod == x
  }

  lemma MovesOnlyIt(throws: Faults, w: World, m: Name, t: State)
    requires m in w.states && m in w.calls
    ensures StepsOf(w, Move(throws, w, m, t).w, m)
  {
    hide ModuleDrive, TrailStep;
    MoveEffect(throws, w, m, t);
    var visited := ModuleDrive(w.states[m], t, throws(m), w.calls[m]).visited;
    forall k | 0 <= k < |visited| ensures TrailStep(w.states, m, visited, k).mod == m {
      TrailEffect(w.states, m, visited, k);
    }
  }

  /** A request for init on a module whose dependencies are among the callers and on which nobody stands. */
  lemma OnlyFalls(g: Graph, throws: Faults, w: World, x: Name, caller: seq<Name>)
    requires Fits(g, w) && x in g.depends && |g.order| == 3 && w.states[x] != Init
    requires g.depends[x] == [] || (|g.depends[x]| == 1 && g.depends[x][0] in caller)
    requires forall i :: 0 <= i < 3 ==> g.order[i] in g.depends && x !in g.depends[g.order[i]]
    ensures SetState(g, throws, w, x, Init, caller) == Move(throws, w, x, Init)
  {
    IsFinish(g, throws, w, x, Init, caller);
    hide SetState, Finish, RaiseDepends, DropDependents, Move;
    if g.depends[x] != [] {
      RaiseTurn(g, throws, w, x, Init, caller, 0);
    }
    RaiseEnds(g, throws, w, x, Init, caller);
    SkipsAll(g, throws, w, x, Init, caller);
    FinishGoesOn(g, throws, w, w, w, x, Init, caller, caller, caller);
  }

  lemma DropsStanding(g: Graph, throws: Faults, w: World, a: Name, e: Name, m: Name)
    requires LeftStanding(g, w, a, e, m) && NeverFails(throws)
    ensures a in w.states && a in w.calls && m in g.depends
    ensures var w1 := Move(throws, w, a, Init).w;
            && DropDependents(g, throws, w, m, Preop, [], 0) == Next(w1, [m])
            && Fits(g, w1) && w1.states == w.states[a := Init] && StepsOf(w, w1, a)
  {
    hide SetState, DropDependents, Move, NeverFails, StepsOf;
    MovesAlone(throws, w, a, Init);
    MovesOnlyIt(throws, w, a, Init);
    DropTurn(g, throws, w, m, Preop, [], 0);
    assert [] + [m] == [m];
    OnlyFalls(g, throws, w, a, [m]);
    CalledDropsNobody(g, throws, Move(throws, w, a, Init).w, m, Preop, [m], 1);
  }

  lemma ExcludesOne(g: Graph, throws: Faults, w1: World, m: Name, e: Name)
    requires Fits(g, w1) && m in g.depends && e in g.depends && e != m && g.excludes[m] == [e] && g.depends[e] == []
    requires |g.order| == 3 && forall i :: 0 <= i < 3 ==> g.order[i] in g.depends && e !in g.depends[g.order[i]]
    requires w1.states[e] == Op && NeverFails(throws)
    ensures var w2 := Move(throws, w1, e, Init).w;
            && DropExcludes(g, throws, w1, m, Preop, [m], 0) == Next(w2, [m])
            && Fits(g, w2) && w2.states == w1.states[e := Init] && StepsOf(w1, w2, e)
  {
    MovesAlone(throws, w1, e, Init);
    MovesOnlyIt(throws, w1, e, Init);
    OnlyFalls(g, throws, w1, e, [m]);
    hide SetState, Move, StepsOf, NeverFails;
  }

  /** Dependents are dropped first, then what is excluded, and the module moves last. */
  lemma DropsInOrder(g: Graph, throws: Faults, w: World, a: Name, e: Name, m: Name) returns (w1: World, w2: World)
    requires LeftStanding(g, w, a, e, m) && NeverFails(throws)
    ensures var r := SetState(g, throws, w, m, Preop, []);
            && r.Return? && StepsOf(w, w1, a) && StepsOf(w1, w2, e) && StepsOf(w2, r.w, m)
            && w1.states == w.states[a := Init] && w2.states == w1.states[e := Init]
            && r.w.states == w2.states[m := Preop]
  {
    hide SetState, Finish, RaiseDepends, DropDependents, DropExcludes, Move, NeverFails, StepsOf;
    IsFinish(g, throws, w, m, Preop, []);
    RaiseEnds(g, throws, w, m, Preop, []);
    DropsStanding(g, throws, w, a, e, m);
    w1 := Move(throws, w, a, Init).w;
    ExcludesOne(g, throws, w1, m, e);
    w2 := Move(throws, w1, e, Init).w;
    FinishGoesOn(g, throws, w, w, w1, m, Preop, [], [], [m]);
    MovesAlone(throws, w2, m, Preop);
    MovesOnlyIt(throws, w2, m, Preop);
  }
}
