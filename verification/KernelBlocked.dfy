/** Raising with modules in error around, step by step: modules that are not blocked go up, each once all
    further down is done, and modules in error that stand on one that goes up are reset. */
module KernelBlocked {
  import opened ModuleStates
  import opened Ladder
  import opened KernelModel
  import opened KernelGraph
  import opened KernelRaise
  import opened KernelResult
  import opened KernelFence
  import opened KernelReturns
  import opened KernelAsked

  ghost predicate Operational(v: States) {
    forall x :: x in v ==> Regular(v[x]) || v[x] == Error
  }

  /** No module stands above one of its dependencies, unless it is in error. */
  ghost predicate Kept(g: Graph, v: States) {
    forall a, b :: DependsOn(g, a, b) && a in v && b in v && v[a] != Error ==> Code(v[a]) <= Code(v[b])
  }

  /** What x may be found in after v0: where it was, higher if it goes up, or reset to init if it is loose. */
  ghost predicate MayBe(g: Graph, v0: States, top: Name, t: State, x: Name, s: State)
    requires x in v0
  {
    || s == v0[x]
    || (GoesUp(g, v0, top, t, x) && Regular(s) && Code(v0[x]) < Code(s) <= Code(t))
    || (s == Init && Loose(g, v0, top, t, x))
  }

  ghost predicate Changed(g: Graph, v0: States, v: States, top: Name, t: State) {
    v.Keys == v0.Keys && forall x :: x in v ==> MayBe(g, v0, top, t, x, v[x])
  }

  ghost predicate AtLeast(v: States, y: Name, t: State) {
    y in v ==> v[y] != Error && Code(t) <= Code(v[y])
  }

  /** Everything a request for t on m asks for is at t, as far as it is not blocked. */
  ghost predicate Done(g: Graph, v0: States, v: States, m: Name, t: State) {
    forall y :: GoesUp(g, v0, m, t, y) ==> AtLeast(v, y, t)
  }

  ghost predicate DoneBelow(g: Graph, v0: States, v: States, m: Name, t: State) {
    forall y :: y != m && GoesUp(g, v0, m, t, y) ==> AtLeast(v, y, t)
  }

  /** Whatever went up did so once everything further down was done. */
  ghost predicate InTurn(g: Graph, v0: States, v: States, t: State)
    requires v.Keys == v0.Keys
  {
    forall x :: x in v && v[x] != v0[x] && v0[x] != Error ==> DoneBelow(g, v0, v, x, t)
  }

  ghost predicate Risen(g: Graph, v0: States, v: States, top: Name, t: State) {
    Changed(g, v0, v, top, t) && InTurn(g, v0, v, t)
  }

  ghost predicate RisenSteps(g: Graph, v0: States, w: World, w': World, top: Name, t: State) {
    && w.steps <= w'.steps
    && Risen(g, v0, w'.states, top, t)
    && forall i :: |w.steps| <= i < |w'.steps| ==> Risen(g, v0, w'.steps[i].After(), top, t)
  }

  /** Of the modules that are not in error, only those below that rank changed, and only upward. */
  ghost predicate Upward(rank: Rank, v: States, v': States, below: nat) {
    v'.Keys == v.Keys
    && forall x :: x in v ==>
         v[x] == Error || v'[x] == v[x] || (Code(v[x]) < Code(v'[x]) && rank(x) < below && v'[x] != Error)
  }

  /** What the requests below assume of the state they start from. */
  ghost predicate Ready(g: Graph, rank: Rank, v0: States, w: World, top: Name, t: State) {
    && Fits(g, w) && IsRank(g, rank) && NoExcludes(g) && Regular(t)
    && Operational(v0) && Kept(g, v0) && ErrorsAside(g, v0, top, t) && Risen(g, v0, w.states, top, t)
  }

  /** The first i dependencies of m: none in error, and everything done on their behalf. */
  ghost predicate RaisedSoFar(g: Graph, v0: States, v: States, m: Name, t: State, i: nat)
    requires m in g.depends && i <= |g.depends[m]|
  {
    forall j :: 0 <= j < i ==> DependencyRaised(g, v0, v, g.depends[m][j], t)
  }

  ghost predicate DependencyRaised(g: Graph, v0: States, v: States, d: Name, t: State) {
    !InError(v, d) && Done(g, v0, v, d, t)
  }

  lemma RisenStepsOn(g: Graph, v0: States, a: World, b: World, c: World, top: Name, t: State)
    requires RisenSteps(g, v0, a, b, top, t) && RisenSteps(g, v0, b, c, top, t)
    ensures RisenSteps(g, v0, a, c, top, t)
  {
    hide Risen;
    forall i | |a.steps| <= i < |c.steps| ensures Risen(g, v0, c.steps[i].After(), top, t) {
      if i < |b.steps| {
        assert c.steps[i] == b.steps[i];
      }
    }
  }

  lemma UpwardOn(rank: Rank, a: States, b: States, c: States, n: nat, k: nat, below: nat)
    requires Upward(rank, a, b, n) && Upward(rank, b, c, k) && n <= below && k <= below
    ensures Upward(rank, a, c, below)
  {
  }

  lemma NothingRisen(g: Graph, rank: Rank, v0: States, w: World, top: Name, t: State, below: nat)
    requires Risen(g, v0, w.states, top, t)
    ensures RisenSteps(g, v0, w, w, top, t) && Upward(rank, w.states, w.states, below)
  {
    hide Risen;
  }

  lemma RisenKeys(g: Graph, v0: States, v: States, top: Name, t: State)
    requires Risen(g, v0, v, top, t)
    ensures v.Keys == v0.Keys
  {
  }

  lemma RisenMayBe(g: Graph, v0: States, v: States, top: Name, t: State, x: Name)
    requires Risen(g, v0, v, top, t) && x in v
    ensures x in v0 && MayBe(g, v0, top, t, x, v[x])
  {
    hide MayBe, InTurn;
  }

  /** Dependencies of modules asked for are in error if they were. */
  lemma ErrorAsBefore(g: Graph, v0: States, v: States, top: Name, t: State, m: Name, d: Name)
    requires Risen(g, v0, v, top, t) && ErrorsAside(g, v0, top, t) && Asked(g, v0, top, t, m) && DependsOn(g, m, d)
    ensures InError(v, d) <==> InError(v0, d)
  {
    hide Asked, Loose, Risen, ErrorsAside;
    RisenKeys(g, v0, v, top, t);
    NotLoose(g, v0, top, t, m, d);
    if d in v {
      RisenMayBe(g, v0, v, top, t, d);
    }
  }

  /** Who was not in error can only have gone up, and who was can only have been reset. */
  lemma BelowBefore(g: Graph, v0: States, v: States, top: Name, t: State, x: Name)
    requires Risen(g, v0, v, top, t) && x in v && x in v0
    ensures v0[x] != Error ==> v[x] != Error && Code(v0[x]) <= Code(v[x])
    ensures v[x] != Error && v0[x] == Error ==> v[x] == Init && Loose(g, v0, top, t, x)
  {
    hide Asked, GoesUp, Loose, Risen;
    RisenMayBe(g, v0, v, top, t, x);
    if Loose(g, v0, top, t, x) {
      var low, y := LooseIs(g, v0, top, t, x);
    }
  }

  lemma DependencyIs(g: Graph, v0: States, v: States, m: Name, d: Name, t: State)
    requires m in g.depends && RaisedSoFar(g, v0, v, m, t, |g.depends[m]|) && DependsOn(g, m, d)
    ensures DependencyRaised(g, v0, v, d, t)
  {
    var j :| 0 <= j < |g.depends[m]| && g.depends[m][j] == d;
  }

  /** When the loop is over, or stops at the i-th dependency, all is done that is asked for below m. */
  lemma BelowDone(g: Graph, v0: States, v: States, m: Name, t: State, i: nat)
    requires m in g.depends && i <= |g.depends[m]| && RaisedSoFar(g, v0, v, m, t, i)
    requires i == |g.depends[m]| || InError(v0, g.depends[m][i])
    ensures DoneBelow(g, v0, v, m, t)
  {
    hide Blocked, Asked, AtLeast;
    forall y | y != m && GoesUp(g, v0, m, t, y) ensures AtLeast(v, y, t) {
      var d := AskedFirst(g, v0, m, t, y);
      AskedIs(g, v0, d, t, y);
      var k :| 0 <= k < |g.depends[m]| && g.depends[m][k] == d && FreeBefore(g, v0, m, k);
      assert k < i;
      assert DependencyRaised(g, v0, v, d, t);
      assert GoesUp(g, v0, d, t, y);
    }
  }

  lemma DoneOn(g: Graph, rank: Rank, v0: States, v: States, v': States, m: Name, t: State, below: nat)
    requires Upward(rank, v, v', below)
    ensures Done(g, v0, v, m, t) ==> Done(g, v0, v', m, t)
    ensures DoneBelow(g, v0, v, m, t) ==> DoneBelow(g, v0, v', m, t)
  {
    hide GoesUp;
  }

  lemma DoneWith(g: Graph, v0: States, v: States, m: Name, t: State)
    requires DoneBelow(g, v0, v, m, t) && (GoesUp(g, v0, m, t, m) ==> AtLeast(v, m, t))
    ensures Done(g, v0, v, m, t)
  {
    hide GoesUp, AtLeast;
  }

  /** Where d is at t, all is done on its behalf: it was high enough before, or was raised in turn. */
  lemma AlreadyDone(g: Graph, v0: States, v: States, d: Name, top: Name, t: State)
    requires Risen(g, v0, v, top, t) && d in v && v[d] != Error && Code(t) <= Code(v[d]) && Regular(t) && t != Init
    ensures DependencyRaised(g, v0, v, d, t)
  {
    hide Asked, Blocked, DoneBelow, Done, Loose;
    if v[d] == v0[d] {
      NoneAsked(g, v0, v, d, t);
    } else {
      RisenMayBe(g, v0, v, top, t, d);
      assert v0[d] != Error && AtLeast(v, d, t);
      DoneWith(g, v0, v, d, t);
    }
  }

  lemma NoneAsked(g: Graph, v0: States, v: States, d: Name, t: State)
    requires !BelowIn(v0, d, t)
    ensures Done(g, v0, v, d, t)
  {
    hide Asked, Blocked, AtLeast;
    forall y ensures !GoesUp(g, v0, d, t, y) {
      if Asked(g, v0, d, t, y) {
        AskedIs(g, v0, d, t, y);
      }
    }
  }

  lemma NotBlocked(g: Graph, v0: States, v: States, m: Name, top: Name, t: State)
    requires m in g.depends && RaisedSoFar(g, v0, v, m, t, |g.depends[m]|) && Risen(g, v0, v, top, t)
    requires ErrorsAside(g, v0, top, t) && Asked(g, v0, top, t, m)
    ensures GoesUp(g, v0, top, t, m)
  {
    hide RaisedSoFar, Asked, Done, Risen, ErrorsAside;
    forall d | DependsOn(g, m, d) && d in v0 ensures v0[d] != Error {
      DependencyIs(g, v0, v, m, d, t);
      ErrorAsBefore(g, v0, v, top, t, m, d);
    }
  }

  /** Moving m itself, with its dependencies raised. */
  lemma LiftRisen(g: Graph, v0: States, v: States, m: Name, s: State, top: Name, t: State)
    requires Risen(g, v0, v, top, t) && m in v && GoesUp(g, v0, top, t, m) && DoneBelow(g, v0, v, m, t)
    requires Regular(s) && v[m] != Error && Code(v[m]) < Code(s) <= Code(t)
    ensures Risen(g, v0, v[m := s], top, t)
  {
    hide GoesUp, Loose, DoneBelow;
    var v' := v[m := s];
    LiftMayBe(g, v0, v, m, s, top, t);
    forall x | x in v' && v'[x] != v0[x] && v0[x] != Error ensures DoneBelow(g, v0, v', x, t) {
      assert DoneBelow(g, v0, v, x, t);
      LiftDone(g, v0, v, m, s, x, t);
    }
  }

  lemma LiftMayBe(g: Graph, v0: States, v: States, m: Name, s: State, top: Name, t: State)
    requires Risen(g, v0, v, top, t) && m in v && GoesUp(g, v0, top, t, m)
    requires Regular(s) && v[m] != Error && Code(v[m]) < Code(s) <= Code(t)
    ensures Changed(g, v0, v[m := s], top, t)
  {
    hide Asked, Blocked, Loose;
    AskedIs(g, v0, top, t, m);
    BelowBefore(g, v0, v, top, t, m);
    assert MayBe(g, v0, top, t, m, s);
    hide MayBe;
  }

  lemma LiftDone(g: Graph, v0: States, v: States, m: Name, s: State, x: Name, t: State)
    requires m in v && v[m] != Error && Regular(s) && Code(v[m]) < Code(s) && DoneBelow(g, v0, v, x, t)
    ensures DoneBelow(g, v0, v[m := s], x, t)
  {
    hide GoesUp;
  }

  lemma TrailRisen(g: Graph, v0: States, w: World, w': World, m: Name, visited: seq<State>, top: Name, t: State)
    requires Risen(g, v0, w.states, top, t) && m in w.states && GoesUp(g, v0, top, t, m)
    requires DoneBelow(g, v0, w.states, m, t) && w.states[m] != Error
    requires Moved(w, w', m, visited) && Rises(w.states[m], visited, t)
    ensures forall i :: |w.steps| <= i < |w'.steps| ==> Risen(g, v0, w'.steps[i].After(), top, t)
  {
    hide Risen, GoesUp, DoneBelow, TrailStep;
    forall i | |w.steps| <= i < |w'.steps| ensures Risen(g, v0, w'.steps[i].After(), top, t) {
      var k := i - |w.steps|;
      TrailEffect(w.states, m, visited, k);
      LiftRisen(g, v0, w.states, m, visited[k], top, t);
    }
  }

  lemma MoveRisen(g: Graph, rank: Rank, throws: Faults, v0: States, w: World, m: Name, top: Name, t: State)
    requires Ready(g, rank, v0, w, top, t) && m in g.depends && GoesUp(g, v0, top, t, m)
    requires DoneBelow(g, v0, w.states, m, t) && Regular(w.states[m]) && Code(w.states[m]) < Code(t)
    ensures var r := Move(throws, w, m, t);
            && RisenSteps(g, v0, w, r.w, top, t) && Upward(rank, w.states, r.w.states, rank(m) + 1)
            && (r.Return? ==> Done(g, v0, r.w.states, m, t))
  {
    hide Risen, ModuleDrive, Move, TrailStep, GoesUp, Done, DoneBelow;
    RisenKeys(g, v0, w.states, top, t);
    assert w.states[m := w.states[m]] == w.states;
    var visited := ModuleDrive(w.states[m], t, throws(m), w.calls[m]).visited;
    var w' := Move(throws, w, m, t).w;
    MoveEffect(throws, w, m, t);
    DriveRises(w.states[m], t, throws(m), w.calls[m]);
    TrailRisen(g, v0, w, w', m, visited, top, t);
    if visited != [] {
      LiftRisen(g, v0, w.states, m, visited[|visited| - 1], top, t);
    }
    MoveSucceeds(throws, w, m, t);
    DoneOn(g, rank, v0, w.states, w'.states, m, t, rank(m) + 1);
    if Move(throws, w, m, t).Return? {
      DoneWith(g, v0, w'.states, m, t);
    }
  }

  lemma StillReady(g: Graph, rank: Rank, v0: States, w: World, w': World, top: Name, t: State)
    requires Ready(g, rank, v0, w, top, t) && Fits(g, w') && RisenSteps(g, v0, w, w', top, t)
    ensures Ready(g, rank, v0, w', top, t)
  {
  }

  /** A module that is not in error, and whose rank is not below the bound, has not moved. */
  lemma Spared(rank: Rank, v: States, v': States, below: nat, m: Name)
    requires Upward(rank, v, v', below) && m in v && below <= rank(m) && v[m] != Error
    ensures m in v' && v'[m] == v[m]
  {
  }

  ghost predicate Below(w: World, m: Name, t: State) {
    m in w.states && Regular(w.states[m]) && Code(w.states[m]) < Code(t)
  }

  // Dropping what stands on a module that goes up.

  /** The loose modules, as a fence around what a request for init on one of them sets off. */
  ghost function LooseFence(g: Graph, v0: States, w: World, top: Name, t: State, caller: seq<Name>): Fence {
    Fence(w.states, w.steps, t, {}, set e | e in w.states && Loose(g, v0, top, t, e), set c <- caller)
  }

  lemma LooseFenced(g: Graph, rank: Rank, v0: States, w: World, top: Name, t: State, caller: seq<Name>)
    requires Ready(g, rank, v0, w, top, t) && t != Init
    ensures var f := LooseFence(g, v0, w, top, t, caller); Fenced(g, f) && Inside(g, f, w) && NoneResists(f, caller)
  {
    hide Loose, Asked, Stuck, StuckBefore, Risen, IsRank, NoExcludes, Blocked, Kept;
    var f := LooseFence(g, v0, w, top, t, caller);
    RisenKeys(g, v0, w.states, top, t);
    forall x, y | x in f.lowered && DependsOn(g, y, x) && y in w.states ensures w.states[y] == Init || y in f.lowered {
      RisenMayBe(g, v0, w.states, top, t, y);
      if InError(v0, y) {
        LooseOn(g, v0, top, t, y, x);
      } else if Loose(g, v0, top, t, y) {
        var low, z := LooseIs(g, v0, top, t, y);
      }
    }
    forall x | x in w.states ensures w.states[x] != Boot {
      RisenMayBe(g, v0, w.states, top, t, x);
    }
    hide ErrorsAside, Operational;
    assert Within(g, f, w.states);
  }

  lemma ResetMayBe(g: Graph, rank: Rank, v0: States, w: World, u: States, top: Name, t: State, caller: seq<Name>,
          x: Name)
    requires Ready(g, rank, v0, w, top, t) && Spread(g, LooseFence(g, v0, w, top, t, caller), u) && x in u
    ensures x in w.states && x in v0 && MayBe(g, v0, top, t, x, u[x])
    ensures u[x] == w.states[x] || (u[x] == Init && w.states[x] == Error && v0[x] == Error)
  {
    hide Loose, Asked, Blocked, Stuck, Risen, IsRank, NoExcludes, Kept, ErrorsAside, Operational;
    var f := LooseFence(g, v0, w, top, t, caller);
    assert OnTheWay(g, f, x, u[x]);
    RisenKeys(g, v0, w.states, top, t);
    RisenMayBe(g, v0, w.states, top, t, x);
    if Asked(g, v0, top, t, x) {
      AskedIs(g, v0, top, t, x);
    }
    if Loose(g, v0, top, t, x) {
      var low, z := LooseIs(g, v0, top, t, x);
    }
  }

  /** Inside that fence modules are only reset, which keeps what is asked of the raising. */
  lemma ResetRisen(g: Graph, rank: Rank, v0: States, w: World, u: States, top: Name, t: State, caller: seq<Name>)
    requires Ready(g, rank, v0, w, top, t) && Spread(g, LooseFence(g, v0, w, top, t, caller), u)
    ensures Risen(g, v0, u, top, t) && Upward(rank, w.states, u, 0)
  {
    hide Loose, GoesUp, Stuck, OnTheWay, MayBe, IsRank, NoExcludes, Kept, ErrorsAside, Operational, DoneBelow;
    forall x | x in u
      ensures x in w.states && x in v0 && MayBe(g, v0, top, t, x, u[x])
      ensures u[x] == w.states[x] || (u[x] == Init && w.states[x] == Error && v0[x] == Error)
    {
      ResetMayBe(g, rank, v0, w, u, top, t, caller, x);
    }
    forall x | x in u && u[x] != v0[x] && v0[x] != Error ensures DoneBelow(g, v0, u, x, t) {
      assert DoneBelow(g, v0, w.states, x, t);
      DoneOn(g, rank, v0, w.states, u, x, t, 0);
    }
  }

  /** Who is dropped when m goes up: a module in error, which is loose then. */
  lemma DroppedIsLoose(g: Graph, rank: Rank, v0: States, w: World, m: Name, top: Name, t: State, caller: seq<Name>,
          x: Name)
    requires Ready(g, rank, v0, w, top, t) && GoesUp(g, v0, top, t, m) && Below(w, m, t)
    requires x in g.depends && x in w.states && MustDrop(g, w.states, m, t, caller, x)
    ensures Foreseen(LooseFence(g, v0, w, top, t, caller + [m]), x, Init)
  {
    hide Loose, Asked, Blocked, Risen, IsRank, NoExcludes, ErrorsAside, Operational;
    assert DependsOn(g, x, m);
    RisenKeys(g, v0, w.states, top, t);
    RisenMayBe(g, v0, w.states, top, t, x);
    BelowBefore(g, v0, w.states, top, t, m);
    AskedIs(g, v0, top, t, m);
    if InError(v0, x) {
      LooseOver(g, v0, top, t, x, m);
    }
  }

  lemma {:induction false} DropRisen(g: Graph, rank: Rank, throws: Faults, v0: States, w: World, m: Name, top: Name,
          t: State, caller: seq<Name>, i: nat)
    requires Ready(g, rank, v0, w, top, t) && m in g.depends && GoesUp(g, v0, top, t, m) && Below(w, m, t)
    requires i <= |g.order| && t != Init
    ensures var r := DropDependents(g, throws, w, m, t, caller, i);
            && RisenSteps(g, v0, w, r.w, top, t) && Upward(rank, w.states, r.w.states, 0)
            && !r.Return?
    decreases |g.order| - i
  {
    hide SetState, DropDependents, Risen, RisenSteps, Upward, GoesUp, IsRank, NoExcludes, Kept, ErrorsAside,
         Operational, LooseFence, Fenced, Inside, Keeps, Foreseen;
    NothingRisen(g, rank, v0, w, top, t, 0);
    if i == |g.order| {
      DropEnds(g, throws, w, m, t, caller);
    } else {
      DropTurn(g, throws, w, m, t, caller, i);
      var x := g.order[i];
      if x in g.depends && MustDrop(g, w.states, m, t, caller, x) {
        ResetOne(g, rank, throws, v0, w, m, top, t, caller, x);
        var r := SetState(g, throws, w, x, Init, caller + [m]);
        if !r.Throw? {
          StillReady(g, rank, v0, w, r.w, top, t);
          Spared(rank, w.states, r.w.states, 0, m);
          DropRisen(g, rank, throws, v0, r.w, m, top, t, caller + [m], i + 1);
          var all := DropDependents(g, throws, r.w, m, t, caller + [m], i + 1);
          RisenStepsOn(g, v0, w, r.w, all.w, top, t);
          UpwardOn(rank, w.states, r.w.states, all.w.states, 0, 0, 0);
        }
      } else {
        DropRisen(g, rank, throws, v0, w, m, top, t, caller, i + 1);
      }
    }
  }

  lemma ResetOne(g: Graph, rank: Rank, throws: Faults, v0: States, w: World, m: Name, top: Name, t: State,
          caller: seq<Name>, x: Name)
    requires Ready(g, rank, v0, w, top, t) && GoesUp(g, v0, top, t, m) && Below(w, m, t) && t != Init
    requires x in g.depends && MustDrop(g, w.states, m, t, caller, x)
    ensures var r := SetState(g, throws, w, x, Init, caller + [m]);
            RisenSteps(g, v0, w, r.w, top, t) && Upward(rank, w.states, r.w.states, 0)
  {
    hide SetState, Risen, Upward, GoesUp, IsRank, NoExcludes, Kept, ErrorsAside, Operational, Fenced, Within, Spread,
         Foreseen;
    var f := LooseFence(g, v0, w, top, t, caller + [m]);
    DroppedIsLoose(g, rank, v0, w, m, top, t, caller, x);
    LooseFenced(g, rank, v0, w, top, t, caller + [m]);
    SetStateKeeps(g, f, throws, w, x, Init, caller + [m]);
    var r := SetState(g, throws, w, x, Init, caller + [m]);
    ResetRisen(g, rank, v0, w, r.w.states, top, t, caller + [m]);
    forall i | |w.steps| <= i < |r.w.steps| ensures Risen(g, v0, r.w.steps[i].After(), top, t) {
      ResetRisen(g, rank, v0, w, r.w.steps[i].After(), top, t, caller + [m]);
    }
  }

  // Raising.

  /** What one request achieves: nothing but safe raises and resets, and if it comes back, all raises. */
  ghost predicate Achieved(g: Graph, rank: Rank, v0: States, w: World, r: Flow, m: Name, top: Name, t: State) {
    && RisenSteps(g, v0, w, r.w, top, t) && Upward(rank, w.states, r.w.states, rank(m) + 1)
    && (r.Return? ==> Done(g, v0, r.w.states, m, t))
  }

  lemma {:induction false} SetStateRisen(g: Graph, rank: Rank, throws: Faults, v0: States, w: World, m: Name, top: Name,
          t: State, caller: seq<Name>)
    requires Ready(g, rank, v0, w, top, t) && m in g.depends && Asked(g, v0, top, t, m) && CallersAbove(rank, caller, m)
    requires Below(w, m, t)
    ensures Achieved(g, rank, v0, w, SetState(g, throws, w, m, t, caller), m, top, t)
    decreases rank(m), 1, 0
  {
    hide RaiseDepends, SetState, Finish, Risen, RisenSteps, Upward, RaisedSoFar, Blocked, CallersAbove, CallersNotBelow,
         Asked, Done, DoneBelow, Operational, Kept, ErrorsAside, NoExcludes, IsRank;
    IsFinish(g, throws, w, m, t, caller);
    NoneYet(g, rank, v0, w.states, m, t, caller);
    LoopRisen(g, rank, throws, v0, w, m, top, t, caller, 0);
    var r1 := RaiseDepends(g, throws, w, m, t, caller, 0);
    StillReady(g, rank, v0, w, r1.w, top, t);
    if r1.Next? {
      Spared(rank, w.states, r1.w.states, rank(m), m);
      NotBlocked(g, v0, r1.w.states, m, top, t);
      BelowDone(g, v0, r1.w.states, m, t, |g.depends[m]|);
      LastStretch(g, rank, throws, v0, w, r1.w, m, top, t, caller, r1.caller);
      var r := Finish(g, throws, w, m, t, caller);
      RisenStepsOn(g, v0, w, r1.w, r.w, top, t);
      UpwardOn(rank, w.states, r1.w.states, r.w.states, rank(m), rank(m) + 1, rank(m) + 1);
    } else {
      FinishStopsRaising(g, throws, w, m, t, caller);
      UpwardOn(rank, w.states, r1.w.states, r1.w.states, rank(m), rank(m), rank(m) + 1) by {
        NothingRisen(g, rank, v0, r1.w, top, t, rank(m));
      }
      if r1.Return? {
        DoneWith(g, v0, r1.w.states, m, t);
      }
    }
  }

  lemma NoneYet(g: Graph, rank: Rank, v0: States, v: States, m: Name, t: State, caller: seq<Name>)
    requires m in g.depends && CallersAbove(rank, caller, m)
    ensures RaisedSoFar(g, v0, v, m, t, 0) && CallersNotBelow(rank, caller, m)
  {
  }

  /** Past the first loop: what stands on m is dropped, and m moves. */
  lemma LastStretch(g: Graph, rank: Rank, throws: Faults, v0: States, w: World, w1: World, m: Name, top: Name, t: State,
          caller: seq<Name>, caller1: seq<Name>)
    requires Fits(g, w) && Ready(g, rank, v0, w1, top, t) && m in g.depends && Below(w1, m, t)
    requires GoesUp(g, v0, top, t, m) && DoneBelow(g, v0, w1.states, m, t)
    requires RaiseDepends(g, throws, w, m, t, caller, 0) == Next(w1, caller1)
    ensures Achieved(g, rank, v0, w1, Finish(g, throws, w, m, t, caller), m, top, t)
  {
    hide RaiseDepends, DropDependents, DropExcludes, Finish, Move, Risen, RisenSteps, Upward, Kept, ErrorsAside, GoesUp,
         Done, DoneBelow, Operational, NoExcludes;
    DropRisen(g, rank, throws, v0, w1, m, top, t, caller1, 0);
    var r2 := DropDependents(g, throws, w1, m, t, caller1, 0);
    if r2.Next? {
      StillReady(g, rank, v0, w1, r2.w, top, t);
      Spared(rank, w1.states, r2.w.states, 0, m);
      DoneOn(g, rank, v0, w1.states, r2.w.states, m, t, 0);
      FinishGoesOn(g, throws, w, w1, r2.w, m, t, caller, caller1, r2.caller);
      NothingToExclude(g, throws, r2.w, m, t, r2.caller);
      MoveRisen(g, rank, throws, v0, r2.w, m, top, t);
      AchievedOn(g, rank, v0, w1, r2.w, Move(throws, r2.w, m, t), m, top, t);
    } else {
      FinishStopsDropping(g, throws, w, w1, m, t, caller, caller1);
      NothingRisen(g, rank, v0, r2.w, top, t, 0) by { LastRisen(g, v0, w1, r2.w, top, t); }
      UpwardOn(rank, w1.states, r2.w.states, r2.w.states, 0, 0, rank(m) + 1);
    }
  }

  lemma AchievedOn(g: Graph, rank: Rank, v0: States, w: World, w': World, r: Flow, m: Name, top: Name, t: State)
    requires RisenSteps(g, v0, w, w', top, t) && Upward(rank, w.states, w'.states, 0)
    requires Achieved(g, rank, v0, w', r, m, top, t)
    ensures Achieved(g, rank, v0, w, r, m, top, t)
  {
    hide RisenSteps, Upward, Done;
    RisenStepsOn(g, v0, w, w', r.w, top, t);
    UpwardOn(rank, w.states, w'.states, r.w.states, 0, rank(m) + 1, rank(m) + 1);
  }

  lemma LastRisen(g: Graph, v0: States, w: World, w': World, top: Name, t: State)
    requires RisenSteps(g, v0, w, w', top, t)
    ensures Risen(g, v0, w'.states, top, t)
  {
  }

  lemma NothingToExclude(g: Graph, throws: Faults, w: World, m: Name, t: State, caller: seq<Name>)
    requires Fits(g, w) && m in g.depends && t != Init && NoExcludes(g)
    ensures DropExcludes(g, throws, w, m, t, caller, 0) == Next(w, caller)
  {
    hide SetState;
  }

  lemma {:induction false} LoopRisen(g: Graph, rank: Rank, throws: Faults, v0: States, w: World, m: Name,
          top: Name, t: State, caller: seq<Name>, i: nat)
    requires Ready(g, rank, v0, w, top, t) && m in g.depends && Asked(g, v0, top, t, m)
    requires CallersNotBelow(rank, caller, m)
    requires i <= |g.depends[m]| && RaisedSoFar(g, v0, w.states, m, t, i) && t != Init
    ensures var r := RaiseDepends(g, throws, w, m, t, caller, i);
            && RisenSteps(g, v0, w, r.w, top, t) && Upward(rank, w.states, r.w.states, rank(m))
            && (r.Next? ==> RaisedSoFar(g, v0, r.w.states, m, t, |g.depends[m]|))
            && (r.Return? ==> DoneBelow(g, v0, r.w.states, m, t) && Blocked(g, v0, m))
    decreases rank(m), 0, |g.depends[m]| - i
  {
    hide SetState, RaiseDepends, Risen, RisenSteps, Upward, RaisedSoFar, DependencyRaised, Blocked, CallersAbove,
         CallersNotBelow, Asked, Done, DoneBelow, Operational, Kept, ErrorsAside, NoExcludes, IsRank;
    NothingRisen(g, rank, v0, w, top, t, rank(m));
    if i == |g.depends[m]| {
      RaiseEnds(g, throws, w, m, t, caller);
    } else {
      RaiseTurn(g, throws, w, m, t, caller, i);
      var d := g.depends[m][i];
      TurnFacts(g, rank, v0, w, m, top, t, caller, i);
      if d in g.depends && MustRaise(w.states, d, t) {
        SetStateRisen(g, rank, throws, v0, w, d, top, t, caller + [m]);
        var r := SetState(g, throws, w, d, t, caller + [m]);
        OneRaised(g, rank, v0, w, r, m, top, t, i);
        if !r.Throw? {
          StillReady(g, rank, v0, w, r.w, top, t);
          LoopRisen(g, rank, throws, v0, r.w, m, top, t, caller + [m], i + 1);
          var all := RaiseDepends(g, throws, r.w, m, t, caller + [m], i + 1);
          RisenStepsOn(g, v0, w, r.w, all.w, top, t);
          UpwardOn(rank, w.states, r.w.states, all.w.states, rank(m), rank(m), rank(m));
        }
      } else if d in g.depends && w.states[d] != Error {
        AlreadyDone(g, v0, w.states, d, top, t);
        RaisedOne(g, v0, w.states, m, t, i);
        LoopRisen(g, rank, throws, v0, w, m, top, t, caller, i + 1);
      } else if d in g.depends {
        StopsAt(g, v0, w.states, m, top, t, i);
      }
    }
  }

  lemma StopsAt(g: Graph, v0: States, v: States, m: Name, top: Name, t: State, i: nat)
    requires m in g.depends && i < |g.depends[m]| && RaisedSoFar(g, v0, v, m, t, i)
    requires Risen(g, v0, v, top, t) && ErrorsAside(g, v0, top, t) && Asked(g, v0, top, t, m)
    requires InError(v, g.depends[m][i])
    ensures DoneBelow(g, v0, v, m, t) && Blocked(g, v0, m)
  {
    hide Asked, DoneBelow, RaisedSoFar, Risen, ErrorsAside;
    var d := g.depends[m][i];
    assert DependsOn(g, m, d);
    ErrorAsBefore(g, v0, v, top, t, m, d);
    BelowDone(g, v0, v, m, t, i);
  }

  /** One turn of the loop over the dependencies, on an acyclic graph. */
  lemma TurnFacts(g: Graph, rank: Rank, v0: States, w: World, m: Name, top: Name, t: State, caller: seq<Name>, i: nat)
    requires Ready(g, rank, v0, w, top, t) && m in g.depends && Asked(g, v0, top, t, m)
    requires CallersNotBelow(rank, caller, m)
    requires i < |g.depends[m]| && RaisedSoFar(g, v0, w.states, m, t, i)
    ensures var d := g.depends[m][i];
            && d !in caller && rank(d) < rank(m)
            && CallersAbove(rank, caller + [m], d) && CallersNotBelow(rank, caller + [m], m)
            && (d in g.depends ==> Regular(w.states[d]) || w.states[d] == Error)
            && (d in g.depends && MustRaise(w.states, d, t) ==> Below(w, d, t) && Asked(g, v0, top, t, d))
  {
    hide Asked, Blocked, Loose, Kept, ErrorsAside, NoExcludes, RaisedSoFar, Risen, FreeBefore;
    var d := g.depends[m][i];
    assert DependsOn(g, m, d);
    FreeSoFar(g, v0, w.states, m, top, t, i);
    if d in g.depends {
      RisenKeys(g, v0, w.states, top, t);
      RisenMayBe(g, v0, w.states, top, t, d);
      ErrorAsBefore(g, v0, w.states, top, t, m, d);
      BelowBefore(g, v0, w.states, top, t, d);
      if BelowIn(v0, d, t) {
        assert GetsTo(g, v0, m, d);
        AskedOn(g, v0, top, t, m, d);
      }
    }
  }

  lemma FreeSoFar(g: Graph, v0: States, v: States, m: Name, top: Name, t: State, i: nat)
    requires m in g.depends && i <= |g.depends[m]| && RaisedSoFar(g, v0, v, m, t, i)
    requires Risen(g, v0, v, top, t) && ErrorsAside(g, v0, top, t) && Asked(g, v0, top, t, m)
    ensures FreeBefore(g, v0, m, i)
  {
    hide Asked, Done, Risen, ErrorsAside;
    forall j | 0 <= j < i ensures !InError(v0, g.depends[m][j]) {
      var d := g.depends[m][j];
      assert DependencyRaised(g, v0, v, d, t) && DependsOn(g, m, d);
      ErrorAsBefore(g, v0, v, top, t, m, d);
    }
  }

  lemma RaisedOn(g: Graph, rank: Rank, v0: States, v: States, v': States, m: Name, t: State, i: nat, below: nat)
    requires m in g.depends && i <= |g.depends[m]| && RaisedSoFar(g, v0, v, m, t, i) && Upward(rank, v, v', below)
    ensures RaisedSoFar(g, v0, v', m, t, i)
  {
    hide Done;
    forall j | 0 <= j < i ensures DependencyRaised(g, v0, v', g.depends[m][j], t) {
      assert DependencyRaised(g, v0, v, g.depends[m][j], t);
      DoneOn(g, rank, v0, v, v', g.depends[m][j], t, below);
    }
  }

  lemma RaisedOne(g: Graph, v0: States, v: States, m: Name, t: State, i: nat)
    requires m in g.depends && i < |g.depends[m]| && RaisedSoFar(g, v0, v, m, t, i)
    requires DependencyRaised(g, v0, v, g.depends[m][i], t)
    ensures RaisedSoFar(g, v0, v, m, t, i + 1)
  {
    hide DependencyRaised;
  }

  lemma OneRaised(g: Graph, rank: Rank, v0: States, w: World, r: Flow, m: Name, top: Name, t: State, i: nat)
    requires m in g.depends && i < |g.depends[m]| && RaisedSoFar(g, v0, w.states, m, t, i)
    requires Achieved(g, rank, v0, w, r, g.depends[m][i], top, t) && rank(g.depends[m][i]) < rank(m)
    requires g.depends[m][i] in w.states && w.states[g.depends[m][i]] != Error
    ensures RisenSteps(g, v0, w, r.w, top, t) && Upward(rank, w.states, r.w.states, rank(m))
    ensures r.Return? ==> RaisedSoFar(g, v0, r.w.states, m, t, i + 1)
  {
    hide Risen, RisenSteps, RaisedSoFar, Done;
    var d := g.depends[m][i];
    RaisedOn(g, rank, v0, w.states, r.w.states, m, t, i, rank(d) + 1);
    if r.Return? {
      RaisedOne(g, v0, r.w.states, m, t, i);
    }
  }
}
