/** How far a request can spread, on graphs of any shape, with any hooks throwing: which modules it may
    raise, which it may lower, and so which modules in error it cannot take out of error. */
module KernelFence {
  import opened ModuleStates
  import opened Ladder
  import opened LadderProofs
  import opened KernelModel
  import opened KernelGraph
  import opened KernelResult

  /** Two sets a request for target t is to stay in when it starts from the states v: the modules it asks
      for t and those it asks for init. Modules in error among its callers are in calling; past are the
      steps made before. */
  datatype Fence = Fence(
    v: States, past: seq<Step>, t: State, raised: set<Name>, lowered: set<Name>, calling: set<Name>)

  /** d is in error, stays so, and is met by whoever depends on it. */
  ghost predicate Resists(f: Fence, d: Name) {
    d in f.v && f.v[d] == Error && d !in f.lowered && d !in f.calling
  }

  ghost predicate Stuck(g: Graph, f: Fence, x: Name) {
    exists d :: DependsOn(g, x, d) && Resists(f, d)
  }

  /** One of the first i dependencies of x resists, so that a request for x does not get to the i-th. */
  ghost predicate StuckBefore(g: Graph, f: Fence, x: Name, i: nat)
    requires x in g.depends && i <= |g.depends[x]|
  {
    exists j :: 0 <= j < i && Resists(f, g.depends[x][j])
  }

  /** Whom a request for t asks for t, besides its own module: the dependencies below t, and those in boot,
      that it gets to. */
  ghost predicate ClosedUpward(g: Graph, f: Fence) {
    forall x, i :: x in f.raised && x in g.depends && 0 <= i < |g.depends[x]| && !StuckBefore(g, f, x, i) ==>
                     LetsGo(f, g.depends[x][i])
  }

  ghost predicate LetsGo(f: Fence, d: Name) {
    d in f.raised
    || (d in f.v ==> d !in f.lowered && (f.v[d] == Error || (Code(f.t) <= Code(f.v[d]) && f.v[d] != Boot)))
  }

  /** Whom it asks for init: dependents above t, and what is excluded, unless a dependency in error stops it. */
  ghost predicate ClosedAround(g: Graph, f: Fence) {
    && (forall x, y :: x in f.raised && !Stuck(g, f, x) && y != x && DependsOn(g, y, x) && y in f.v ==>
                         Code(f.v[y]) <= Code(f.t) || y in f.lowered)
    && forall x, e :: x in f.raised && !Stuck(g, f, x) && x in g.excludes && e in g.excludes[x] && e in f.v ==>
                        (f.v[e] == Init && e !in f.raised) || e in f.lowered
  }

  /** Whom a request for init asks for init: dependents that are not there, and dependencies in boot. */
  ghost predicate ClosedDownward(g: Graph, f: Fence) {
    && (forall x, y :: x in f.lowered && y != x && DependsOn(g, y, x) && y in f.v ==>
                         (f.v[y] == Init && y !in f.raised) || y in f.lowered)
    && (forall x, d :: x in f.lowered && DependsOn(g, x, d) && d in f.v && f.v[d] == Boot ==> d in f.lowered)
    && (f.t == Boot ==> f.raised <= f.lowered)
  }

  ghost predicate Fenced(g: Graph, f: Fence) {
    f.t != Init && ClosedUpward(g, f) && ClosedAround(g, f) && ClosedDownward(g, f)
  }

  /** What x may be found in between two requests: where it was, in init, or at t. */
  ghost predicate Confined(g: Graph, f: Fence, x: Name, s: State)
    requires x in f.v
  {
    || s == f.v[x]
    || (s == Init && x in f.lowered)
    || (s == f.t && x in f.raised && !Stuck(g, f, x) && (f.v[x] == Error ==> x in f.lowered))
  }

  ghost predicate Within(g: Graph, f: Fence, u: States) {
    u.Keys == f.v.Keys && forall x :: x in u ==> Confined(g, f, x, u[x])
  }

  /** What x may be found in at any step: if it has moved at all, it is inside the fence; and if it is
      only lowered, a module in init has not moved and one in error has gone to init. */
  ghost predicate OnTheWay(g: Graph, f: Fence, x: Name, s: State)
    requires x in f.v
  {
    || s == f.v[x]
    || (x in f.lowered && (x in f.raised || s == Init || f.v[x] !in {Init, Error}))
    || (x in f.raised && !Stuck(g, f, x) && f.v[x] != Error)
  }

  ghost predicate Spread(g: Graph, f: Fence, u: States) {
    u.Keys == f.v.Keys && forall x :: x in u ==> OnTheWay(g, f, x, u[x])
  }

  /** Since then every step stayed inside the fence. */
  ghost predicate Recorded(g: Graph, f: Fence, w: World) {
    && f.past <= w.steps
    && forall i :: |f.past| <= i < |w.steps| ==> Spread(g, f, w.steps[i].After())
  }

  ghost predicate Inside(g: Graph, f: Fence, w: World) {
    Recorded(g, f, w) && Within(g, f, w.states)
  }

  /** What the fence says of the outcome of a request or of part of one. */
  ghost predicate Keeps(g: Graph, f: Fence, r: Flow) {
    Recorded(g, f, r.w) && Spread(g, f, r.w.states) && (!r.Throw? ==> Within(g, f, r.w.states))
  }

  /** A request for s on x is foreseen. */
  ghost predicate Foreseen(f: Fence, x: Name, s: State) {
    ((s == f.t && x in f.raised) || (s == Init && x in f.lowered)) && !Resists(f, x)
  }

  ghost predicate NoneResists(f: Fence, caller: seq<Name>) {
    forall c <- caller :: !Resists(f, c)
  }

  lemma InsideKeeps(g: Graph, f: Fence, r: Flow)
    requires Inside(g, f, r.w)
    ensures Keeps(g, f, r)
  {
    hide Stuck, Spread;
    WithinSpreads(g, f, r.w.states);
  }

  lemma WithinSpreads(g: Graph, f: Fence, u: States)
    requires Within(g, f, u)
    ensures Spread(g, f, u)
  {
    hide Stuck;
    forall x | x in u ensures OnTheWay(g, f, x, u[x]) {
      assert Confined(g, f, x, u[x]);
    }
  }

  lemma StillInside(g: Graph, f: Fence, r: Flow)
    requires Keeps(g, f, r) && !r.Throw?
    ensures Inside(g, f, r.w)
  {
  }

  lemma InsideIs(g: Graph, f: Fence, w: World)
    requires Inside(g, f, w)
    ensures Within(g, f, w.states)
  {
  }

  lemma SameWorld(g: Graph, f: Fence, w: World, r: Flow, r': Flow)
    requires Keeps(g, f, r) && !r.Throw? && r.w == w
    ensures r'.w == w ==> Keeps(g, f, r')
  {
  }

  lemma ResistsOn(g: Graph, f: Fence, u: States, d: Name)
    requires Within(g, f, u) && Resists(f, d)
    ensures d in u && u[d] == Error
  {
    hide Stuck;
    assert Confined(g, f, d, u[d]);
  }

  lemma DependencyForeseen(g: Graph, f: Fence, u: States, x: Name, s: State, i: nat)
    requires Fenced(g, f) && Within(g, f, u) && Foreseen(f, x, s) && x in g.depends && i < |g.depends[x]|
    requires (s != Init ==> !StuckBefore(g, f, x, i)) && g.depends[x][i] in u && MustRaise(u, g.depends[x][i], s)
    ensures Foreseen(f, g.depends[x][i], s)
  {
    hide Stuck, ClosedAround, StuckBefore;
    var d := g.depends[x][i];
    assert DependsOn(g, x, d);
    assert Confined(g, f, d, u[d]);
    assert s != Init ==> LetsGo(f, d);
  }

  lemma DependentForeseen(g: Graph, f: Fence, u: States, x: Name, s: State, y: Name, caller: seq<Name>)
    requires Fenced(g, f) && Within(g, f, u) && Foreseen(f, x, s) && (s != Init ==> !Stuck(g, f, x))
    requires y in g.depends && y in u && MustDrop(g, u, x, s, caller, y)
    ensures Foreseen(f, y, Init)
  {
    hide Stuck, ClosedUpward;
    assert Confined(g, f, y, u[y]);
    assert DependsOn(g, y, x);
  }

  lemma ExcludedForeseen(g: Graph, f: Fence, u: States, x: Name, e: Name)
    requires Fenced(g, f) && Within(g, f, u) && x in f.raised && !Stuck(g, f, x)
    requires x in g.excludes && e in g.excludes[x] && e in u && u[e] != Init
    ensures Foreseen(f, e, Init)
  {
    hide Stuck, ClosedUpward, ClosedDownward;
    assert Confined(g, f, e, u[e]);
  }

  lemma MoveKeeps(g: Graph, f: Fence, throws: Faults, w: World, x: Name, s: State)
    requires Fenced(g, f) && Inside(g, f, w) && Foreseen(f, x, s) && (s != Init ==> !Stuck(g, f, x))
    requires x in w.states && x in w.calls
    ensures Keeps(g, f, Move(throws, w, x, s))
  {
    hide Stuck, ClosedUpward, ClosedAround, ClosedDownward, ModuleDrive, Spread, TrailStep, Move, Within, Confined,
         OnTheWay;
    var visited := ModuleDrive(w.states[x], s, throws(x), w.calls[x]).visited;
    var r := Move(throws, w, x, s);
    MoveEffect(throws, w, x, s);
    WithinSpreads(g, f, w.states);
    forall k | 0 <= k < |visited| ensures Spread(g, f, w.states[x := visited[k]]) {
      VisitedOnTheWay(g, f, throws, w, x, s, k);
      SpreadWith(g, f, w.states, x, visited[k]);
    }
    forall i | |f.past| <= i < |r.w.steps| ensures Spread(g, f, r.w.steps[i].After()) {
      if i < |w.steps| {
        assert r.w.steps[i] == w.steps[i];
      } else {
        TrailEffect(w.states, x, visited, i - |w.steps|);
      }
    }
    assert w.states[x := w.states[x]] == w.states;
    MoveReaches(throws, w, x, s);
    if r.Return? {
      ReachedWithin(g, f, w.states, x, s);
    }
  }

  lemma VisitedOnTheWay(g: Graph, f: Fence, throws: Faults, w: World, x: Name, s: State, k: nat)
    requires Fenced(g, f) && Within(g, f, w.states) && Foreseen(f, x, s) && (s != Init ==> !Stuck(g, f, x))
    requires x in w.states && x in w.calls
    requires k < |ModuleDrive(w.states[x], s, throws(x), w.calls[x]).visited|
    ensures OnTheWay(g, f, x, ModuleDrive(w.states[x], s, throws(x), w.calls[x]).visited[k])
  {
    hide Stuck, ClosedUpward, ClosedAround, ClosedDownward;
    assert Confined(g, f, x, w.states[x]);
  }

  lemma SpreadWith(g: Graph, f: Fence, u: States, x: Name, s: State)
    requires Spread(g, f, u) && x in u && OnTheWay(g, f, x, s)
    ensures Spread(g, f, u[x := s])
  {
    hide OnTheWay;
  }

  lemma ReachedWithin(g: Graph, f: Fence, u: States, x: Name, s: State)
    requires Fenced(g, f) && Within(g, f, u) && Foreseen(f, x, s) && (s != Init ==> !Stuck(g, f, x))
    requires x in u && !Refused(u[x], s)
    ensures Within(g, f, u[x := s])
  {
    hide Stuck, ClosedUpward, ClosedAround, ClosedDownward;
    assert Confined(g, f, x, u[x]);
    assert Confined(g, f, x, s);
    hide Confined;
  }

  /** A request that is foreseen, with everything it sets off, stays within the fence. */
  lemma {:induction false} SetStateKeeps(g: Graph, f: Fence, throws: Faults, w: World, x: Name, s: State,
          caller: seq<Name>)
    requires Fits(g, w) && Fenced(g, f) && Inside(g, f, w) && Foreseen(f, x, s) && NoneResists(f, caller)
    ensures Keeps(g, f, SetState(g, throws, w, x, s, caller))
    decreases s != Init, |Uncalled(g, caller)|, x in caller, 3, 0
  {
    hide Finish, Fenced, Within, Inside, Keeps, Resists;
    InsideKeeps(g, f, Return(w));
    SameWorld(g, f, w, Return(w), SetState(g, throws, w, x, s, caller));
    if x in g.depends && w.states[x] != s {
      var r0 := if s == Boot then SetState(g, throws, w, x, Init, []) else Return(w);
      if s == Boot {
        BootIsLowered(g, f, x);
        SetStateKeeps(g, f, throws, w, x, Init, []);
      }
      if !r0.Throw? {
        StillInside(g, f, r0);
        FinishKeeps(g, f, throws, r0.w, x, s, caller);
      }
    }
  }

  lemma BootIsLowered(g: Graph, f: Fence, x: Name)
    requires Fenced(g, f) && Foreseen(f, x, Boot)
    ensures Foreseen(f, x, Init)
  {
  }

  lemma {:induction false} FinishKeeps(g: Graph, f: Fence, throws: Faults, w: World, x: Name, s: State,
          caller: seq<Name>)
    requires Fits(g, w) && Fenced(g, f) && Inside(g, f, w) && Foreseen(f, x, s) && NoneResists(f, caller)
    requires x in g.depends
    ensures Keeps(g, f, Finish(g, throws, w, x, s, caller))
    decreases s != Init, |Uncalled(g, caller)|, x in caller, 2, 0
  {
    hide SetState, RaiseDepends, DropDependents, DropExcludes, Finish, Move, Fenced, Within, Inside, Keeps, Resists,
         Stuck, Foreseen, NoneResists, Uncalled, StuckBefore;
    NoneBefore(g, f, x);
    RaiseKeeps(g, f, throws, w, x, s, caller, 0);
    var r1 := RaiseDepends(g, throws, w, x, s, caller, 0);
    if r1.Next? {
      StillInside(g, f, r1);
      StuckIsBefore(g, f, x);
      GrownMeasure(g, caller, r1.caller, x);
      NowPushed(f, caller, r1.caller, x, s);
      EndKeeps(g, f, throws, w, r1.w, x, s, caller, r1.caller);
    } else {
      FinishStopsRaising(g, throws, w, x, s, caller);
    }
  }

  lemma NowPushed(f: Fence, caller: seq<Name>, caller': seq<Name>, x: Name, s: State)
    requires NoneResists(f, caller) && Grown(caller, caller', x) && Foreseen(f, x, s)
    ensures NoneResists(f, caller')
  {
  }

  lemma StuckIsBefore(g: Graph, f: Fence, x: Name)
    requires x in g.depends
    ensures StuckBefore(g, f, x, |g.depends[x]|) <==> Stuck(g, f, x)
  {
    hide Resists;
    if Stuck(g, f, x) {
      var d :| DependsOn(g, x, d) && Resists(f, d);
      var j :| 0 <= j < |g.depends[x]| && g.depends[x][j] == d;
    }
    if StuckBefore(g, f, x, |g.depends[x]|) {
      var j :| 0 <= j < |g.depends[x]| && Resists(f, g.depends[x][j]);
      assert DependsOn(g, x, g.depends[x][j]);
    }
  }

  lemma StuckBeforeNext(g: Graph, f: Fence, x: Name, i: nat)
    requires x in g.depends && i < |g.depends[x]|
    ensures StuckBefore(g, f, x, i + 1) <==> StuckBefore(g, f, x, i) || Resists(f, g.depends[x][i])
  {
    hide Resists;
  }

  lemma NoneBefore(g: Graph, f: Fence, x: Name)
    requires x in g.depends
    ensures !StuckBefore(g, f, x, 0)
  {
  }

  /** After the dependencies: the dependents, the excludes and the module itself. */
  lemma {:induction false} EndKeeps(g: Graph, f: Fence, throws: Faults, w: World, w1: World, x: Name, s: State,
          caller: seq<Name>, caller1: seq<Name>)
    requires Fits(g, w) && Fits(g, w1) && Fenced(g, f) && Inside(g, f, w1) && Foreseen(f, x, s)
    requires NoneResists(f, caller1) && x in g.depends && (s != Init ==> !Stuck(g, f, x))
    requires RaiseDepends(g, throws, w, x, s, caller, 0) == Next(w1, caller1)
    ensures Keeps(g, f, Finish(g, throws, w, x, s, caller))
    decreases s != Init, |Uncalled(g, caller1)|, x in caller1, 1, |g.order| + |g.excludes[x]| + 1
  {
    hide SetState, RaiseDepends, DropDependents, DropExcludes, Finish, Move, Fenced, Within, Inside, Keeps, Resists,
         Stuck, Foreseen, NoneResists, Uncalled;
    DropKeeps(g, f, throws, w1, x, s, caller1, 0);
    var r2 := DropDependents(g, throws, w1, x, s, caller1, 0);
    if r2.Next? {
      StillInside(g, f, r2);
      FinishGoesOn(g, throws, w, w1, r2.w, x, s, caller, caller1, r2.caller);
      if s != Init {
        GrownMeasure(g, caller1, r2.caller, x);
        NowPushed(f, caller1, r2.caller, x, s);
        NowRaised(f, x, s);
        ExcludesKeep(g, f, throws, r2.w, x, s, r2.caller, 0);
      }
      var r3 := if s == Init then r2 else DropExcludes(g, throws, r2.w, x, s, r2.caller, 0);
      if r3.Next? {
        StillInside(g, f, r3);
        MoveKeeps(g, f, throws, r3.w, x, s);
      }
    } else {
      FinishStopsDropping(g, throws, w, w1, x, s, caller, caller1);
    }
  }

  lemma NowRaised(f: Fence, x: Name, s: State)
    requires Foreseen(f, x, s) && s != Init
    ensures x in f.raised && s == f.t
  {
  }

  lemma {:induction false} RaiseKeeps(g: Graph, f: Fence, throws: Faults, w: World, x: Name, s: State,
          caller: seq<Name>, i: nat)
    requires Fits(g, w) && Fenced(g, f) && Inside(g, f, w) && Foreseen(f, x, s) && NoneResists(f, caller)
    requires x in g.depends && i <= |g.depends[x]| && (s != Init ==> !StuckBefore(g, f, x, i))
    ensures var r := RaiseDepends(g, throws, w, x, s, caller, i);
            Keeps(g, f, r) && (s != Init && r.Next? ==> !StuckBefore(g, f, x, |g.depends[x]|))
    decreases s != Init, |Uncalled(g, caller)|, x in caller, 1, |g.depends[x]| - i
  {
    hide SetState, RaiseDepends, Fenced, Within, Inside, Keeps, Resists, Foreseen, NoneResists, Uncalled, StuckBefore;
    InsideKeeps(g, f, Return(w));
    SameWorld(g, f, w, Return(w), RaiseDepends(g, throws, w, x, s, caller, i));
    if i == |g.depends[x]| {
      RaiseEnds(g, throws, w, x, s, caller);
    } else {
      RaiseTurn(g, throws, w, x, s, caller, i);
      var d := g.depends[x][i];
      StuckBeforeNext(g, f, x, i);
      NotAmong(g, f, w, caller, d);
      if d !in caller && d in g.depends && MustRaise(w.states, d, s) {
        var caller' := caller + [x];
        GrownMeasure(g, caller, caller', x);
        NowPushed(f, caller, caller', x, s);
        InsideIs(g, f, w);
        DependencyForeseen(g, f, w.states, x, s, i);
        SetStateKeeps(g, f, throws, w, d, s, caller');
        var r := SetState(g, throws, w, d, s, caller');
        if !r.Throw? {
          StillInside(g, f, r);
          RaiseKeeps(g, f, throws, r.w, x, s, caller', i + 1);
        }
      } else if d in caller || (d in g.depends && (w.states[d] != Error || s == Init)) {
        RaiseKeeps(g, f, throws, w, x, s, caller, i + 1);
      }
    }
  }

  /** Who resists is in error and not among the callers. */
  lemma NotAmong(g: Graph, f: Fence, w: World, caller: seq<Name>, d: Name)
    requires Inside(g, f, w) && NoneResists(f, caller)
    ensures Resists(f, d) ==> d !in caller && d in w.states && w.states[d] == Error
  {
    hide Within, Resists;
    if Resists(f, d) {
      ResistsOn(g, f, w.states, d);
    }
  }

  lemma {:induction false} DropKeeps(g: Graph, f: Fence, throws: Faults, w: World, x: Name, s: State,
          caller: seq<Name>, i: nat)
    requires Fits(g, w) && Fenced(g, f) && Inside(g, f, w) && Foreseen(f, x, s) && NoneResists(f, caller)
    requires x in g.depends && i <= |g.order| && (s != Init ==> !Stuck(g, f, x))
    ensures Keeps(g, f, DropDependents(g, throws, w, x, s, caller, i))
    decreases s != Init, |Uncalled(g, caller)|, x in caller, 1, |g.order| - i
  {
    hide SetState, DropDependents, Fenced, Within, Inside, Keeps, Resists, Foreseen, NoneResists, Uncalled, Stuck;
    InsideKeeps(g, f, Return(w));
    SameWorld(g, f, w, Return(w), DropDependents(g, throws, w, x, s, caller, i));
    if i == |g.order| {
      DropEnds(g, throws, w, x, s, caller);
    } else {
      DropTurn(g, throws, w, x, s, caller, i);
      var y := g.order[i];
      if y in g.depends && MustDrop(g, w.states, x, s, caller, y) {
        var caller' := caller + [x];
        GrownMeasure(g, caller, caller', x);
        NowPushed(f, caller, caller', x, s);
        InsideIs(g, f, w);
        DependentForeseen(g, f, w.states, x, s, y, caller);
        SetStateKeeps(g, f, throws, w, y, Init, caller');
        var r := SetState(g, throws, w, y, Init, caller');
        if !r.Throw? {
          StillInside(g, f, r);
          DropKeeps(g, f, throws, r.w, x, s, caller', i + 1);
        }
      } else {
        DropKeeps(g, f, throws, w, x, s, caller, i + 1);
      }
    }
  }

  lemma {:induction false} ExcludesKeep(g: Graph, f: Fence, throws: Faults, w: World, x: Name, s: State,
          caller: seq<Name>, i: nat)
    requires Fits(g, w) && Fenced(g, f) && Inside(g, f, w) && NoneResists(f, caller)
    requires x in f.raised && !Stuck(g, f, x) && x in g.depends && i <= |g.excludes[x]| && s != Init
    ensures Keeps(g, f, DropExcludes(g, throws, w, x, s, caller, i))
    decreases true, |Uncalled(g, caller)|, x in caller, 1, |g.excludes[x]| - i
  {
    hide SetState, Fenced, Within, Inside, Keeps, Resists, Foreseen, NoneResists, Uncalled, Stuck;
    InsideKeeps(g, f, Return(w));
    SameWorld(g, f, w, Return(w), DropExcludes(g, throws, w, x, s, caller, i));
    if i < |g.excludes[x]| {
      var e := g.excludes[x][i];
      if e in caller || (e in g.depends && w.states[e] == Init) {
        ExcludesKeep(g, f, throws, w, x, s, caller, i + 1);
      } else if e in g.depends {
        InsideIs(g, f, w);
        ExcludedForeseen(g, f, w.states, x, e);
        SetStateKeeps(g, f, throws, w, e, Init, caller);
        var r := SetState(g, throws, w, e, Init, caller);
        if !r.Throw? {
          StillInside(g, f, r);
          ExcludesKeep(g, f, throws, r.w, x, s, caller, i + 1);
        }
      }
    }
  }
}
