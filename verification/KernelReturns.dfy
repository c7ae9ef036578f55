/** Exactly when a request comes back without an exception and short of its target. */
module KernelReturns {
  import opened ModuleStates
  import opened Ladder
  import opened LadderProofs
  import opened KernelModel
  import opened KernelGraph
  import opened KernelInit
  import opened KernelResult
  import opened KernelErrors
  import opened KernelFence

  /** x is where it was, or in init. */
  ghost predicate Rests(v: States, v': States, x: Name) {
    x in v && x in v' && (v'[x] == v[x] || v'[x] == Init)
  }

  /** Unless it throws, a request leaves its callers where they were or in init; a request for init
      does so with every module. */
  lemma {:induction false} SetStateRests(g: Graph, throws: Faults, w: World, m: Name, t: State, caller: seq<Name>,
          x: Name)
    requires Fits(g, w) && x in g.depends && (t == Init || (x in caller && x != m))
    ensures var r := SetState(g, throws, w, m, t, caller); !r.Throw? ==> Rests(w.states, r.w.states, x)
    decreases t != Init, |Uncalled(g, caller)|, m in caller, 3, 0
  {
    hide Finish;
    if m in g.depends && w.states[m] != t {
      var r0 := if t == Boot then SetState(g, throws, w, m, Init, []) else Return(w);
      if t == Boot {
        SetStateRests(g, throws, w, m, Init, [], x);
      }
      if !r0.Throw? {
        FinishRests(g, throws, r0.w, m, t, caller, x);
      }
    }
  }

  lemma {:induction false} FinishRests(g: Graph, throws: Faults, w: World, m: Name, t: State, caller: seq<Name>,
          x: Name)
    requires Fits(g, w) && m in g.depends && x in g.depends && (t == Init || (x in caller && x != m))
    ensures var r := Finish(g, throws, w, m, t, caller); !r.Throw? ==> Rests(w.states, r.w.states, x)
    decreases t != Init, |Uncalled(g, caller)|, m in caller, 2, 0
  {
    hide SetState, RaiseDepends, DropDependents, DropExcludes, Move, Uncalled;
    RaiseRests(g, throws, w, m, t, caller, x, 0);
    var r1 := RaiseDepends(g, throws, w, m, t, caller, 0);
    if r1.Next? {
      GrownMeasure(g, caller, r1.caller, m);
      LoopsRest(g, throws, r1.w, m, t, r1.caller, x);
      DropNeverReturns(g, throws, r1.w, m, t, r1.caller, 0);
      var r2 := DropDependents(g, throws, r1.w, m, t, r1.caller, 0);
      if r2.Next? {
        if t != Init {
          ExcludesNeverReturn(g, throws, r2.w, m, t, r2.caller, 0);
        }
        var r3 := if t == Init then r2 else DropExcludes(g, throws, r2.w, m, t, r2.caller, 0);
        if r3.Next? {
          MoveRests(throws, r3.w, m, t, x);
        }
      }
    }
  }

  lemma MoveRests(throws: Faults, w: World, m: Name, t: State, x: Name)
    requires m in w.states && m in w.calls && x in w.states && (t == Init || x != m)
    ensures var r := Move(throws, w, m, t); !r.Throw? ==> Rests(w.states, r.w.states, x)
  {
    MoveReaches(throws, w, m, t);
    hide ModuleDrive, Trail;
  }

  /** The two loops that only ask for init leave every module where it was or in init. */
  lemma {:induction false} LoopsRest(g: Graph, throws: Faults, w: World, m: Name, t: State, caller: seq<Name>, x: Name)
    requires Fits(g, w) && m in g.depends && x in g.depends
    ensures var r2 := DropDependents(g, throws, w, m, t, caller, 0);
            r2.Next? ==> var r3 := if t == Init then r2 else DropExcludes(g, throws, r2.w, m, t, r2.caller, 0);
                         Rests(w.states, r2.w.states, x) && (r3.Next? ==> Rests(w.states, r3.w.states, x))
    decreases t != Init, |Uncalled(g, caller)|, m in caller, 1, |g.order| + |g.excludes[m]| + 1
  {
    hide SetState, DropDependents, DropExcludes, Uncalled;
    DropRests(g, throws, w, m, t, caller, x, 0);
    var r2 := DropDependents(g, throws, w, m, t, caller, 0);
    if r2.Next? && t != Init {
      GrownMeasure(g, caller, r2.caller, m);
      ExcludesRest(g, throws, r2.w, m, t, r2.caller, x, 0);
    }
  }

  /** Raising the dependencies of m leaves the callers, and m unless it depends on itself, where they
      were or in init. */
  lemma {:induction false} RaiseRests(g: Graph, throws: Faults, w: World, m: Name, t: State, caller: seq<Name>,
          x: Name, i: nat)
    requires Fits(g, w) && m in g.depends && x in g.depends && i <= |g.depends[m]|
    requires t == Init || (x in caller && x != m) || (x == m && !DependsOn(g, m, m))
    ensures var r := RaiseDepends(g, throws, w, m, t, caller, i); !r.Throw? ==> Rests(w.states, r.w.states, x)
    decreases t != Init, |Uncalled(g, caller)|, m in caller, 1, |g.depends[m]| - i
  {
    hide SetState, RaiseDepends, Uncalled;
    if i == |g.depends[m]| {
      RaiseEnds(g, throws, w, m, t, caller);
    } else {
      RaiseTurn(g, throws, w, m, t, caller, i);
      var d := g.depends[m][i];
      assert DependsOn(g, m, d);
      if d !in caller && d in g.depends && MustRaise(w.states, d, t) {
        var caller' := caller + [m];
        GrownMeasure(g, caller, caller', m);
        SetStateRests(g, throws, w, d, t, caller', x);
        var r := SetState(g, throws, w, d, t, caller');
        if !r.Throw? {
          RaiseRests(g, throws, r.w, m, t, caller', x, i + 1);
        }
      } else if d in caller || (d in g.depends && (w.states[d] != Error || t == Init)) {
        RaiseRests(g, throws, w, m, t, caller, x, i + 1);
      }
    }
  }

  lemma {:induction false} DropRests(g: Graph, throws: Faults, w: World, m: Name, t: State, caller: seq<Name>,
          x: Name, i: nat)
    requires Fits(g, w) && m in g.depends && x in g.depends && i <= |g.order|
    ensures var r := DropDependents(g, throws, w, m, t, caller, i); !r.Throw? ==> Rests(w.states, r.w.states, x)
    decreases t != Init, |Uncalled(g, caller)|, m in caller, 1, |g.order| - i
  {
    hide SetState, DropDependents, Uncalled;
    if i == |g.order| {
      DropEnds(g, throws, w, m, t, caller);
    } else {
      DropTurn(g, throws, w, m, t, caller, i);
      var y := g.order[i];
      if y in g.depends && MustDrop(g, w.states, m, t, caller, y) {
        var caller' := caller + [m];
        GrownMeasure(g, caller, caller', m);
        SetStateRests(g, throws, w, y, Init, caller', x);
        var r := SetState(g, throws, w, y, Init, caller');
        if !r.Throw? {
          DropRests(g, throws, r.w, m, t, caller', x, i + 1);
        }
      } else {
        DropRests(g, throws, w, m, t, caller, x, i + 1);
      }
    }
  }

  lemma {:induction false} ExcludesRest(g: Graph, throws: Faults, w: World, m: Name, t: State, caller: seq<Name>,
          x: Name, i: nat)
    requires Fits(g, w) && m in g.depends && x in g.depends && i <= |g.excludes[m]| && t != Init
    ensures var r := DropExcludes(g, throws, w, m, t, caller, i); !r.Throw? ==> Rests(w.states, r.w.states, x)
    decreases true, |Uncalled(g, caller)|, m in caller, 1, |g.excludes[m]| - i
  {
    hide SetState, Uncalled;
    if i < |g.excludes[m]| {
      var e := g.excludes[m][i];
      if e in caller || (e in g.depends && w.states[e] == Init) {
        ExcludesRest(g, throws, w, m, t, caller, x, i + 1);
      } else if e in g.depends {
        SetStateRests(g, throws, w, e, Init, caller, x);
        var r := SetState(g, throws, w, e, Init, caller);
        if !r.Throw? {
          ExcludesRest(g, throws, r.w, m, t, caller, x, i + 1);
        }
      }
    }
  }

  /** All names in the excludes are those of registered modules. */
  ghost predicate ExcludesRegistered(g: Graph) {
    forall a, e :: a in g.excludes && e in g.excludes[a] ==> e in g.depends
  }

  /** The graph is as it is configured: all names are registered and no module depends on itself; and
      no hook throws. */
  ghost predicate NothingThrows(g: Graph, throws: Faults) {
    Registered(g) && ExcludesRegistered(g) && NoneOnItself(g) && NeverFails(throws)
  }

  lemma {:induction false} SetStateCompletes(g: Graph, throws: Faults, w: World, m: Name, t: State, caller: seq<Name>)
    requires Fits(g, w) && m in g.depends && (w.states[m] == Error ==> t == Boot)
    requires t !in {Init, Error} && NothingThrows(g, throws)
    ensures !SetState(g, throws, w, m, t, caller).Throw?
    decreases |Uncalled(g, caller)|, m in caller, 3, 0
  {
    hide Finish, NothingThrows, Registered, NeverFails;
    Parts(g, throws);
    if w.states[m] != t {
      var r0 := if t == Boot then SetState(g, throws, w, m, Init, []) else Return(w);
      if t == Boot {
        SetStateInitLowers(g, throws, w, m, []);
        SetStateNoNewErrors(g, throws, w, m, Init, []);
      }
      FinishCompletes(g, throws, r0.w, m, t, caller);
    }
  }

  lemma Parts(g: Graph, throws: Faults)
    requires NothingThrows(g, throws)
    ensures Registered(g) && ExcludesRegistered(g) && NeverFails(throws)
  {
  }

  lemma {:induction false} FinishCompletes(g: Graph, throws: Faults, w: World, m: Name, t: State, caller: seq<Name>)
    requires Fits(g, w) && m in g.depends && w.states[m] != Error
    requires t !in {Init, Error} && NothingThrows(g, throws) && (t == Boot ==> w.states[m] != Boot)
    ensures !Finish(g, throws, w, m, t, caller).Throw?
    decreases |Uncalled(g, caller)|, m in caller, 2, 0
  {
    hide SetState, RaiseDepends, DropDependents, DropExcludes, Move, Uncalled,
         NothingThrows, Registered, NeverFails;
    Parts(g, throws);
    RaiseCompletes(g, throws, w, m, t, caller, 0);
    RaiseErrors(g, throws, w, m, t, caller, 0);
    var r1 := RaiseDepends(g, throws, w, m, t, caller, 0);
    if r1.Next? {
      if t == Boot {
        OnlyOthers(g, throws, m);
        RaiseRests(g, throws, w, m, t, caller, m, 0);
      }
      EndCompletes(g, throws, r1.w, m, t, r1.caller);
    }
  }

  /** After the dependencies: the dependents, the excludes and the module itself. */
  lemma EndCompletes(g: Graph, throws: Faults, w: World, m: Name, t: State, caller: seq<Name>)
    requires Fits(g, w) && m in g.depends && w.states[m] != Error
    requires t !in {Init, Error} && NothingThrows(g, throws) && (t == Boot ==> w.states[m] != Boot)
    ensures var r2 := DropDependents(g, throws, w, m, t, caller, 0);
            && r2.Next?
            && var r3 := DropExcludes(g, throws, r2.w, m, t, r2.caller, 0);
            r3.Next? && Move(throws, r3.w, m, t).Return?
  {
    hide DropDependents, DropExcludes, Move, Uncalled, NothingThrows, Registered, NeverFails;
    Parts(g, throws);
    LoopsRest(g, throws, w, m, t, caller, m);
    DropDependentsLowers(g, throws, w, m, t, caller, 0);
    DropErrors(g, throws, w, m, t, caller, 0);
    var r2 := DropDependents(g, throws, w, m, t, caller, 0);
    ExcludesComplete(g, throws, r2.w, m, t, r2.caller, 0);
    ExcludeErrors(g, throws, r2.w, m, t, r2.caller, 0);
    var r3 := DropExcludes(g, throws, r2.w, m, t, r2.caller, 0);
    MoveCompletes(throws, r3.w, m, t);
  }

  lemma OnlyOthers(g: Graph, throws: Faults, m: Name)
    requires NothingThrows(g, throws)
    ensures !DependsOn(g, m, m)
  {
  }

  lemma MoveCompletes(throws: Faults, w: World, m: Name, t: State)
    requires m in w.states && m in w.calls && NeverFails(throws) && !Refused(w.states[m], t)
    ensures Move(throws, w, m, t).Return?
  {
    hide Trail;
    if w.states[m] != Error {
      DriveWalks(w.states[m], t, throws(m), w.calls[m]);
    }
  }

  lemma {:induction false} RaiseCompletes(g: Graph, throws: Faults, w: World, m: Name, t: State, caller: seq<Name>,
          i: nat)
    requires Fits(g, w) && m in g.depends && i <= |g.depends[m]|
    requires t !in {Init, Error} && NothingThrows(g, throws)
    ensures !RaiseDepends(g, throws, w, m, t, caller, i).Throw?
    decreases |Uncalled(g, caller)|, m in caller, 1, |g.depends[m]| - i
  {
    hide SetState, RaiseDepends, Uncalled, NothingThrows, NeverFails;
    Parts(g, throws);
    if i == |g.depends[m]| {
      RaiseEnds(g, throws, w, m, t, caller);
    } else {
      RaiseTurn(g, throws, w, m, t, caller, i);
      var d := g.depends[m][i];
      assert DependsOn(g, m, d);
      if d !in caller && MustRaise(w.states, d, t) {
        var caller' := caller + [m];
        GrownMeasure(g, caller, caller', m);
        SetStateCompletes(g, throws, w, d, t, caller');
        SetStateNoNewErrors(g, throws, w, d, t, caller');
        var r := SetState(g, throws, w, d, t, caller');
        RaiseCompletes(g, throws, r.w, m, t, caller', i + 1);
      } else if d in caller || w.states[d] != Error {
        RaiseCompletes(g, throws, w, m, t, caller, i + 1);
      }
    }
  }

  lemma {:induction false} ExcludesComplete(g: Graph, throws: Faults, w: World, m: Name, t: State,
          caller: seq<Name>, i: nat)
    requires Fits(g, w) && m in g.depends && i <= |g.excludes[m]| && t != Init
    requires Registered(g) && ExcludesRegistered(g) && NeverFails(throws)
    ensures DropExcludes(g, throws, w, m, t, caller, i).Next?
    decreases |g.excludes[m]| - i
  {
    hide SetState, Registered, NeverFails;
    if i < |g.excludes[m]| {
      var e := g.excludes[m][i];
      if e in caller || w.states[e] == Init {
        ExcludesComplete(g, throws, w, m, t, caller, i + 1);
      } else {
        SetStateInitLowers(g, throws, w, e, caller);
        ExcludesComplete(g, throws, SetState(g, throws, w, e, Init, caller).w, m, t, caller, i + 1);
      }
    }
  }

  /** A dependency of m is in error, and a request for t on m is confined so that it does not reset it. */
  ghost predicate StaysBlocked(g: Graph, v: States, m: Name, t: State) {
    exists f :: FenceAround(g, f, v, m, t)
  }

  ghost predicate FenceAround(g: Graph, f: Fence, v: States, m: Name, t: State) {
    Fenced(g, f) && f.v == v && f.past == [] && f.t == t && m in f.raised && f.calling == {m} && Stuck(g, f, m)
  }

  /** On any graph, with any hooks: a request that comes back is short of its target if a dependency in
      error is out of its reach, and only if a dependency was in error before the call. */
  lemma ShortOnlyIfBlocked(g: Graph, throws: Faults, w: World, m: Name, t: State)
    requires Fits(g, w) && m in g.depends && t != Init && w.states[m] != t
    ensures var r := SetState(g, throws, w, m, t, []);
            && (r.Return? && StaysBlocked(g, w.states, m, t) ==> r.w.states[m] != t)
            && (r.Return? && r.w.states[m] != t ==> Blocked(g, w.states, m))
            && (NothingThrows(g, throws) && t != Error && StaysBlocked(g, w.states, m, t) ==> r.Return?)
  {
    hide SetState, Blocked, NothingThrows, FenceAround;
    ShortMeansBlocked(g, throws, w, m, t, []);
    if StaysBlocked(g, w.states, m, t) {
      var f :| FenceAround(g, f, w.states, m, t);
      FencedComesShort(g, f, throws, w, m, t);
    }
  }

  lemma FencedComesShort(g: Graph, f: Fence, throws: Faults, w: World, m: Name, t: State)
    requires Fits(g, w) && m in g.depends && w.states[m] != t && FenceAround(g, f, w.states, m, t)
    ensures var r := SetState(g, throws, w, m, t, []);
            && (r.Return? ==> r.w.states[m] != t)
            && (NothingThrows(g, throws) && t != Error ==> r.Return?)
  {
    hide SetState, Stuck, Fenced, NothingThrows;
    var f' := FenceStarts(g, f, w, m);
    SetStateKeeps(g, f', throws, w, m, t, []);
    var r := SetState(g, throws, w, m, t, []);
    if r.Return? {
      StuckStays(g, f', r.w.states, m);
    }
    if NothingThrows(g, throws) && t != Error {
      if w.states[m] != Error || t == Boot {
        SetStateCompletes(g, throws, w, m, t, []);
      } else {
        StuckReturns(g, f', throws, w, m, t);
      }
    }
  }

  /** The fence around a world with a past. */
  lemma FenceStarts(g: Graph, f: Fence, w: World, m: Name) returns (f': Fence)
    requires Fenced(g, f) && f.v == w.states && m in f.raised && m in f.calling
    ensures f'.v == f.v && f'.t == f.t && f.t != Init
    ensures Fenced(g, f') && Inside(g, f', w) && Foreseen(f', m, f.t) && NoneResists(f', [])
    ensures Stuck(g, f, m) ==> Stuck(g, f', m)
  {
    f' := f.(past := w.steps);
    forall x ensures Stuck(g, f', x) <==> Stuck(g, f, x) {
      forall d ensures Resists(f', d) <==> Resists(f, d) {}
    }
    forall x: Name, i: nat | x in g.depends && i <= |g.depends[x]|
      ensures StuckBefore(g, f', x, i) <==> StuckBefore(g, f, x, i)
    {
      forall d ensures Resists(f', d) <==> Resists(f, d) {}
    }
    hide Stuck, StuckBefore;
  }

  lemma StuckStays(g: Graph, f: Fence, u: States, m: Name)
    requires Within(g, f, u) && Stuck(g, f, m) && m in f.v && f.t != Init && f.v[m] != f.t
    ensures m in u && u[m] != f.t
  {
    hide Stuck;
    assert Confined(g, f, m, u[m]);
  }

  lemma StuckReturns(g: Graph, f: Fence, throws: Faults, w: World, m: Name, t: State)
    requires Fits(g, w) && m in g.depends && w.states[m] != t && t == f.t && t !in {Init, Boot, Error}
    requires Fenced(g, f) && Inside(g, f, w) && Foreseen(f, m, t) && NoneResists(f, []) && Stuck(g, f, m)
    requires NothingThrows(g, throws)
    ensures SetState(g, throws, w, m, t, []).Return?
  {
    hide SetState, Finish, RaiseDepends, Stuck, StuckBefore, Fenced, NothingThrows, Inside;
    StuckIsBefore(g, f, m);
    NoneBefore(g, f, m);
    RaiseKeeps(g, f, throws, w, m, t, [], 0);
    RaiseCompletes(g, throws, w, m, t, [], 0);
    FinishStopsRaising(g, throws, w, m, t, []);
    IsFinish(g, throws, w, m, t, []);
  }

  lemma IsFinish(g: Graph, throws: Faults, w: World, m: Name, t: State, caller: seq<Name>)
    requires Fits(g, w) && m in g.depends && w.states[m] != t && t != Boot
    ensures SetState(g, throws, w, m, t, caller) == Finish(g, throws, w, m, t, caller)
  {
    hide Finish;
  }

  /** Where no request can reset a dependency in error, a request that comes back is short of its target
      exactly if the module was blocked; and with nothing throwing, it comes back if it was. */
  lemma ReturnsShortIffBlocked(g: Graph, throws: Faults, w: World, m: Name, t: State)
    requires Fits(g, w) && m in g.depends && t != Init && w.states[m] != t
    requires Blocked(g, w.states, m) ==> StaysBlocked(g, w.states, m, t)
    ensures var r := SetState(g, throws, w, m, t, []);
            && (r.Return? ==> (r.w.states[m] != t <==> Blocked(g, w.states, m)))
            && (NothingThrows(g, throws) && t != Error ==>
                (r.Return? && r.w.states[m] != t <==> Blocked(g, w.states, m)))
  {
    hide SetState, Blocked, StaysBlocked, NothingThrows;
    ShortOnlyIfBlocked(g, throws, w, m, t);
  }

  /** A first dependency in error: the request comes back at once, having changed nothing. */
  lemma BlockedReturnsAtOnce(g: Graph, throws: Faults, w: World, m: Name, t: State)
    requires Fits(g, w) && m in g.depends && g.depends[m] != [] && g.depends[m][0] in g.depends
    requires w.states[g.depends[m][0]] == Error && t !in {Init, Boot} && w.states[m] != t
    ensures SetState(g, throws, w, m, t, []) == Return(w)
  {
    assert SetState(g, throws, w, m, t, []) == Finish(g, throws, w, m, t, []) by {
      hide Finish, RaiseDepends, DropDependents, DropExcludes;
    }
    hide SetState, RaiseDepends, DropDependents, DropExcludes, Finish;
    RaiseTurn(g, throws, w, m, t, [], 0);
    FinishStopsRaising(g, throws, w, m, t, []);
  }

  /** All dependencies of a module in error are in error, and no module in error is excluded. */
  ghost predicate ErrorsSettled(g: Graph, v: States) {
    && (forall a, b :: DependsOn(g, a, b) && a in v && b in v && v[a] == Error ==> v[b] == Error)
    && forall a, e :: a in g.excludes && e in g.excludes[a] && e in v ==> v[e] != Error
  }

  ghost function Healthy(v: States): set<Name> {
    set x | x in v && v[x] != Error
  }

  /** Where errors are settled no request resets any, so the condition above is met on every graph. */
  lemma SettledStaysBlocked(g: Graph, v: States, m: Name, t: State)
    requires NoneOnItself(g) && v.Keys == g.depends.Keys && ErrorsSettled(g, v) && Blocked(g, v, m)
    requires m in v && t != Init && (v[m] == Error ==> t != Boot)
    ensures StaysBlocked(g, v, m, t)
  {
    var f := Fence(v, [], t, Healthy(v) + {m}, Healthy(v), {m});
    var d :| DependsOn(g, m, d) && d in v && v[d] == Error;
    assert Resists(f, d);
    assert Stuck(g, f, m);
    SettledFence(g, f);
    assert FenceAround(g, f, v, m, t);
  }

  lemma SettledFence(g: Graph, f: Fence)
    requires f.v.Keys == g.depends.Keys && ErrorsSettled(g, f.v) && f.t != Init && f.lowered == Healthy(f.v)
    requires f.lowered <= f.raised <= f.v.Keys && (f.t == Boot ==> f.raised == f.lowered)
    requires forall x :: x in f.raised && x !in f.lowered ==> Stuck(g, f, x)
    ensures Fenced(g, f)
  {
    hide Stuck;
  }

  /** There, a request for a module that is not in error takes nobody into error and nobody out of it. */
  lemma SettledErrorsStay(g: Graph, throws: Faults, w: World, m: Name, t: State, caller: seq<Name>)
    requires Fits(g, w) && ErrorsSettled(g, w.states) && (m in g.depends ==> w.states[m] != Error)
    ensures var r := SetState(g, throws, w, m, t, caller);
            forall x :: x in w.states ==> x in r.w.states && (r.w.states[x] == Error <==> w.states[x] == Error)
  {
    hide SetState, Stuck, Fenced;
    SetStateNoNewErrors(g, throws, w, m, t, caller);
    if m in g.depends {
      var healthy := Healthy(w.states);
      var f := Fence(w.states, w.steps, if t == Init then Op else t, healthy, healthy, set c <- caller);
      SettledFence(g, f);
      SetStateKeeps(g, f, throws, w, m, t, caller);
    } else {
      Unregistered(g, throws, w, m, t, caller);
    }
  }

  lemma Unregistered(g: Graph, throws: Faults, w: World, m: Name, t: State, caller: seq<Name>)
    requires Fits(g, w) && m !in g.depends
    ensures SetState(g, throws, w, m, t, caller) == Throw(w)
  {
  }

  /** m depends on x and d, and d on x. */
  function Shared(m: Name, x: Name, d: Name): Graph {
    Graph([m, x, d], map[m := [x, d], x := [], d := [x]], map[m := [], x := [], d := []])
  }

  function ErrorAbove(m: Name, x: Name, d: Name): World {
    World(map[m := Init, x := Init, d := Error], map[m := 0, x := 0, d := 0], [])
  }

  /** Why it matters that a dependency in error is not reset: raising x drops d, which depends on x, to
      init and out of error, so that the request for m reaches its target although m was blocked. */
  lemma ResetOnTheWay(m: Name, x: Name, d: Name, throws: Faults)
    requires m != x && m != d && x != d && NeverFails(throws)
    ensures var (g, w) := (Shared(m, x, d), ErrorAbove(m, x, d));
            && Fits(g, w) && Blocked(g, w.states, m)
            && var r := SetState(g, throws, w, m, Op, []);
            r.Return? && r.w.states[m] == Op
  {
    var g, w := Shared(m, x, d), ErrorAbove(m, x, d);
    SharedIs(m, x, d, throws);
    hide SetState, NothingThrows, Blocked, Shared, ErrorAbove;
    SetStateCompletes(g, throws, w, m, Op, []);
    ReturnMeansReachedOrBlocked(g, throws, w, m, Op, []);
    var r := SetState(g, throws, w, m, Op, []);
    if Blocked(g, r.w.states, m) {
      SetStateNoNewErrors(g, throws, w, m, Op, []);
      OutOfError(m, x, d, throws);
      OnlyTwo(m, x, d, r.w.states);
    }
  }

  lemma SharedIs(m: Name, x: Name, d: Name, throws: Faults)
    requires m != x && m != d && x != d && NeverFails(throws)
    ensures var (g, w) := (Shared(m, x, d), ErrorAbove(m, x, d));
            && Fits(g, w) && Blocked(g, w.states, m) && NothingThrows(g, throws)
            && g.order == [m, x, d] && m in g.depends && x in g.depends && d in g.depends
            && g.depends[m] == [x, d] && g.depends[x] == [] && g.depends[d] == [x] && g.excludes[x] == []
            && w.states[m] == Init && w.states[x] == Init && w.states[d] == Error
  {
    var g := Shared(m, x, d);
    assert DependsOn(g, m, d);
  }

  lemma OnlyTwo(m: Name, x: Name, d: Name, v: States)
    requires m != x && m != d && x != d && Blocked(Shared(m, x, d), v, m)
    ensures (x in v && v[x] == Error) || (d in v && v[d] == Error)
  {
  }

  /** The request for m asks for x first, and whatever follows takes nobody into error again. */
  lemma OutOfError(m: Name, x: Name, d: Name, throws: Faults)
    requires m != x && m != d && x != d && NeverFails(throws)
    ensures var (g, w) := (Shared(m, x, d), ErrorAbove(m, x, d));
            Fits(g, w) && var v := SetState(g, throws, w, m, Op, []).w.states; d in v && v[d] != Error
  {
    var g, w := Shared(m, x, d), ErrorAbove(m, x, d);
    SharedIs(m, x, d, throws);
    hide SetState, Finish, RaiseDepends, NothingThrows, NoNewErrors, NeverFails, Blocked, Shared, ErrorAbove;
    AsksForX(m, x, d, throws);
    DropsOutOfError(m, x, d, throws);
    var w1 := SetState(g, throws, w, x, Op, [m]).w;
    RaiseErrors(g, throws, w1, m, Op, [m], 1);
    var v1 := RaiseDepends(g, throws, w1, m, Op, [m], 1).w.states;
    NotInErrorThen(w1.states, v1, d);
    IsFinish(g, throws, w, m, Op, []);
    FinishErrors(g, throws, w, m, Op, []);
    NotInErrorThen(v1, SetState(g, throws, w, m, Op, []).w.states, d);
  }

  lemma AsksForX(m: Name, x: Name, d: Name, throws: Faults)
    requires m != x && m != d && x != d && NeverFails(throws)
    ensures var (g, w) := (Shared(m, x, d), ErrorAbove(m, x, d));
            && Fits(g, w) && m in g.depends && 1 <= |g.depends[m]|
            && RaiseDepends(g, throws, w, m, Op, [], 0)
               == RaiseDepends(g, throws, SetState(g, throws, w, x, Op, [m]).w, m, Op, [m], 1)
  {
    var g, w := Shared(m, x, d), ErrorAbove(m, x, d);
    SharedIs(m, x, d, throws);
    hide SetState, RaiseDepends, NothingThrows, NeverFails, Blocked, Shared, ErrorAbove;
    assert [] + [m] == [m];
    SetStateCompletes(g, throws, w, x, Op, [m]);
    RaiseTurn(g, throws, w, m, Op, [], 0);
  }

  lemma DropsOutOfError(m: Name, x: Name, d: Name, throws: Faults)
    requires m != x && m != d && x != d && NeverFails(throws)
    ensures var (g, w) := (Shared(m, x, d), ErrorAbove(m, x, d));
            Fits(g, w) && var v := SetState(g, throws, w, x, Op, [m]).w.states; d in v && v[d] != Error
  {
    var g, w := Shared(m, x, d), ErrorAbove(m, x, d);
    SharedIs(m, x, d, throws);
    hide SetState, Finish, RaiseDepends, DropDependents, Move, NoNewErrors, NothingThrows, Blocked, Shared, ErrorAbove;
    IsFinish(g, throws, w, x, Op, [m]);
    RaiseEnds(g, throws, w, x, Op, [m]);
    DropsTheThird(m, x, d, throws);
    var w2 := SetState(g, throws, w, d, Init, [m] + [x]).w;
    FinishGoesOn(g, throws, w, w, w2, x, Op, [m], [m], [m] + [x]);
    MoveErrors(throws, w2, x, Op);
    NotInErrorThen(w2.states, Move(throws, w2, x, Op).w.states, d);
  }

  lemma DropsTheThird(m: Name, x: Name, d: Name, throws: Faults)
    requires m != x && m != d && x != d && NeverFails(throws)
    ensures var (g, w) := (Shared(m, x, d), ErrorAbove(m, x, d));
            && Fits(g, w)
            && var r := SetState(g, throws, w, d, Init, [m] + [x]);
            && r.Return? && d in r.w.states && r.w.states[d] == Init
            && DropDependents(g, throws, w, x, Op, [m], 0) == Next(r.w, [m] + [x])
  {
    var g, w := Shared(m, x, d), ErrorAbove(m, x, d);
    SharedIs(m, x, d, throws);
    Parts(g, throws);
    hide SetState, DropDependents, NothingThrows, Blocked, Shared, ErrorAbove, Registered, NeverFails,
         ExcludesRegistered, Lowers;
    SkipsTwo(m, x, d, throws);
    DropTurn(g, throws, w, x, Op, [m], 2);
    SetStateInitLowers(g, throws, w, d, [m] + [x]);
    DropEnds(g, throws, SetState(g, throws, w, d, Init, [m] + [x]).w, x, Op, [m] + [x]);
  }

  lemma SkipsTwo(m: Name, x: Name, d: Name, throws: Faults)
    requires m != x && m != d && x != d && NeverFails(throws)
    ensures var (g, w) := (Shared(m, x, d), ErrorAbove(m, x, d));
            && Fits(g, w) && |g.order| == 3 && x in g.depends
            && DropDependents(g, throws, w, x, Op, [m], 0) == DropDependents(g, throws, w, x, Op, [m], 2)
  {
    var g, w := Shared(m, x, d), ErrorAbove(m, x, d);
    SharedIs(m, x, d, throws);
    hide SetState, DropDependents, NothingThrows, Blocked, Shared, ErrorAbove, NeverFails;
    Skips(g, throws, w, x, Op, [m], 0);
    Skips(g, throws, w, x, Op, [m], 1);
  }

  lemma Skips(g: Graph, throws: Faults, w: World, m: Name, t: State, caller: seq<Name>, i: nat)
    requires Fits(g, w) && m in g.depends && i < |g.order| && g.order[i] in g.depends
    requires !MustDrop(g, w.states, m, t, caller, g.order[i])
    ensures DropDependents(g, throws, w, m, t, caller, i) == DropDependents(g, throws, w, m, t, caller, i + 1)
  {
    hide SetState, DropDependents;
    DropTurn(g, throws, w, m, t, caller, i);
  }
}
