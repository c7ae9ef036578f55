/** The kernel object: a map of module objects, and the methods that drive them. Each method is
    proved to do to the heap what its function in KernelModel does to a world. */
module Kernel {
  import opened ModuleStates
  import opened Ladder
  import opened Modules
  import M = KernelModel
  import P = KernelPowerUp
  import D = KernelInit

  /** What set_state gives its caller: the module's state, or an exception. */
  datatype Answer = Done(state: State) | Thrown

  datatype Exit = GoOn | ReturnNow | ThrowNow

  /** A loop that leaves set_state leaves it by a return or by an exception. */
  function Ended(exit: Exit, state: State): Answer {
    if exit == ThrowNow then Thrown else Done(state)
  }

  /** The flow that a loop's exit stands for. */
  function FlowOf(exit: Exit, w: M.World, callers: seq<M.Name>): M.Flow {
    match exit
    case GoOn => M.Next(w, callers)
    case ReturnNow => M.Return(w)
    case ThrowNow => M.Throw(w)
  }

  class Kernel {
    const g: M.Graph
    const modules: map<M.Name, Module>
    ghost var steps: seq<M.Step>

    ghost predicate Valid() {
      && M.Mapped(g)
      && modules.Keys == g.depends.Keys == g.excludes.Keys
      && forall a, b :: a in modules && b in modules && a != b ==> modules[a].base != modules[b].base
    }

    constructor (g: M.Graph, modules: map<M.Name, Module>)
      requires M.Mapped(g) && modules.Keys == g.depends.Keys == g.excludes.Keys
      requires forall a, b :: a in modules && b in modules && a != b ==> modules[a].base != modules[b].base
      ensures Valid() && this.g == g && this.modules == modules && steps == []
    {
      this.g, this.modules, steps := g, modules, [];
    }

    ghost function Bases(): set<object> {
      set n | n in modules :: modules[n].base as object
    }

    ghost function Throws(): M.Faults {
      (n: M.Name) => if n in modules then modules[n].base.throws else (k: nat) => false
    }

    /** The abstract world this kernel's heap stands for. */
    ghost function World(): (w: M.World)
      requires Valid()
      reads this, Bases()
      ensures M.Fits(g, w)
      ensures forall n :: n in modules ==> w.states[n] == modules[n].base.state && w.calls[n] == modules[n].base.calls
    {
      M.World(map n | n in modules :: modules[n].base.state, map n | n in modules :: modules[n].base.calls, steps)
    }

    /** mdl->set_state and the exception that follows a refusal. */
    method Move(m: M.Name, t: State) returns (ok: bool)
      requires Valid() && m in modules
      modifies this, Bases()
      ensures var f := M.Move(Throws(), old(World()), m, t); World() == f.w && ok == f.Return?
    {
      hide ModuleDrive, M.Mapped, M.Trail;
      ghost var w := World();
      var base := modules[m].base;
      ghost var d := ModuleDrive(base.state, t, base.throws, base.calls);
      var ret := modules[m].SetState(t);
      steps := steps + M.Trail(w.states, m, d.visited);
      ok := ret != -1;
      assert Throws()(m) == base.throws;
      assert World().states == w.states[m := Last(w.states[m], d.visited)];
      assert World().calls == w.calls[m := d.calls];
    }

    /** kernel::set_state */
    method SetState(m: M.Name, t: State, caller: seq<M.Name>) returns (a: Answer)
      requires Valid()
      modifies this, Bases()
      ensures var f := M.SetState(g, Throws(), old(World()), m, t, caller);
              && World() == f.w
              && (a.Thrown? <==> f.Throw?)
              && (a.Done? ==> m in modules && a.state == modules[m].base.state)
      decreases t != Init, |M.Uncalled(g, caller)|, m in caller, 3, 0
    {
      hide M.Finish, M.Uncalled, M.Mapped, World;
      if m !in modules {
        return Thrown;
      }
      if modules[m].base.state == t {
        return Done(t);
      }
      if t == Boot {
        a := SetState(m, Init, []);
        if a.Thrown? { return; }
      }
      a := Finish(m, t, caller);
    }

    /** set_state from its first loop on. */
    method Finish(m: M.Name, t: State, caller: seq<M.Name>) returns (a: Answer)
      requires Valid() && m in modules
      modifies this, Bases()
      ensures var f := M.Finish(g, Throws(), old(World()), m, t, caller);
              && World() == f.w
              && (a.Thrown? <==> f.Throw?)
              && (a.Done? ==> a.state == modules[m].base.state)
      decreases t != Init, |M.Uncalled(g, caller)|, m in caller, 2, 0
    {
      hide M.SetState, M.Finish, M.RaiseDepends, M.DropDependents, M.DropExcludes, M.Move, M.Uncalled, M.Grown,
           M.Mapped, M.Fits, World;
      ghost var throws, w0 := Throws(), World();
      var exit, callers := RaiseDepends(m, t, caller);
      if exit != GoOn {
        M.FinishStopsRaising(g, throws, w0, m, t, caller);
        return Ended(exit, modules[m].base.state);
      }
      ghost var w1, callers1 := World(), callers;
      M.GrownMeasure(g, caller, callers, m);
      exit, callers := DropDependents(m, t, callers);
      if exit != GoOn {
        M.FinishStopsDropping(g, throws, w0, w1, m, t, caller, callers1);
        return Ended(exit, modules[m].base.state);
      }
      M.FinishGoesOn(g, throws, w0, w1, World(), m, t, caller, callers1, callers);
      M.GrownMeasure(g, callers1, callers, m);
      a := DropExcludesAndMove(m, t, callers);
    }

    /** The end of set_state: the excludes, unless the target is init, and the module itself. */
    method DropExcludesAndMove(m: M.Name, t: State, callers: seq<M.Name>) returns (a: Answer)
      requires Valid() && m in modules
      modifies this, Bases()
      ensures var throws, w := Throws(), old(World());
              var r3 := if t == Init then M.Next(w, callers) else M.DropExcludes(g, throws, w, m, t, callers, 0);
              var f := if !r3.Next? then r3 else M.Move(throws, r3.w, m, t);
              World() == f.w && (a.Thrown? <==> f.Throw?) && (a.Done? ==> a.state == modules[m].base.state)
      decreases t != Init, |M.Uncalled(g, callers)|, m in callers, 1, 2
    {
      hide M.SetState, M.DropExcludes, M.Move, M.Uncalled, M.Mapped, World;
      if t != Init {
        var exit := DropExcludes(m, t, callers);
        if exit != GoOn {
          return Ended(exit, modules[m].base.state);
        }
      }
      var ok := Move(m, t);
      return if ok then Done(modules[m].base.state) else Thrown;
    }

    /** One turn of the loop over the dependencies, for the dependency d. */
    method RaiseDependency(m: M.Name, t: State, ghost caller: seq<M.Name>, callers: seq<M.Name>, i: nat)
      returns (exit: Exit, callers': seq<M.Name>)
      requires Valid() && m in modules && i < |g.depends[m]| && M.Grown(caller, callers, m)
      modifies this, Bases()
      ensures M.Grown(caller, callers', m)
      ensures M.RaiseDepends(g, Throws(), old(World()), m, t, callers, i)
                == match exit
                   case GoOn => M.RaiseDepends(g, Throws(), World(), m, t, callers', i + 1)
                   case ReturnNow => M.Return(World())
                   case ThrowNow => M.Throw(World())
      decreases t != Init, |M.Uncalled(g, caller)|, m in caller, 1, 0
    {
      hide M.SetState, M.RaiseDepends, M.Uncalled, M.Grown, M.Mapped, M.Fits, World;
      callers' := callers;
      M.RaiseTurn(g, Throws(), World(), m, t, callers, i);
      var d := g.depends[m][i];
      if d in callers { return GoOn, callers'; }
      if d !in modules { return ThrowNow, callers'; }
      var state := modules[d].base.state;
      if state == Error && t == Init { return GoOn, callers'; }
      if state == Error { return ReturnNow, callers'; }
      if Code(state) < Code(t) || state == Boot {
        M.PushMeasure(g, caller, callers, m, d);
        callers' := callers + [m];
        var a := SetState(d, t, callers');
        return if a.Thrown? then ThrowNow else GoOn, callers';
      }
      return GoOn, callers';
    }

    /** The loop over the dependencies. */
    method RaiseDepends(m: M.Name, t: State, caller: seq<M.Name>) returns (exit: Exit, callers: seq<M.Name>)
      requires Valid() && m in modules
      modifies this, Bases()
      ensures M.Grown(caller, callers, m)
      ensures M.RaiseDepends(g, Throws(), old(World()), m, t, caller, 0) == FlowOf(exit, World(), callers)
      decreases t != Init, |M.Uncalled(g, caller)|, m in caller, 1, 1
    {
      hide M.SetState, M.RaiseDepends, M.Uncalled, M.Grown, M.Mapped, M.Fits, World;
      M.GrownSame(caller, m);
      callers := caller;
      ghost var throws, w0 := Throws(), World();
      var i := 0;
      while i < |g.depends[m]|
        invariant i <= |g.depends[m]| && M.Grown(caller, callers, m)
        invariant M.RaiseDepends(g, throws, w0, m, t, caller, 0) == M.RaiseDepends(g, throws, World(), m, t, callers, i)
      {
        exit, callers := RaiseDependency(m, t, caller, callers, i);
        if exit != GoOn { return; }
        i := i + 1;
      }
      M.RaiseEnds(g, throws, World(), m, t, callers);
      return GoOn, callers;
    }

    /** One turn of the loop over the module map. */
    method DropDependent(m: M.Name, t: State, ghost caller: seq<M.Name>, callers: seq<M.Name>, i: nat)
      returns (exit: Exit, callers': seq<M.Name>)
      requires Valid() && m in modules && i < |g.order| && M.Grown(caller, callers, m)
      modifies this, Bases()
      ensures M.Grown(caller, callers', m)
      ensures M.DropDependents(g, Throws(), old(World()), m, t, callers, i)
                == match exit
                   case GoOn => M.DropDependents(g, Throws(), World(), m, t, callers', i + 1)
                   case ReturnNow => M.Return(World())
                   case ThrowNow => M.Throw(World())
      decreases t != Init, |M.Uncalled(g, caller)|, m in caller, 1, 0
    {
      hide M.SetState, M.DropDependents, M.Uncalled, M.Grown, M.Mapped, M.Fits, World;
      callers' := callers;
      M.InMap(g, i);
      M.DropTurn(g, Throws(), World(), m, t, callers, i);
      var x := g.order[i];
      if x == m { return GoOn, callers'; }
      var drop := Depends(x, m, callers, t);
      if drop {
        M.PushMeasure(g, caller, callers, m, x);
        callers' := callers + [m];
        var a := SetState(x, Init, callers');
        return if a.Thrown? then ThrowNow else GoOn, callers';
      }
      return GoOn, callers';
    }

    /** The loop over the module map that drops dependents. */
    method DropDependents(m: M.Name, t: State, caller: seq<M.Name>) returns (exit: Exit, callers: seq<M.Name>)
      requires Valid() && m in modules
      modifies this, Bases()
      ensures M.Grown(caller, callers, m)
      ensures M.DropDependents(g, Throws(), old(World()), m, t, caller, 0) == FlowOf(exit, World(), callers)
      decreases t != Init, |M.Uncalled(g, caller)|, m in caller, 1, 1
    {
      hide M.SetState, M.DropDependents, M.Uncalled, M.Grown, M.Mapped, M.Fits, World;
      M.GrownSame(caller, m);
      callers := caller;
      ghost var throws, w0 := Throws(), World();
      var i := 0;
      while i < |g.order|
        invariant i <= |g.order| && M.Grown(caller, callers, m)
        invariant M.DropDependents(g, throws, w0, m, t, caller, 0)
                    == M.DropDependents(g, throws, World(), m, t, callers, i)
      {
        exit, callers := DropDependent(m, t, caller, callers, i);
        if exit != GoOn { return; }
        i := i + 1;
      }
      M.DropEnds(g, throws, World(), m, t, callers);
      return GoOn, callers;
    }

    /** The inner loop over one module's dependencies: does it have to go down because of m? */
    method Depends(x: M.Name, m: M.Name, callers: seq<M.Name>, t: State) returns (drop: bool)
      requires Valid() && x in modules && x != m
      ensures drop <==> M.MustDrop(g, World().states, m, t, callers, x)
    {
      var j := 0;
      while j < |g.depends[x]|
        invariant j <= |g.depends[x]|
        invariant m !in callers && Code(modules[x].base.state) > Code(t) ==> m !in g.depends[x][..j]
      {
        var d := g.depends[x][j];
        j := j + 1;
        if d in callers { continue; }
        if d != m { continue; }
        if Code(modules[x].base.state) > Code(t) { return true; }
      }
      return false;
    }

    /** The loop over the excludes. */
    method DropExcludes(m: M.Name, t: State, callers: seq<M.Name>) returns (exit: Exit)
      requires Valid() && m in modules && t != Init
      modifies this, Bases()
      ensures M.DropExcludes(g, Throws(), old(World()), m, t, callers, 0) == FlowOf(exit, World(), callers)
      decreases true, |M.Uncalled(g, callers)|, m in callers, 1, 1
    {
      hide M.SetState, M.Uncalled, M.Mapped, World;
      ghost var throws, w0 := Throws(), World();
      var i := 0;
      while i < |g.excludes[m]|
        invariant i <= |g.excludes[m]|
        invariant M.DropExcludes(g, throws, w0, m, t, callers, 0)
                    == M.DropExcludes(g, throws, World(), m, t, callers, i)
      {
        var e := g.excludes[m][i];
        i := i + 1;
        if e in callers { continue; }
        if e !in modules { return ThrowNow; }
        if modules[e].base.state == Init { continue; }
        var a := SetState(e, Init, callers);
        if a.Thrown? { return ThrowNow; }
      }
      return GoOn;
    }

    /** kernel::power_up; an empty list of failures is its result true. */
    method PowerUp(targets: M.States) returns (failed: seq<M.Name>)
      requires Valid() && targets.Keys == g.depends.Keys
      modifies this, Bases()
      ensures P.PowerUp(g, targets, Throws(), old(World()), 0, []) == P.PoweredUp(World(), failed)
    {
      hide M.SetState, M.Mapped, M.Fits, World, P.PowerUpModule, P.PowerUp;
      ghost var throws, w0 := Throws(), World();
      failed := [];
      var i := 0;
      while i < |g.order|
        invariant i <= |g.order|
        invariant P.PowerUp(g, targets, throws, w0, 0, []) == P.PowerUp(g, targets, throws, World(), i, failed)
      {
        ghost var w, before := World(), failed;
        P.PowerUpOneTurn(g, targets, throws, w, i, failed);
        var m := g.order[i];
        var bad := PowerUpModule(m, targets[m]);
        failed := failed + bad;
        i := i + 1;
      }
      P.PowerUpEnd(g, targets, throws, World(), failed);
    }

    /** The body of the loop of power_up: the module, if it has to be reported as failed. */
    method PowerUpModule(m: M.Name, target: State) returns (bad: seq<M.Name>)
      requires Valid() && m in modules
      modifies this, Bases()
      ensures var r := P.PowerUpModule(g, Throws(), old(World()), m, target); World() == r.w && bad == r.failed
    {
      hide M.SetState, M.Mapped, World;
      var state := modules[m].base.state;
      if state == Error { return [m]; }
      if Code(state) >= Code(target) && target != Boot { return []; }
      var a := SetState(m, target, []);
      return if a.Thrown? then [m] else [];
    }

    /** kernel::power_down */
    method PowerDown()
      requires Valid()
      modifies this, Bases()
      ensures World() == D.PowerDown(g, Throws(), old(World()), 0)
    {
      hide M.SetState, M.Mapped, World;
      ghost var throws, w0 := Throws(), World();
      var i := 0;
      while i < |g.order|
        invariant i <= |g.order|
        invariant D.PowerDown(g, throws, w0, 0) == D.PowerDown(g, throws, World(), i)
      {
        M.InMap(g, i);
        var m := g.order[i];
        i := i + 1;
        var a := SetState(m, Init, []);
      }
    }
  }
}
