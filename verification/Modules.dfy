/** The two objects behind one module: module_base runs the hooks, module issues the requests.
    Both are proved to do exactly what the walk specification in Ladder says. */
module Modules {
  import opened ModuleStates
  import opened Ladder
  import opened LadderProofs

  datatype Snapshot = Snapshot(state: State, hooks: seq<Hook>, visited: seq<State>)

  /** From one snapshot to a later one exactly the given hooks were done, with their state changes. */
  ghost predicate Walked'(was: Snapshot, now: Snapshot, done: seq<Hook>) {
    && (forall h <- done :: h.to < 4)
    && now.hooks == was.hooks + done
    && now.visited == was.visited + Rungs(done)
    && now.state == Last(was.state, Rungs(done))
  }

  /** From one snapshot to a later one exactly the effects of a drive happened. */
  ghost predicate Did'(was: Snapshot, now: Snapshot, d: Drive) {
    && now.state == Last(was.state, d.visited)
    && now.visited == was.visited + d.visited
    && now.hooks == was.hooks + d.hooks
  }

  lemma DidOn(was: Snapshot, mid: Snapshot, now: Snapshot, a: Drive, b: Drive)
    requires Did'(was, mid, a) && Did'(mid, now, b)
    ensures Did'(was, now, b.(visited := a.visited + b.visited, hooks := a.hooks + b.hooks))
  {
  }

  lemma WalkedOn(was: Snapshot, mid: Snapshot, now: Snapshot, a: seq<Hook>, b: seq<Hook>)
    requires Walked'(was, mid, a) && Walked'(mid, now, b)
    ensures Walked'(was, now, a + b)
  {
    assert Rungs(a + b) == Rungs(a) + Rungs(b);
  }

  /** Pairs of states joined by a walk; any other pair is handled without hooks. */
  predicate Walkable(s: State, t: State) {
    s != Error && t != Error && !(s == Boot && t == Boot)
  }

  /** module_base with a record of what its hooks did. */
  class ModuleBase {
    const throws: Hooks
    var state: State
    var calls: nat
    var hooks: seq<Hook>
    var visited: seq<State>

    constructor (throws: Hooks)
      ensures this.throws == throws && state == Init && calls == 0 && hooks == [] && visited == []
    {
      this.throws := throws;
      state, calls, hooks, visited := Init, 0, [], [];
    }

    /** How the object now differs from an earlier snapshot of it. */
    ghost predicate Did(was: Snapshot, d: Drive)
      reads this
    {
      Did'(was, Snap(), d) && calls == d.calls
    }

    ghost function Snap(): Snapshot
      reads this
    {
      Snapshot(state, hooks, visited)
    }

    ghost predicate Walked(was: Snapshot, done: seq<Hook>)
      reads this
    {
      Walked'(was, Snap(), done)
    }

    /** Part way through: the hooks done, then a walk from here to the goal, make up the whole. */
    ghost predicate OnCourse(was: Snapshot, done: seq<Hook>, goal: nat, whole: Walk)
      reads this
    {
      && Walked(was, done)
      && var rest := WalkTo(Rung(state), goal, throws, calls);
         whole == rest.(hooks := done + rest.hooks)
    }

    method Assign(s: State)
      modifies this`state, this`visited
      ensures state == s && visited == old(visited) + if s == old(state) then [] else [s]
    {
      if state != s {
        visited := visited + [s];
      }
      state := s;
    }

    /** try_set_state: one hook call; on success the state moves to the hook's end. */
    method Try(hook: Hook, ghost was: Snapshot, ghost done: seq<Hook>, ghost goal: nat, ghost whole: Walk)
      returns (ok: bool)
      requires OnCourse(was, done, goal, whole)
      requires Rung(state) != goal && hook.to < 4 && hook == Hook(Rung(state), Toward(Rung(state), goal))
      modifies this
      ensures ok == !throws(old(calls)) && calls == old(calls) + 1
      ensures ok ==> state == AtRung(hook.to) && OnCourse(was, done + [hook], goal, whole)
      ensures ok && hook.to == goal ==> whole == Walk(goal, calls, done + [hook])
      ensures !ok ==> Walked(was, done) && whole == Walk(Rung(state), calls, done) && state == old(state)
    {
      ok := !throws(calls);
      calls := calls + 1;
      if ok {
        hooks := hooks + [hook];
        Assign(AtRung(hook.to));
        var all := done + [hook];
        assert Rungs([hook]) == [AtRung(hook.to)];
        WalkedOn(was, old(Snap()), Snap(), done, [hook]);
        var rest := WalkTo(hook.to, goal, throws, calls);
        assert done + ([hook] + rest.hooks) == all + rest.hooks;
      }
    }

    /** What either half of the switch does: the walk to the target, as far as the hooks let it. */
    twostate predicate Transited(target: State, ok: bool, done: seq<Hook>)
      reads this
    {
      && Walked(old(Snap()), done)
      && WalkTo(Rung(old(state)), Rung(target), throws, old(calls)) == Walk(Rung(state), calls, done)
      && ok == (Rung(state) == Rung(target))
    }

    /** The half of the switch that leads down, entered at the case label of the current state. */
    method RunDown(target: State) returns (ok: bool, ghost done: seq<Hook>)
      requires state in {Op, Safeop, Preop, Init} && target != Error && Rung(target) <= Rung(state)
      modifies this
      ensures Transited(target, ok, done)
    {
      var from := state;
      done := [];
      ghost var was, goal := Snap(), Rung(target);
      ghost var whole := WalkTo(Rung(from), goal, throws, calls);
      ok := true;
      assert OnCourse(was, done, goal, whole);
      var on := false; // a case label was reached; control falls through from there
      on := from == Op && target in {Safeop, Preop, Init, Boot};
      if on {
        ok := Try(Hook(3, 2), was, done, goal, whole);
        if !ok { return; }
        done := done + [Hook(3, 2)];
        if target == Safeop { return; }
      }
      on := on || (from == Safeop && target in {Preop, Init, Boot});
      if on {
        ok := Try(Hook(2, 1), was, done, goal, whole);
        if !ok { return; }
        done := done + [Hook(2, 1)];
        if target == Preop { return; }
      }
      on := on || (from == Preop && target in {Init, Boot});
      if on {
        ok := Try(Hook(1, 0), was, done, goal, whole);
        if !ok { return; }
        done := done + [Hook(1, 0)];
      }
    }

    /** The half of the switch that leads up; leaving boot runs no hook before init_2_preop. */
    method RunUp(target: State) returns (ok: bool, ghost done: seq<Hook>)
      requires state != Error && target !in {Error, Boot} && Rung(state) <= Rung(target)
      modifies this
      ensures Transited(target, ok, done)
    {
      var from := state;
      done := [];
      ghost var was, goal := Snap(), Rung(target);
      ghost var whole := WalkTo(Rung(from), goal, throws, calls);
      ok := true;
      assert OnCourse(was, done, goal, whole);
      var on := from == Boot;
      if on && target == Init { return; }
      on := on || (from == Init && target in {Op, Safeop, Preop});
      if on {
        ok := Try(Hook(0, 1), was, done, goal, whole);
        if !ok { return; }
        done := done + [Hook(0, 1)];
        if target == Preop { return; }
      }
      on := on || (from == Preop && target in {Op, Safeop});
      if on {
        ok := Try(Hook(1, 2), was, done, goal, whole);
        if !ok { return; }
        done := done + [Hook(1, 2)];
        if target == Safeop { return; }
      }
      on := on || (from == Safeop && target == Op);
      if on {
        ok := Try(Hook(2, 3), was, done, goal, whole);
        if !ok { return; }
        done := done + [Hook(2, 3)];
      }
    }

    method SetState(target: State) returns (ret: State)
      modifies this
      ensures var d := BaseDrive(old(state), target, throws, old(calls));
              Did(old(Snap()), d) && ret == if d.ok then target else Error
    {
      hide BaseDrive, WalkTo, Rungs, Walkable, Walked';
      ghost var was, from, c := Snap(), state, calls;
      BaseDriveShape(from, target, throws, c);
      if !Walkable(state, target) {
        Assign(target);
        return target;
      }
      var ok;
      ghost var done;
      WalkableStates(from, target);
      if state != Boot && Rung(target) <= Rung(state) {
        ok, done := RunDown(target);
      } else {
        ok, done := RunUp(target);
      }
      ghost var mid := Snap();
      if ok {
        Assign(target);
      }
      DidFinish(was, mid, Snap(), done, ok, target, calls);
      return if ok then target else Error;
    }

    lemma WalkableStates(from: State, target: State)
      requires Walkable(from, target)
      ensures from != Error && target != Error && (from == Boot ==> target != Boot)
      ensures target == Boot ==> Rung(target) <= Rung(from)
    {
    }

    lemma BaseDriveShape(from: State, target: State, throws: Hooks, calls: nat)
      ensures var d := BaseDrive(from, target, throws, calls);
              if Walkable(from, target) then
                var w := WalkTo(Rung(from), Rung(target), throws, calls);
                InRange(w) && d == Finished(from, w.hooks, w.rung == Rung(target), target, w.calls)
              else d == Drive(if from == target then [] else [target], calls, [], true)
    {
      WalkInRange(Rung(from), Rung(target), throws, calls);
    }
  }

  /** The drive made of a walk and the assignment of the target that ends set_state. */
  ghost function Finished(from: State, hooks: seq<Hook>, ok: bool, target: State, calls: nat): Drive
    requires forall h <- hooks :: h.to < 4
  {
    var up := Rungs(hooks);
    Drive(up + (if ok && Last(from, up) != target then [target] else []), calls, hooks, ok)
  }

  lemma DidFinish(was: Snapshot, mid: Snapshot, now: Snapshot, done: seq<Hook>, ok: bool, target: State, calls: nat)
    requires Walked'(was, mid, done) && now.hooks == mid.hooks
    requires now.state == if ok then target else mid.state
    requires now.visited == mid.visited + if ok && mid.state != target then [target] else []
    ensures Did'(was, now, Finished(was.state, done, ok, target, calls))
  {
  }

  /** Two regular states on one rung are the same state. */
  lemma SameRung(s: State, t: State)
    requires Regular(s) && Regular(t) && Rung(s) == Rung(t)
    ensures s == t
  {
  }

  /** module: drives a module_base through the ladder of requests. */
  class Module {
    const base: ModuleBase

    constructor (base: ModuleBase)
      ensures this.base == base
    {
      this.base := base;
    }

    /** set_state__check between two regular states on the way to the goal: one leg of the walk. */
    method Check(to: State, ghost was: Snapshot, ghost done: seq<Hook>, ghost goal: nat, ghost whole: Walk)
      returns (ok: bool, ghost all: seq<Hook>)
      requires Regular(base.state) && Regular(to) && Between(Rung(base.state), Rung(to), goal)
      requires base.OnCourse(was, done, goal, whole)
      modifies base
      ensures Regular(base.state)
      ensures ok ==> base.state == to && base.OnCourse(was, all, goal, whole)
      ensures ok && Rung(to) == goal ==> whole == Walk(goal, base.calls, all)
      ensures !ok ==> base.Walked(was, all) && whole == Walk(Rung(base.state), base.calls, all) && whole.rung != goal
    {
      ghost var from, calls, mid := base.state, base.calls, base.Snap();
      var ret := base.SetState(to);
      ok := ret == to;
      ghost var leg := WalkTo(Rung(from), Rung(to), base.throws, calls);
      all := done + leg.hooks;
      LegLands(from, to, base.throws, calls);
      LegDrive(from, to, base.throws, calls);
      ExtendLegs(from, to, goal, done, whole, base.throws, calls);
      assert base.Walked(mid, leg.hooks);
      WalkedOn(was, mid, base.Snap(), done, leg.hooks);
    }

    /** Where a leg between regular states lands. */
    lemma LegLands(from: State, to: State, throws: Hooks, calls: nat)
      requires Regular(from) && Regular(to)
      ensures var leg := WalkTo(Rung(from), Rung(to), throws, calls);
              && InRange(leg)
              && var now := Last(from, Rungs(leg.hooks));
              Regular(now) && Rung(now) == leg.rung && (leg.rung == Rung(to) ==> now == to)
    {
      var leg := WalkTo(Rung(from), Rung(to), throws, calls);
      WalkInRange(Rung(from), Rung(to), throws, calls);
      assert Continuous(leg.hooks, Rung(from), leg.rung) by { WalkIsPrefix(Rung(from), Rung(to), throws, calls); }
      ClimbedRung(from, leg.hooks, leg.rung);
      assert Climbed(from, leg.hooks) == Rungs(leg.hooks);
    }

    /** A request between regular states assigns the rungs of its leg and nothing else. */
    lemma LegDrive(from: State, to: State, throws: Hooks, calls: nat)
      requires Regular(from) && Regular(to)
      ensures var leg := WalkTo(Rung(from), Rung(to), throws, calls);
              && InRange(leg)
              && BaseDrive(from, to, throws, calls)
                 == Drive(Rungs(leg.hooks), leg.calls, leg.hooks, leg.rung == Rung(to))
    {
      LegLands(from, to, throws, calls);
    }

    lemma ExtendLegs(from: State, to: State, goal: nat, done: seq<Hook>, whole: Walk, throws: Hooks, calls: nat)
      requires Between(Rung(from), Rung(to), goal)
      requires var rest := WalkTo(Rung(from), goal, throws, calls); whole == rest.(hooks := done + rest.hooks)
      ensures var leg := WalkTo(Rung(from), Rung(to), throws, calls);
              var all := done + leg.hooks;
              if leg.rung == Rung(to) then
                var rest := WalkTo(Rung(to), goal, throws, leg.calls); whole == rest.(hooks := all + rest.hooks)
              else whole == leg.(hooks := all) && whole.rung != goal
    {
      hide WalkTo;
      WalkInLegs(Rung(from), Rung(to), goal, throws, calls);
      var leg := WalkTo(Rung(from), Rung(to), throws, calls);
      if leg.rung == Rung(to) {
        var rest := WalkTo(Rung(to), goal, throws, leg.calls);
        assert done + (leg.hooks + rest.hooks) == (done + leg.hooks) + rest.hooks;
      }
    }

    /** What the part of the switch between two regular states achieves. */
    twostate predicate Driven(target: State, ok: bool, done: seq<Hook>)
      reads this, base
    {
      && base.Walked(old(base.Snap()), done)
      && WalkTo(Rung(old(base.state)), Rung(target), base.throws, old(base.calls))
         == Walk(Rung(base.state), base.calls, done)
      && Regular(base.state)
      && ok == (Rung(base.state) == Rung(target))
    }

    /** The requests that lower a module, entered at the case label of its current state. */
    method Lower(target: State) returns (ok: bool, ghost done: seq<Hook>)
      requires Regular(base.state) && Regular(target) && Rung(target) < Rung(base.state)
      modifies base
      ensures Driven(target, ok, done)
    {
      var from := base.state;
      done := [];
      ghost var was, goal := base.Snap(), Rung(target);
      ghost var whole := WalkTo(Rung(from), goal, base.throws, base.calls);
      assert base.OnCourse(was, done, goal, whole);
      var on := from == Op;
      if on && target == Safeop {
        ok, done := Check(Safeop, was, done, goal, whole);
        return;
      }
      on := on || from == Safeop;
      if on {
        ok, done := Check(Preop, was, done, goal, whole);
        if !ok || target == Preop { return; }
      }
      ok, done := Check(Init, was, done, goal, whole);
    }

    /** The requests that raise a module, entered at the case label of its current state. */
    method Raise(target: State) returns (ok: bool, ghost done: seq<Hook>)
      requires Regular(base.state) && Regular(target) && Rung(base.state) < Rung(target)
      modifies base
      ensures Driven(target, ok, done)
    {
      var from := base.state;
      done := [];
      ghost var was, goal := base.Snap(), Rung(target);
      ghost var whole := WalkTo(Rung(from), goal, base.throws, base.calls);
      assert base.OnCourse(was, done, goal, whole);
      var on := from == Init;
      if on {
        ok, done := Check(Preop, was, done, goal, whole);
        if !ok || target == Preop { return; }
      }
      on := on || from == Preop;
      if on {
        ok, done := Check(Safeop, was, done, goal, whole);
        if !ok || target == Safeop { return; }
      }
      ok, done := Check(Op, was, done, goal, whole);
    }

    /** A move between two regular states, the same state included. */
    method Move(target: State) returns (ok: bool, ghost done: seq<Hook>)
      requires Regular(base.state) && Regular(target)
      modifies base
      ensures Driven(target, ok, done)
    {
      if Rung(target) < Rung(base.state) {
        ok, done := Lower(target);
      } else if Rung(base.state) < Rung(target) {
        ok, done := Raise(target);
      } else {
        done := [];
        ghost var goal := Rung(target);
        ok, done := Check(target, base.Snap(), done, goal, WalkTo(goal, goal, base.throws, base.calls));
      }
    }

    /** set_state on a module that is neither in boot nor in error. */
    method FromRegular(target: State) returns (ok: bool)
      requires Regular(base.state) && target != Error
      modifies base
      ensures var d := ModuleDrive(old(base.state), target, base.throws, old(base.calls));
              base.Did(old(base.Snap()), d) && ok == d.ok
    {
      hide ModuleDrive, BaseDrive, WalkTo, Rungs, Walked';
      ghost var was, from, calls := base.Snap(), base.state, base.calls;
      ghost var done;
      ok, done := Move(if target == Boot then Init else target);
      FromRegularDrive(from, target, base.throws, calls);
      ghost var mid, walked := base.Snap(), Drive(Rungs(done), base.calls, done, ok);
      WalkedIsDrive(was, mid, done, walked);
      if ok && target == Boot {
        SameRung(base.state, Init);
        NoHooksBeside(base.throws, base.calls);
        var reached := base.SetState(Boot);
        ok := reached == Boot;
        DidOn(was, mid, base.Snap(), walked, Drive([Boot], base.calls, [], true));
      }
    }

    lemma WalkedIsDrive(was: Snapshot, now: Snapshot, done: seq<Hook>, d: Drive)
      requires Walked'(was, now, done) && d.visited == Rungs(done) && d.hooks == done
      ensures Did'(was, now, d) && Did'(was, now, d.(visited := d.visited + [], hooks := d.hooks + []))
    {
    }

    /** Between init and boot, and out of error, no hook is called. */
    lemma NoHooksBeside(throws: Hooks, calls: nat)
      ensures BaseDrive(Init, Boot, throws, calls) == Drive([Boot], calls, [], true)
      ensures BaseDrive(Boot, Init, throws, calls) == Drive([Init], calls, [], true)
      ensures BaseDrive(Error, Init, throws, calls) == Drive([Init], calls, [], true)
      ensures ModuleDrive(Boot, Init, throws, calls) == Drive([Init], calls, [], true)
      ensures ModuleDrive(Error, Init, throws, calls) == Drive([Init], calls, [], true)
    {
    }

    lemma RefusedDrive(s: State, t: State, throws: Hooks, calls: nat)
      requires Refused(s, t)
      ensures ModuleDrive(s, t, throws, calls) == Drive([], calls, [], false)
    {
    }

    lemma FromRegularDrive(from: State, target: State, throws: Hooks, calls: nat)
      requires Regular(from) && target != Error
      ensures var w := WalkTo(Rung(from), Rung(target), throws, calls);
              && InRange(w)
              && var ok := w.rung == Rung(target);
              ModuleDrive(from, target, throws, calls)
                == Drive(Rungs(w.hooks) + (if ok && target == Boot then [Boot] else []), w.calls, w.hooks + [], ok)
    {
      WalkInRange(Rung(from), Rung(target), throws, calls);
    }

    /** Leaving boot is a request for init followed by the rest of the way. */
    lemma LeaveBoot(target: State, throws: Hooks, calls: nat)
      requires target !in {Error, Boot, Init}
      ensures var d := ModuleDrive(Init, target, throws, calls);
              ModuleDrive(Boot, target, throws, calls) == d.(visited := [Init] + d.visited)
    {
      WalkInRange(0, Rung(target), throws, calls);
    }

    /** module::set_state: 0 exactly when the target is reached, -1 otherwise. */
    method SetState(target: State) returns (ret: int)
      modifies base
      ensures var d := ModuleDrive(old(base.state), target, base.throws, old(base.calls));
              base.Did(old(base.Snap()), d) && ret == if d.ok then 0 else -1
    {
      hide ModuleDrive, BaseDrive, WalkTo;
      var from := base.state;
      ghost var was := base.Snap();
      NoHooksBeside(base.throws, base.calls);
      if from == Error && target == Init {
        var reached := base.SetState(Init);
        return if reached == Init then 0 else -1;
      }
      if from == Error || target == Error || (from == Boot && target == Boot) {
        RefusedDrive(from, target, base.throws, base.calls);
        return -1;
      }
      if from == Boot {
        var reached := base.SetState(Init);
        if reached != Init { return -1; }
        if target == Init { return 0; }
        LeaveBoot(target, base.throws, base.calls);
      }
      ghost var mid, first := base.Snap(), Drive(if from == Boot then [Init] else [], base.calls, [], true);
      assert Did'(was, mid, first);
      ghost var rest := ModuleDrive(base.state, target, base.throws, base.calls);
      var ok := FromRegular(target);
      DidOn(was, mid, base.Snap(), first, rest);
      return if ok then 0 else -1;
    }
  }
}
