/** power_up computes the least state vector that meets all targets without breaking a dependency. */
module KernelPowerUp {
  import opened ModuleStates
  import opened KernelModel
  import opened KernelGraph
  import opened KernelInit
  import opened KernelRaise

  lemma {:induction false} ConsistentAlong(g: Graph, v: States, p: seq<Name>, a: Name, b: Name)
    requires v.Keys == g.depends.Keys && Consistent(g, v) && PathFrom(g, p, a, b) && b in v
    ensures a in v && Code(v[a]) <= Code(v[b])
    decreases |p|
  {
    if |p| > 1 {
      assert DependsOn(g, p[0], p[1]);
      var q := p[1..];
      forall i | 0 <= i < |q| - 1 ensures DependsOn(g, q[i], q[i + 1]) {
        assert DependsOn(g, p[i + 1], p[i + 2]);
      }
      ConsistentAlong(g, v, q, p[1], b);
    }
  }

  /** In a consistent vector everything a module reaches stands at least as high. */
  lemma ReachedHigher(g: Graph, v: States, a: Name, b: Name)
    requires v.Keys == g.depends.Keys && Consistent(g, v) && Reaches(g, a, b) && b in v
    ensures a in v && Code(v[a]) <= Code(v[b])
  {
    var p :| PathFrom(g, p, a, b);
    ConsistentAlong(g, v, p, a, b);
  }

  /** v with m and all its transitive dependencies below t lifted to t. */
  ghost function Lifted(g: Graph, v: States, m: Name, t: State): States {
    map x | x in v :: if Reaches(g, m, x) && Code(v[x]) < Code(t) then t else v[x]
  }

  /** A successful raise lifts exactly the module and its transitive dependencies below the target. */
  lemma RaiseIsExact(g: Graph, throws: Faults, w: World, m: Name, t: State)
    requires Fits(g, w) && Acyclic(g) && NoExcludes(g) && Good(g, w.states)
    requires m in g.depends && Regular(t) && Code(w.states[m]) < Code(t)
    ensures var r := SetState(g, throws, w, m, t, []);
            r.Return? ==> r.w.states == Lifted(g, w.states, m, t)
  {
    var rank :| IsRank(g, rank);
    hide SetState, Good, Acyclic, NoExcludes;
    SetStateRaises(g, rank, throws, w, m, t, []);
    var r := SetState(g, throws, w, m, t, []);
    if r.Return? {
      LiftedExactly(g, w.states, r.w.states, m, t);
    }
  }

  lemma LiftedExactly(g: Graph, v: States, v': States, m: Name, t: State)
    requires v.Keys == g.depends.Keys && RaisedUpTo(g, v, v', m, t) && Good(g, v') && m in v' && v'[m] == t
    ensures v' == Lifted(g, v, m, t)
  {
    forall x | x in v ensures v'[x] == Lifted(g, v, m, t)[x] {
      if Reaches(g, m, x) {
        ReachedHigher(g, v', m, x);
      }
    }
  }

  /** The world power_up leaves and the modules it reports as failed. */
  datatype PoweredUp = PoweredUp(w: World, failed: seq<Name>)

  /** What power_up does for one module. */
  ghost function PowerUpModule(g: Graph, throws: Faults, w: World, m: Name, target: State): (r: PoweredUp)
    requires Fits(g, w) && m in g.depends
    ensures Fits(g, r.w)
  {
    if w.states[m] == Error then PoweredUp(w, [m])
    else if Code(w.states[m]) >= Code(target) && target != Boot then PoweredUp(w, [])
    else
      var r := SetState(g, throws, w, m, target, []);
      PoweredUp(r.w, if r.Throw? then [m] else [])
  }

  /** kernel::power_up from the i-th module of the map on. */
  ghost function PowerUp(g: Graph, targets: States, throws: Faults, w: World, i: nat, failed: seq<Name>): (r: PoweredUp)
    requires Fits(g, w) && Mapped(g) && targets.Keys == g.depends.Keys && i <= |g.order|
    ensures Fits(g, r.w)
    decreases |g.order| - i
  {
    if i == |g.order| then PoweredUp(w, failed)
    else
      var m := g.order[i];
      var one := PowerUpModule(g, throws, w, m, targets[m]);
      PowerUp(g, targets, throws, one.w, i + 1, failed + one.failed)
  }

  lemma PowerUpOneTurn(g: Graph, targets: States, throws: Faults, w: World, i: nat, failed: seq<Name>)
    requires Fits(g, w) && Mapped(g) && targets.Keys == g.depends.Keys && i < |g.order|
    ensures var m := g.order[i];
            && m in g.depends && m in targets
            && var one := PowerUpModule(g, throws, w, m, targets[m]);
            PowerUp(g, targets, throws, w, i, failed) == PowerUp(g, targets, throws, one.w, i + 1, failed + one.failed)
  {
    hide PowerUpModule, Mapped;
    InMap(g, i);
  }

  lemma PowerUpEnd(g: Graph, targets: States, throws: Faults, w: World, failed: seq<Name>)
    requires Fits(g, w) && Mapped(g) && targets.Keys == g.depends.Keys
    ensures PowerUp(g, targets, throws, w, |g.order|, failed) == PoweredUp(w, failed)
  {
  }

  /** v' holds v and the targets from below and breaks no dependency. */
  ghost predicate Meets(g: Graph, v: States, targets: States, v': States) {
    NoHigher(v', v) && NoHigher(v', targets) && Consistent(g, v')
  }

  /** Every state change between the worlds leaves a good vector. */
  ghost predicate StaysGood(g: Graph, w: World, w': World) {
    && w.steps <= w'.steps
    && Good(g, w'.states)
    && forall i :: |w.steps| <= i < |w'.steps| ==> Good(g, w'.steps[i].After())
  }

  /** From w to w' dependencies are kept at every step and nothing is lowered, nor raised above
      what any vector that meets start and targets asks for. */
  ghost predicate Climbs(g: Graph, targets: States, w: World, w': World) {
    && StaysGood(g, w, w')
    && NoHigher(w'.states, w.states)
    && forall u :: Meets(g, w.states, targets, u) ==> NoHigher(u, w'.states)
  }

  lemma ClimbsOn(g: Graph, targets: States, a: World, b: World, c: World)
    requires Climbs(g, targets, a, b) && Climbs(g, targets, b, c)
    ensures Climbs(g, targets, a, c)
  {
    forall i | |a.steps| <= i < |c.steps| ensures Good(g, c.steps[i].After()) {
      if i < |b.steps| {
        assert c.steps[i] == b.steps[i];
      }
    }
    forall u | Meets(g, a.states, targets, u) ensures NoHigher(u, c.states) {
      assert Meets(g, b.states, targets, u);
    }
  }

  /** The first i modules of the map stand at their targets, but for those reported as failed. */
  ghost predicate Met(g: Graph, v: States, targets: States, i: nat, failed: seq<Name>)
    requires i <= |g.order|
  {
    forall j :: 0 <= j < i && g.order[j] in v && g.order[j] in targets && g.order[j] !in failed ==>
                  Code(targets[g.order[j]]) <= Code(v[g.order[j]])
  }

  lemma MetOn(g: Graph, v: States, v': States, targets: States, i: nat, failed: seq<Name>, failed': seq<Name>)
    requires i < |g.order| && Met(g, v, targets, i, failed) && NoHigher(v', v) && failed <= failed'
    requires var m := g.order[i]; m in failed' || (m in v && m in targets && Code(targets[m]) <= Code(v'[m]))
    ensures Met(g, v', targets, i + 1, failed')
  {
  }

  /** One raise on the way up. */
  lemma RaiseClimbs(g: Graph, targets: States, throws: Faults, w: World, m: Name)
    requires Fits(g, w) && Acyclic(g) && NoExcludes(g) && Good(g, w.states)
    requires m in g.depends && m in targets && Regular(targets[m]) && Code(w.states[m]) < Code(targets[m])
    ensures var r := SetState(g, throws, w, m, targets[m], []);
            && Climbs(g, targets, w, r.w) && Good(g, r.w.states) && NoHigher(r.w.states, w.states)
            && (r.Return? ==> r.w.states[m] == targets[m])
            && (Registered(g) && NeverFails(throws) ==> r.Return?)
  {
    var rank :| IsRank(g, rank);
    hide SetState, Good, Acyclic, NoExcludes, Registered, NeverFails;
    SetStateRaises(g, rank, throws, w, m, targets[m], []);
    RaisesClimbs(g, targets, w, SetState(g, throws, w, m, targets[m], []).w, m, targets[m]);
  }

  lemma RaisesClimbs(g: Graph, targets: States, w: World, w': World, m: Name, t: State)
    requires w.states.Keys == g.depends.Keys && Raises(g, w, w', m, t) && m in targets && targets[m] == t
    ensures Climbs(g, targets, w, w') && Good(g, w'.states) && NoHigher(w'.states, w.states)
  {
    forall u | Meets(g, w.states, targets, u) ensures NoHigher(u, w'.states) {
      LiftedBelow(g, w.states, w'.states, m, t, u);
    }
    forall i | |w.steps| <= i < |w'.steps| ensures Good(g, w'.steps[i].After()) {
      assert RaisingStep(g, w.states, w'.steps[i], m, t);
    }
  }

  lemma LiftedBelow(g: Graph, v: States, v': States, m: Name, t: State, u: States)
    requires v.Keys == g.depends.Keys && RaisedUpTo(g, v, v', m, t)
    requires NoHigher(u, v) && Consistent(g, u) && m in u && Code(t) <= Code(u[m])
    ensures NoHigher(u, v')
  {
    forall x | x in v' ensures Code(v'[x]) <= Code(u[x]) {
      if Reaches(g, m, x) {
        ReachedHigher(g, u, m, x);
      }
    }
  }

  ghost predicate ClimbsToTargets(g: Graph, targets: States, throws: Faults, w: World, failed: seq<Name>,
          r: PoweredUp) {
    && Climbs(g, targets, w, r.w)
    && Met(g, r.w.states, targets, |g.order|, r.failed)
    && (Registered(g) && NeverFails(throws) ==> r.failed == failed)
  }

  /** power_up, whatever fails on the way: it climbs, and every module not reported meets its target. */
  lemma {:induction false} PowerUpClimbs(g: Graph, targets: States, throws: Faults, w: World, i: nat, failed: seq<Name>)
    requires Fits(g, w) && Mapped(g) && targets.Keys == g.depends.Keys && i <= |g.order|
    requires Acyclic(g) && NoExcludes(g) && Good(g, w.states) && (forall x :: x in targets ==> Regular(targets[x]))
    requires Met(g, w.states, targets, i, failed)
    ensures ClimbsToTargets(g, targets, throws, w, failed, PowerUp(g, targets, throws, w, i, failed))
    decreases |g.order| - i
  {
    hide *;
    if i == |g.order| {
      PowerUpEnds(g, targets, throws, w, failed);
    } else {
      PowerUpTurn(g, targets, throws, w, i, failed);
      var m := g.order[i];
      if Code(w.states[m]) < Code(targets[m]) {
        RaiseClimbs(g, targets, throws, w, m);
        var r := SetState(g, throws, w, m, targets[m], []);
        var failed1 := failed + if r.Throw? then [m] else [];
        MetOn(g, w.states, r.w.states, targets, i, failed, failed1);
        PowerUpClimbs(g, targets, throws, r.w, i + 1, failed1);
        ClimbsThrough(g, targets, throws, w, r, failed, failed1, PowerUp(g, targets, throws, r.w, i + 1, failed1));
      } else {
        NotLower(w.states);
        MetOn(g, w.states, w.states, targets, i, failed, failed);
        PowerUpClimbs(g, targets, throws, w, i + 1, failed);
      }
    }
  }

  lemma NotLower(v: States)
    ensures NoHigher(v, v)
  {
  }

  lemma ClimbsThrough(g: Graph, targets: States, throws: Faults, w: World, r: Flow, failed: seq<Name>,
          failed1: seq<Name>, all: PoweredUp)
    requires Climbs(g, targets, w, r.w) && (Registered(g) && NeverFails(throws) ==> failed1 == failed)
    requires ClimbsToTargets(g, targets, throws, r.w, failed1, all)
    ensures ClimbsToTargets(g, targets, throws, w, failed, all)
  {
    ClimbsOn(g, targets, w, r.w, all.w);
  }

  lemma ClimbsNothing(g: Graph, targets: States, w: World)
    requires Good(g, w.states)
    ensures Climbs(g, targets, w, w)
  {
  }

  lemma PowerUpEnds(g: Graph, targets: States, throws: Faults, w: World, failed: seq<Name>)
    requires Fits(g, w) && Mapped(g) && targets.Keys == g.depends.Keys
    requires Good(g, w.states) && Met(g, w.states, targets, |g.order|, failed)
    ensures ClimbsToTargets(g, targets, throws, w, failed, PowerUp(g, targets, throws, w, |g.order|, failed))
  {
    hide SetState, Good, Met;
    ClimbsNothing(g, targets, w);
    assert PowerUp(g, targets, throws, w, |g.order|, failed) == PoweredUp(w, failed);
  }

  lemma PowerUpTurn(g: Graph, targets: States, throws: Faults, w: World, i: nat, failed: seq<Name>)
    requires Fits(g, w) && Mapped(g) && targets.Keys == g.depends.Keys && i < |g.order|
    requires Good(g, w.states) && forall x :: x in targets ==> Regular(targets[x])
    ensures var m, all := g.order[i], PowerUp(g, targets, throws, w, i, failed);
            && m in g.depends && m in w.states && m in targets && Regular(targets[m])
            && if Code(w.states[m]) < Code(targets[m]) then
                 var r := SetState(g, throws, w, m, targets[m], []);
                 all == PowerUp(g, targets, throws, r.w, i + 1, failed + if r.Throw? then [m] else [])
               else all == PowerUp(g, targets, throws, w, i + 1, failed)
  {
    hide SetState, Good, Mapped;
    InMap(g, i);
    GoodRegular(g, w.states, g.order[i]);
    assert failed + [] == failed;
  }

  lemma GoodRegular(g: Graph, v: States, m: Name)
    requires Good(g, v) && m in v
    ensures Regular(v[m])
  {
  }

  /** power_up with all hooks passing ends in the least vector that meets start and targets. */
  lemma PowerUpIsLeast(g: Graph, targets: States, throws: Faults, w: World)
    requires Fits(g, w) && Mapped(g) && targets.Keys == g.depends.Keys
    requires Acyclic(g) && NoExcludes(g) && Registered(g) && NeverFails(throws)
    requires Good(g, w.states) && forall x :: x in targets ==> Regular(targets[x])
    ensures var r := PowerUp(g, targets, throws, w, 0, []);
            && r.failed == []
            && StaysGood(g, w, r.w)
            && Meets(g, w.states, targets, r.w.states)
            && forall u :: Meets(g, w.states, targets, u) ==> NoHigher(u, r.w.states)
  {
    hide PowerUp, Mapped, Registered, NeverFails, Acyclic, NoExcludes, StaysGood;
    PowerUpClimbs(g, targets, throws, w, 0, []);
    AllMeet(g, w, targets, PowerUp(g, targets, throws, w, 0, []).w);
  }

  lemma AllMeet(g: Graph, w: World, targets: States, w': World)
    requires Mapped(g) && targets.Keys == g.depends.Keys == w.states.Keys
    requires Climbs(g, targets, w, w') && Met(g, w'.states, targets, |g.order|, [])
    ensures Meets(g, w.states, targets, w'.states)
  {
    forall x | x in targets ensures Code(targets[x]) <= Code(w'.states[x]) {
      assert x in g.order;
    }
  }

  lemma SameStates(v: States, v': States)
    requires NoHigher(v, v') && NoHigher(v', v)
    ensures v == v'
  {
    forall x | x in v ensures v[x] == v'[x] {
      assert Code(v[x]) == Code(v'[x]);
    }
  }

  /** The order of the module map does not matter to where power_up ends. */
  lemma PowerUpIgnoresOrder(g: Graph, g': Graph, targets: States, throws: Faults, throws': Faults, w: World)
    requires g'.depends == g.depends && g'.excludes == g.excludes && Mapped(g) && Mapped(g')
    requires Fits(g, w) && targets.Keys == g.depends.Keys && Acyclic(g) && NoExcludes(g) && Registered(g)
    requires NeverFails(throws) && NeverFails(throws')
    requires Good(g, w.states) && forall x :: x in targets ==> Regular(targets[x])
    ensures PowerUp(g, targets, throws, w, 0, []).w.states == PowerUp(g', targets, throws', w, 0, []).w.states
  {
    hide PowerUp;
    SameDependencies(g, g', w.states);
    PowerUpIsLeast(g, targets, throws, w);
    PowerUpIsLeast(g', targets, throws', w);
    var v, v' := PowerUp(g, targets, throws, w, 0, []).w.states, PowerUp(g', targets, throws', w, 0, []).w.states;
    SameDependencies(g, g', v);
    SameDependencies(g, g', v');
    assert Meets(g, w.states, targets, v') && Meets(g', w.states, targets, v);
    SameStates(v, v');
  }

  lemma SameDependencies(g: Graph, g': Graph, v: States)
    requires g'.depends == g.depends && g'.excludes == g.excludes
    ensures Consistent(g', v) <==> Consistent(g, v)
    ensures Good(g', v) <==> Good(g, v)
    ensures Acyclic(g) ==> Acyclic(g')
    ensures NoExcludes(g) ==> NoExcludes(g')
    ensures Registered(g) ==> Registered(g')
  {
    forall a, b ensures DependsOn(g, a, b) <==> DependsOn(g', a, b) {
    }
    if Acyclic(g) {
      var rank :| IsRank(g, rank);
      assert IsRank(g', rank);
    }
  }
}
