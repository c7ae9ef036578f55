/** Raising a module on an acyclic dependency graph: no step, not even with hooks throwing, puts a
    module above one of its dependencies, and exactly what has to be raised is raised, in order. */
module KernelRaise {
  import opened ModuleStates
  import opened Ladder
  import opened LadderProofs
  import opened KernelModel
  import opened KernelGraph

  type Rank = Name -> nat

  /** A rank that falls along every dependency. */
  ghost predicate IsRank(g: Graph, rank: Rank) {
    forall a, b :: DependsOn(g, a, b) ==> rank(b) < rank(a)
  }

  ghost predicate Acyclic(g: Graph) {
    exists rank :: IsRank(g, rank)
  }

  ghost predicate NoExcludes(g: Graph) {
    forall a :: a in g.excludes ==> g.excludes[a] == []
  }

  /** No module stands above one of its dependencies. */
  ghost predicate Consistent(g: Graph, v: States) {
    forall a, b :: DependsOn(g, a, b) && a in v && b in v ==> Code(v[a]) <= Code(v[b])
  }

  /** Consistent, with every module on the operational ladder. */
  ghost predicate Good(g: Graph, v: States) {
    (forall x :: x in v ==> Regular(v[x])) && Consistent(g, v)
  }

  /** v' differs from v only by transitive dependencies of m (m included) raised to at most t. */
  ghost predicate RaisedUpTo(g: Graph, v: States, v': States, m: Name, t: State) {
    v'.Keys == v.Keys
    && forall x :: x in v ==> v'[x] == v[x] || (Reaches(g, m, x) && Code(v[x]) < Code(v'[x]) <= Code(t))
  }

  ghost predicate RaisingStep(g: Graph, v: States, s: Step, m: Name, t: State) {
    s.mod in s.before && Code(s.before[s.mod]) < Code(s.to) && Good(g, s.After()) && RaisedUpTo(g, v, s.After(), m, t)
  }

  /** Every step between the worlds, and the last state vector, is a safe raise on behalf of m. */
  ghost predicate Raises(g: Graph, w: World, w': World, m: Name, t: State) {
    && w.steps <= w'.steps
    && Good(g, w'.states)
    && RaisedUpTo(g, w.states, w'.states, m, t)
    && forall i :: |w.steps| <= i < |w'.steps| ==> RaisingStep(g, w.states, w'.steps[i], m, t)
  }

  /** m itself does not change between the worlds. */
  ghost predicate Spares(w: World, w': World, m: Name) {
    && m in w.states && m in w'.states && w'.states[m] == w.states[m]
    && forall i :: |w.steps| <= i < |w'.steps| ==> m in w'.steps[i].After() && w'.steps[i].After()[m] == w.states[m]
  }

  /** Once m has left its start state, every other module already has its final state. */
  ghost predicate MovesLast(w: World, w': World, m: Name) {
    m in w.states && w'.states.Keys == w.states.Keys
    && forall i :: |w.steps| <= i < |w'.steps| ==> Settled(w, w'.steps[i], w', m)
  }

  ghost predicate Settled(w: World, s: Step, w': World, m: Name)
    requires m in w.states && w'.states.Keys == w.states.Keys
  {
    s.After().Keys == w.states.Keys
    && (s.After()[m] == w.states[m] || forall x :: x in w.states && x != m ==> s.After()[x] == w'.states[x])
  }

  lemma RaisedOn(g: Graph, v: States, v': States, v'': States, m: Name, d: Name, t: State)
    requires RaisedUpTo(g, v, v', m, t) && RaisedUpTo(g, v', v'', d, t)
    requires d == m || DependsOn(g, m, d)
    ensures RaisedUpTo(g, v, v'', m, t)
  {
    forall x | x in v && v''[x] != v[x] ensures Reaches(g, m, x) && Code(v[x]) < Code(v''[x]) <= Code(t) {
      if v''[x] != v'[x] && d != m {
        ReachesVia(g, m, d, x);
      }
    }
  }

  lemma RaisesOn(g: Graph, a: World, b: World, c: World, m: Name, d: Name, t: State)
    requires Raises(g, a, b, m, t) && Raises(g, b, c, d, t)
    requires d == m || DependsOn(g, m, d)
    ensures Raises(g, a, c, m, t)
  {
    RaisedOn(g, a.states, b.states, c.states, m, d, t);
    forall i | |a.steps| <= i < |c.steps| ensures RaisingStep(g, a.states, c.steps[i], m, t) {
      if i < |b.steps| {
        assert c.steps[i] == b.steps[i];
      } else {
        RaisedOn(g, a.states, b.states, c.steps[i].After(), m, d, t);
      }
    }
  }

  lemma SparesOn(a: World, b: World, c: World, m: Name)
    requires a.steps <= b.steps <= c.steps && Spares(a, b, m) && Spares(b, c, m)
    ensures Spares(a, c, m)
  {
    forall i | |a.steps| <= i < |c.steps| ensures m in c.steps[i].After() && c.steps[i].After()[m] == a.states[m] {
      if i < |b.steps| {
        assert c.steps[i] == b.steps[i];
      }
    }
  }

  lemma {:induction false} RankFalls(g: Graph, rank: Rank, p: seq<Name>, a: Name, b: Name)
    requires IsRank(g, rank) && PathFrom(g, p, a, b)
    ensures a == b || rank(b) < rank(a)
    decreases |p|
  {
    if |p| > 1 {
      assert DependsOn(g, p[0], p[1]);
      var q := p[1..];
      forall i | 0 <= i < |q| - 1 ensures DependsOn(g, q[i], q[i + 1]) {
        assert DependsOn(g, p[i + 1], p[i + 2]);
      }
      RankFalls(g, rank, q, p[1], b);
    }
  }

  /** What a module reaches has no higher rank. */
  lemma ReachedRank(g: Graph, rank: Rank, a: Name, b: Name)
    requires IsRank(g, rank) && Reaches(g, a, b)
    ensures a == b || rank(b) < rank(a)
  {
    var p :| PathFrom(g, p, a, b);
    RankFalls(g, rank, p, a, b);
  }

  lemma RaiseSpares(g: Graph, rank: Rank, w: World, w': World, m: Name, d: Name, t: State)
    requires IsRank(g, rank) && Fits(g, w) && DependsOn(g, m, d) && d in g.depends
    requires Raises(g, w, w', d, t)
    ensures Spares(w, w', m)
  {
    if Reaches(g, d, m) {
      ReachedRank(g, rank, d, m);
    }
    forall i | |w.steps| <= i < |w'.steps| ensures m in w'.steps[i].After() && w'.steps[i].After()[m] == w.states[m] {
      assert RaisingStep(g, w.states, w'.steps[i], d, t);
    }
  }

  /** Each assignment goes up, to at most t, on the operational ladder. */
  ghost predicate Rises(s: State, visited: seq<State>, t: State) {
    forall i :: 0 <= i < |visited| ==>
                  Regular(visited[i]) && Code(Before(s, visited, i)) < Code(visited[i]) <= Code(t)
                      && Code(s) < Code(visited[i])
  }

  lemma DriveRises(s: State, t: State, throws: Hooks, calls: nat)
    requires Regular(s) && Regular(t) && Code(s) < Code(t)
    ensures Rises(s, ModuleDrive(s, t, throws, calls).visited, t)
  {
    hide ModuleDrive;
    DriveVisits(s, t, throws, calls);
    var visited := ModuleDrive(s, t, throws, calls).visited;
    forall i | 0 <= i < |visited|
      ensures Regular(visited[i]) && Code(Before(s, visited, i)) < Code(visited[i]) <= Code(t)
              && Code(s) < Code(visited[i])
    {
      assert visited[i] == AtRung(Rung(s) + 1 + i);
    }
  }

  /** Every registered dependency of m stands at t or above. */
  ghost predicate DependsReady(g: Graph, v: States, m: Name, t: State) {
    forall d :: DependsOn(g, m, d) && d in v ==> Code(t) <= Code(v[d])
  }

  lemma LiftOne(g: Graph, rank: Rank, v: States, m: Name, s: State, t: State)
    requires IsRank(g, rank) && v.Keys == g.depends.Keys && m in v && Good(g, v) && DependsReady(g, v, m, t)
    requires Regular(s) && Code(v[m]) < Code(s) <= Code(t)
    ensures Good(g, v[m := s]) && RaisedUpTo(g, v, v[m := s], m, t)
  {
    ReachesSelf(g, m);
  }

  lemma TrailRises(g: Graph, rank: Rank, v: States, m: Name, t: State, visited: seq<State>, k: nat)
    requires IsRank(g, rank) && v.Keys == g.depends.Keys && m in v && Good(g, v) && DependsReady(g, v, m, t)
    requires Rises(v[m], visited, t) && k < |visited|
    ensures RaisingStep(g, v, TrailStep(v, m, visited, k), m, t)
    ensures TrailStep(v, m, visited, k).After() == v[m := visited[k]]
  {
    LiftOne(g, rank, v, m, visited[k], t);
    assert TrailStep(v, m, visited, k).After() == v[m := visited[k]];
  }

  lemma RisingMoveRaises(g: Graph, rank: Rank, w: World, w': World, m: Name, t: State, visited: seq<State>)
    requires IsRank(g, rank) && Fits(g, w) && m in w.states && Good(g, w.states) && DependsReady(g, w.states, m, t)
    requires Moved(w, w', m, visited) && Rises(w.states[m], visited, t)
    ensures Raises(g, w, w', m, t)
  {
    forall i | |w.steps| <= i < |w'.steps| ensures RaisingStep(g, w.states, w'.steps[i], m, t) {
      TrailRises(g, rank, w.states, m, t, visited, i - |w.steps|);
    }
    if visited != [] {
      LiftOne(g, rank, w.states, m, visited[|visited| - 1], t);
    }
  }

  lemma MoveIsLast(w: World, w': World, m: Name, visited: seq<State>)
    requires m in w.states && Moved(w, w', m, visited)
    ensures MovesLast(w, w', m)
  {
    forall i | |w.steps| <= i < |w'.steps| ensures Settled(w, w'.steps[i], w', m) {
      var s := TrailStep(w.states, m, visited, i - |w.steps|);
      assert w'.steps[i] == s;
    }
  }

  ghost predicate CallersAbove(rank: Rank, caller: seq<Name>, m: Name)
  {
    forall c <- caller :: rank(m) < rank(c)
  }

  ghost predicate CallersNotBelow(rank: Rank, caller: seq<Name>, m: Name)
  {
    forall c <- caller :: rank(m) <= rank(c)
  }

  lemma MoveSucceeds(throws: Faults, w: World, m: Name, t: State)
    requires m in w.states && m in w.calls && Regular(w.states[m]) && Regular(t)
    ensures var r := Move(throws, w, m, t); (r.Return? ==> r.w.states[m] == t) && (NeverFails(throws) ==> r.Return?)
  {
    DriveEnds(w.states[m], t, throws(m), w.calls[m]);
    DriveWalks(w.states[m], t, throws(m), w.calls[m]);
  }

  /** Raising m to t: every step is safe, m moves last, and success means m is at t; only a
      throwing hook or an unregistered dependency prevents success. */
  lemma {:induction false} SetStateRaises(g: Graph, rank: Rank, throws: Faults, w: World, m: Name, t: State,
          caller: seq<Name>)
    requires Fits(g, w) && IsRank(g, rank) && NoExcludes(g) && Good(g, w.states)
    requires m in g.depends && Regular(t) && Code(w.states[m]) < Code(t) && CallersAbove(rank, caller, m)
    ensures var r := SetState(g, throws, w, m, t, caller);
            && Raises(g, w, r.w, m, t)
            && MovesLast(w, r.w, m)
            && (r.Return? ==> r.w.states[m] == t)
            && (Registered(g) && NeverFails(throws) ==> r.Return?)
    decreases rank(m), 1, 0
  {
    hide RaiseDepends, DropDependents, DropExcludes;
    assert SetState(g, throws, w, m, t, caller) == Finish(g, throws, w, m, t, caller) by { hide Finish; }
    hide SetState;
    RaiseDependsReady(g, rank, throws, w, m, t, caller, 0);
    var r1 := RaiseDepends(g, throws, w, m, t, caller, 0);
    if r1.Next? {
      FinishMovesUp(g, throws, w, m, t, caller);
      var r := Move(throws, r1.w, m, t);
      MoveUp(g, rank, throws, r1.w, m, t);
      RaisesOn(g, w, r1.w, r.w, m, m, t);
      SettledOn(w, r1.w, r.w, m);
    }
  }

  /** Once the dependencies are raised the other two loops find nothing to do. */
  lemma FinishMovesUp(g: Graph, throws: Faults, w: World, m: Name, t: State, caller: seq<Name>)
    requires Fits(g, w) && m in g.depends && NoExcludes(g)
    requires var r1 := RaiseDepends(g, throws, w, m, t, caller, 0);
             r1.Next? && Good(g, r1.w.states) && Code(r1.w.states[m]) <= Code(t)
    ensures Finish(g, throws, w, m, t, caller) == Move(throws, RaiseDepends(g, throws, w, m, t, caller, 0).w, m, t)
  {
    hide SetState, RaiseDepends, DropDependents;
    var r1 := RaiseDepends(g, throws, w, m, t, caller, 0);
    DropNobody(g, throws, r1.w, m, t, r1.caller, 0);
  }

  lemma MoveUp(g: Graph, rank: Rank, throws: Faults, w: World, m: Name, t: State)
    requires Fits(g, w) && IsRank(g, rank) && Good(g, w.states) && m in g.depends
    requires Regular(t) && Code(w.states[m]) < Code(t) && DependsReady(g, w.states, m, t)
    ensures var r := Move(throws, w, m, t);
            && Raises(g, w, r.w, m, t) && MovesLast(w, r.w, m)
            && (r.Return? ==> r.w.states[m] == t) && (NeverFails(throws) ==> r.Return?)
  {
    MoveEffect(throws, w, m, t);
    DriveRises(w.states[m], t, throws(m), w.calls[m]);
    var (w', visited) := (Move(throws, w, m, t).w, ModuleDrive(w.states[m], t, throws(m), w.calls[m]).visited);
    RisingMoveRaises(g, rank, w, w', m, t, visited);
    MoveIsLast(w, w', m, visited);
    MoveSucceeds(throws, w, m, t);
  }

  lemma SettledOn(a: World, b: World, c: World, m: Name)
    requires a.steps <= b.steps <= c.steps && Spares(a, b, m) && MovesLast(b, c, m) && b.states.Keys == a.states.Keys
    requires forall i :: |a.steps| <= i < |b.steps| ==> b.steps[i].After().Keys == a.states.Keys
    ensures MovesLast(a, c, m)
  {
    forall i | |a.steps| <= i < |c.steps| ensures Settled(a, c.steps[i], c, m) {
      if i < |b.steps| {
        assert c.steps[i] == b.steps[i];
      } else {
        assert Settled(b, c.steps[i], c, m);
      }
    }
  }

  /** In a good state nobody stands above t while depending on a module below t. */
  lemma {:induction false} DropNobody(g: Graph, throws: Faults, w: World, m: Name, t: State, caller: seq<Name>, i: nat)
    requires Fits(g, w) && Good(g, w.states) && m in g.depends && i <= |g.order| && Code(w.states[m]) <= Code(t)
    ensures DropDependents(g, throws, w, m, t, caller, i) == Next(w, caller)
    decreases |g.order| - i
  {
    if i < |g.order| {
      hide SetState;
      var x := g.order[i];
      if x in g.depends && m in g.depends[x] {
        assert DependsOn(g, x, m);
      }
      DropNobody(g, throws, w, m, t, caller, i + 1);
    }
  }

  /** The first i dependencies of m, as far as registered, stand at t or above. */
  ghost predicate ReadyUpTo(g: Graph, v: States, m: Name, t: State, i: nat)
    requires m in g.depends && i <= |g.depends[m]|
  {
    forall j :: 0 <= j < i && g.depends[m][j] in v ==> Code(t) <= Code(v[g.depends[m][j]])
  }

  /** Raising one dependency d of m. */
  lemma RaiseOne(g: Graph, rank: Rank, throws: Faults, w: World, m: Name, d: Name, t: State, caller: seq<Name>, i: nat)
    requires Fits(g, w) && IsRank(g, rank) && NoExcludes(g) && Good(g, w.states)
    requires m in g.depends && Regular(t) && CallersNotBelow(rank, caller, m)
    requires DependsOn(g, m, d) && d in g.depends && Code(w.states[d]) < Code(t)
    requires i < |g.depends[m]| && g.depends[m][i] == d && ReadyUpTo(g, w.states, m, t, i)
    ensures var r := SetState(g, throws, w, d, t, caller + [m]);
            && Raises(g, w, r.w, m, t) && Spares(w, r.w, m) && Good(g, r.w.states)
            && CallersNotBelow(rank, caller + [m], m)
            && (r.Return? ==> ReadyUpTo(g, r.w.states, m, t, i + 1))
            && (Registered(g) && NeverFails(throws) ==> r.Return?)
    decreases rank(m), 0, 0
  {
    hide SetState, Registered, NeverFails, Good;
    SetStateRaises(g, rank, throws, w, d, t, caller + [m]);
    var r := SetState(g, throws, w, d, t, caller + [m]);
    RaisedForDependent(g, rank, w, r.w, m, d, t);
    if r.Return? {
      ReadyOn(g, w.states, r.w.states, m, t, i);
    }
  }

  /** What is raised on behalf of a dependency d of m is raised on behalf of m, and spares m. */
  lemma RaisedForDependent(g: Graph, rank: Rank, w: World, w': World, m: Name, d: Name, t: State)
    requires Fits(g, w) && IsRank(g, rank) && DependsOn(g, m, d) && d in g.depends
    requires Good(g, w.states) && Raises(g, w, w', d, t)
    ensures Raises(g, w, w', m, t) && Spares(w, w', m) && Good(g, w'.states)
  {
    RaisesNothing(g, w, m, t);
    RaisesOn(g, w, w, w', m, d, t);
    RaiseSpares(g, rank, w, w', m, d, t);
  }

  lemma ReadyOn(g: Graph, v: States, v': States, m: Name, t: State, i: nat)
    requires m in g.depends && i < |g.depends[m]| && ReadyUpTo(g, v, m, t, i)
    requires v'.Keys == v.Keys && forall x :: x in v ==> Code(v[x]) <= Code(v'[x])
    requires g.depends[m][i] in v ==> Code(t) <= Code(v'[g.depends[m][i]])
    ensures ReadyUpTo(g, v', m, t, i + 1)
  {
  }

  lemma NextDependency(g: Graph, rank: Rank, w: World, m: Name, caller: seq<Name>, i: nat)
    requires Fits(g, w) && IsRank(g, rank) && Good(g, w.states) && m in g.depends && CallersNotBelow(rank, caller, m)
    requires i < |g.depends[m]|
    ensures var d := g.depends[m][i];
            && DependsOn(g, m, d)
            && d !in caller && (d in g.depends ==> Regular(w.states[d]))
            && (Registered(g) ==> d in g.depends)
  {
    assert DependsOn(g, m, g.depends[m][i]);
  }

  lemma RaisesNothing(g: Graph, w: World, m: Name, t: State)
    requires Good(g, w.states) && m in w.states
    ensures Raises(g, w, w, m, t) && Spares(w, w, m)
  {
  }

  lemma RaisesAndSparesOn(g: Graph, a: World, b: World, c: World, m: Name, t: State)
    requires Raises(g, a, b, m, t) && Spares(a, b, m) && Raises(g, b, c, m, t) && Spares(b, c, m)
    ensures Raises(g, a, c, m, t) && Spares(a, c, m)
  {
    RaisesOn(g, a, b, c, m, m, t);
    SparesOn(a, b, c, m);
  }

  /** The dependency loop leaves every registered dependency at t or above and spares m. */
  lemma {:induction false} RaiseDependsReady(g: Graph, rank: Rank, throws: Faults, w: World, m: Name, t: State,
          caller: seq<Name>, i: nat)
    requires Fits(g, w) && IsRank(g, rank) && NoExcludes(g) && Good(g, w.states)
    requires m in g.depends && Regular(t) && CallersNotBelow(rank, caller, m)
    requires i <= |g.depends[m]| && ReadyUpTo(g, w.states, m, t, i)
    ensures var r := RaiseDepends(g, throws, w, m, t, caller, i);
            && Raises(g, w, r.w, m, t) && Spares(w, r.w, m) && !r.Return?
            && (r.Next? ==> DependsReady(g, r.w.states, m, t))
            && (Registered(g) && NeverFails(throws) ==> r.Next?)
    decreases rank(m), 0, |g.depends[m]| - i
  {
    hide SetState, RaiseDepends, Raises, Spares, Good, IsRank, Registered, CallersNotBelow, NoExcludes, NeverFails,
         ReadyUpTo, DependsReady;
    var all := RaiseDepends(g, throws, w, m, t, caller, i);
    RaisesNothing(g, w, m, t);
    if i == |g.depends[m]| {
      RaiseEnds(g, throws, w, m, t, caller);
      AllReady(g, w.states, m, t);
    } else {
      NextDependency(g, rank, w, m, caller, i);
      RaiseTurn(g, throws, w, m, t, caller, i);
      var d := g.depends[m][i];
      if d in g.depends {
        if Code(w.states[d]) < Code(t) {
          RaiseOne(g, rank, throws, w, m, d, t, caller, i);
          var r := SetState(g, throws, w, d, t, caller + [m]);
          if r.Return? {
            RaiseDependsReady(g, rank, throws, r.w, m, t, caller + [m], i + 1);
            RaisesAndSparesOn(g, w, r.w, all.w, m, t);
          }
        } else {
          ReadyOn(g, w.states, w.states, m, t, i);
          RaiseDependsReady(g, rank, throws, w, m, t, caller, i + 1);
        }
      }
    }
  }

  lemma AllReady(g: Graph, v: States, m: Name, t: State)
    requires m in g.depends && ReadyUpTo(g, v, m, t, |g.depends[m]|)
    ensures DependsReady(g, v, m, t)
  {
  }
}
