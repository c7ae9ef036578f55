/** Lowering a module on an acyclic dependency graph drops one chain of dependents, farthest first.
    Dependencies survive exactly when every dependent that has to go down is on that chain. */
module KernelLower {
  import opened ModuleStates
  import opened Ladder
  import opened LadderProofs
  import opened KernelModel
  import opened KernelGraph
  import opened KernelInit
  import opened KernelRaise
  import opened KernelPowerUp

  /** The module at index i of the map depends on m and stands above t. */
  predicate IsAbove(g: Graph, v: States, m: Name, t: State, i: nat)
    requires i < |g.order|
  {
    var x := g.order[i];
    x in g.depends && x in v && x != m && m in g.depends[x] && Code(v[x]) > Code(t)
  }

  /** Index, from i on, of the first module of the map that depends on m and stands above t. */
  function FirstAbove(g: Graph, v: States, m: Name, t: State, i: nat): (k: nat)
    requires i <= |g.order|
    ensures i <= k <= |g.order|
    ensures k < |g.order| ==> IsAbove(g, v, m, t, k)
    ensures forall j :: i <= j < k ==> !IsAbove(g, v, m, t, j)
    decreases |g.order| - i
  {
    if i == |g.order| || IsAbove(g, v, m, t, i) then i else FirstAbove(g, v, m, t, i + 1)
  }

  /** m, the first dependent of m above t, the first dependent of that one above init, and so on. */
  ghost function Chain(g: Graph, v: States, m: Name, t: State, seen: set<Name>): (chain: seq<Name>)
    decreases |g.depends.Keys - seen|
  {
    if m in seen || m !in g.depends then []
    else
      var k := FirstAbove(g, v, m, t, 0);
      assert g.depends.Keys - (seen + {m}) == (g.depends.Keys - seen) - {m};
      [m] + if k == |g.order| then [] else Chain(g, v, g.order[k], Init, seen + {m})
  }

  /** Every module that depends on a link of the chain and stands above that link's new state is a
      link itself. */
  ghost predicate OnlyTheChain(g: Graph, v: States, chain: seq<Name>, t: State) {
    forall i, y ::
      0 <= i < |chain| && DependsOn(g, y, chain[i]) && y in v && Code(v[y]) > Code(NewState(i, t)) ==> y in chain
  }

  function NewState(i: nat, t: State): State {
    if i == 0 then t else Init
  }

  /** Ranks rise along the chain, and every link stands above the state it is sent to. */
  ghost predicate Rising(rank: Rank, v: States, chain: seq<Name>, t: State) {
    && (forall i :: 0 <= i < |chain| ==> chain[i] in v && Code(v[chain[i]]) > Code(NewState(i, t)))
    && (forall i, j :: 0 <= i < j < |chain| ==> rank(chain[i]) < rank(chain[j]))
  }

  lemma {:induction false} ChainRises(g: Graph, rank: Rank, v: States, m: Name, t: State, seen: set<Name>)
    requires v.Keys == g.depends.Keys && IsRank(g, rank) && m in g.depends && Code(v[m]) > Code(t)
    requires forall c <- seen :: rank(c) < rank(m)
    ensures var chain := Chain(g, v, m, t, seen);
            && chain != [] && chain[0] == m && Rising(rank, v, chain, t)
            && var k := FirstAbove(g, v, m, t, 0);
            if k == |g.order| then chain == [m]
            else chain == [m] + Chain(g, v, g.order[k], Init, seen + {m})
    decreases |g.depends.Keys - seen|
  {
    var k := FirstAbove(g, v, m, t, 0);
    if k < |g.order| {
      var x := g.order[k];
      assert DependsOn(g, x, m);
      assert g.depends.Keys - (seen + {m}) == (g.depends.Keys - seen) - {m};
      ChainRises(g, rank, v, x, Init, seen + {m});
      LinkRises(rank, v, m, t, Chain(g, v, x, Init, seen + {m}));
    }
  }

  lemma LinkRises(rank: Rank, v: States, m: Name, t: State, rest: seq<Name>)
    requires rest != [] && Rising(rank, v, rest, Init) && m in v && Code(v[m]) > Code(t)
    requires rank(m) < rank(rest[0])
    ensures Rising(rank, v, [m] + rest, t)
  {
    var chain := [m] + rest;
    forall i, j | 0 <= i < j < |chain| ensures rank(chain[i]) < rank(chain[j]) {
      if i == 0 {
        assert chain[j] == rest[j - 1] && (j == 1 || rank(rest[0]) < rank(rest[j - 1]));
      } else {
        assert chain[i] == rest[i - 1] && chain[j] == rest[j - 1];
      }
    }
  }

  /** h is v with links of the chain lowered, none before all links further out are in init. */
  ghost predicate FarthestFirst(v: States, h: States, chain: seq<Name>, t: State) {
    LoweredWithin(v, h, chain) && InOrder(v, h, chain, t)
  }

  ghost predicate LoweredWithin(v: States, h: States, chain: seq<Name>) {
    h.Keys == v.Keys
    && forall x :: x in v ==> Regular(h[x]) && Code(h[x]) <= Code(v[x]) && (x in chain || h[x] == v[x])
  }

  ghost predicate InOrder(v: States, h: States, chain: seq<Name>, t: State)
    requires h.Keys == v.Keys
  {
    && (forall i :: 0 <= i < |chain| ==> chain[i] in v && Code(NewState(i, t)) <= Code(h[chain[i]]))
    && (forall i, j :: 0 <= i < j < |chain| ==> h[chain[i]] == v[chain[i]] || h[chain[j]] == Init)
  }

  ghost predicate Drops(w: World, w': World, chain: seq<Name>, t: State) {
    && w.steps <= w'.steps
    && FarthestFirst(w.states, w'.states, chain, t)
    && forall i :: |w.steps| <= i < |w'.steps| ==>
                     w'.steps[i].mod in w'.steps[i].before
                     && Code(w'.steps[i].to) < Code(w'.steps[i].before[w'.steps[i].mod])
                     && FarthestFirst(w.states, w'.steps[i].After(), chain, t)
  }

  /** The whole chain is where it is sent to. */
  ghost predicate Dropped(v: States, chain: seq<Name>, t: State) {
    forall i :: 0 <= i < |chain| ==> chain[i] in v && v[chain[i]] == NewState(i, t)
  }

  /** If the chain is all that has to go down, dependencies hold in every vector on the way. */
  lemma FarthestFirstGood(g: Graph, rank: Rank, v: States, h: States, chain: seq<Name>, t: State)
    requires v.Keys == g.depends.Keys && IsRank(g, rank) && Good(g, v) && Rising(rank, v, chain, t)
    requires OnlyTheChain(g, v, chain, t) && FarthestFirst(v, h, chain, t)
    ensures Good(g, h)
  {
    forall a, b | DependsOn(g, a, b) && a in h && b in h ensures Code(h[a]) <= Code(h[b]) {
      if h[b] != v[b] {
        var i :| 0 <= i < |chain| && chain[i] == b;
        if Code(v[a]) > Code(NewState(i, t)) {
          assert a in chain;
          var j :| 0 <= j < |chain| && chain[j] == a;
          assert i < j;
        }
      }
    }
  }

  /** And only then: once the whole chain is down, a dependent left above breaks the dependency. */
  lemma DroppedBreaks(g: Graph, v: States, h: States, chain: seq<Name>, t: State)
    requires FarthestFirst(v, h, chain, t) && Dropped(h, chain, t) && Consistent(g, h)
    ensures OnlyTheChain(g, v, chain, t)
  {
  }

  lemma OutsideRest(rank: Rank, v: States, m: Name, t: State, rest: seq<Name>)
    requires Rising(rank, v, [m] + rest, t)
    ensures m !in rest && rest == ([m] + rest)[1..]
  {
    var chain := [m] + rest;
    forall i | 0 <= i < |rest| ensures rest[i] != m {
      assert chain[0] == m && chain[i + 1] == rest[i];
      assert rank(chain[0]) < rank(chain[i + 1]);
    }
  }

  /** Dropping the rest of the chain, seen from its head. */
  lemma RestIsFarthest(v: States, h: States, m: Name, t: State, rest: seq<Name>)
    requires m in v && m !in rest && Code(v[m]) > Code(t) && FarthestFirst(v, h, rest, Init)
    ensures FarthestFirst(v, h, [m] + rest, t)
  {
    var chain := [m] + rest;
    forall i, j | 0 <= i < j < |chain| ensures h[chain[i]] == v[chain[i]] || h[chain[j]] == Init {
      if i > 0 {
        assert chain[i] == rest[i - 1] && chain[j] == rest[j - 1];
      }
    }
  }

  /** Once the rest is down the head may move to any state from t up to where it was. */
  lemma HeadIsLast(v: States, h: States, m: Name, t: State, s: State, rest: seq<Name>)
    requires m in v && m !in rest && FarthestFirst(v, h, rest, Init) && Dropped(h, rest, Init)
    requires Regular(s) && Code(t) <= Code(s) <= Code(v[m])
    ensures FarthestFirst(v, h[m := s], [m] + rest, t)
  {
    OneChange(v, h, m, s, rest);
    hide LoweredWithin, Dropped;
    RestInInit(v, h, m, s, rest);
    var chain, h' := [m] + rest, h[m := s];
    assert chain[0] == m;
  }

  lemma RestInInit(v: States, h: States, m: Name, s: State, rest: seq<Name>)
    requires m in v && m !in rest && h.Keys == v.Keys && Dropped(h, rest, Init)
    ensures forall j :: 1 <= j < |rest| + 1 ==> ([m] + rest)[j] in v && h[m := s][([m] + rest)[j]] == Init
  {
    forall j | 1 <= j < |rest| + 1 ensures ([m] + rest)[j] in v && h[m := s][([m] + rest)[j]] == Init {
      assert ([m] + rest)[j] == rest[j - 1] && h[rest[j - 1]] == NewState(j - 1, Init);
    }
  }

  lemma OneChange(v: States, h: States, m: Name, s: State, rest: seq<Name>)
    requires m in v && LoweredWithin(v, h, rest) && Regular(s) && Code(s) <= Code(v[m])
    ensures LoweredWithin(v, h[m := s], [m] + rest)
  {
  }

  /** Each assignment lowers the state, not below t. */
  ghost predicate FallsTo(s: State, visited: seq<State>, t: State) {
    && Falls(s, visited)
    && forall i :: 0 <= i < |visited| ==> Regular(visited[i]) && Code(t) <= Code(visited[i]) <= Code(s)
  }

  lemma DriveFalls(s: State, t: State, throws: Hooks, calls: nat)
    requires Regular(s) && Regular(t) && Code(t) < Code(s)
    ensures FallsTo(s, ModuleDrive(s, t, throws, calls).visited, t)
  {
    hide ModuleDrive;
    DriveVisits(s, t, throws, calls);
    var visited := ModuleDrive(s, t, throws, calls).visited;
    forall i | 0 <= i < |visited|
      ensures Regular(visited[i]) && Code(visited[i]) < Code(Before(s, visited, i))
              && Code(t) <= Code(visited[i]) <= Code(s)
    {
      assert visited[i] == AtRung(Rung(s) - 1 - i);
    }
  }

  lemma HeadStep(w0: World, w: World, m: Name, t: State, visited: seq<State>, rest: seq<Name>, k: nat)
    requires m in w0.states && m in w.states && m !in rest && w.states[m] == w0.states[m]
    requires FarthestFirst(w0.states, w.states, rest, Init) && Dropped(w.states, rest, Init)
    requires FallsTo(w.states[m], visited, t) && k < |visited|
    ensures var s := TrailStep(w.states, m, visited, k);
            && s.mod in s.before && Code(s.to) < Code(s.before[s.mod])
            && FarthestFirst(w0.states, s.After(), [m] + rest, t)
  {
    FallsAt(w.states[m], visited, t, k);
    hide FarthestFirst, Dropped, FallsTo, TrailStep;
    TrailEffect(w.states, m, visited, k);
    HeadIsLast(w0.states, w.states, m, t, visited[k], rest);
  }

  lemma FallsAt(s: State, visited: seq<State>, t: State, k: nat)
    requires FallsTo(s, visited, t) && k < |visited|
    ensures Regular(visited[k]) && Code(t) <= Code(visited[k]) <= Code(s)
            && Code(visited[k]) < Code(Before(s, visited, k))
  {
  }

  /** The rest of the chain goes down, then its head: together the whole chain is dropped. */
  lemma DropsOn(w0: World, w1: World, w2: World, m: Name, t: State, visited: seq<State>, rest: seq<Name>)
    requires m in w0.states && m !in rest && Regular(w0.states[m]) && Code(w0.states[m]) > Code(t)
    requires Drops(w0, w1, rest, Init) && Dropped(w1.states, rest, Init) && m in w1.states
             && w1.states[m] == w0.states[m]
    requires Moved(w1, w2, m, visited) && FallsTo(w1.states[m], visited, t)
    ensures Drops(w0, w2, [m] + rest, t)
  {
    hide FarthestFirst, Dropped, FallsTo, TrailStep;
    forall i | |w0.steps| <= i < |w2.steps|
      ensures w2.steps[i].mod in w2.steps[i].before
              && Code(w2.steps[i].to) < Code(w2.steps[i].before[w2.steps[i].mod])
              && FarthestFirst(w0.states, w2.steps[i].After(), [m] + rest, t)
    {
      if i < |w1.steps| {
        assert w2.steps[i] == w1.steps[i];
        RestIsFarthest(w0.states, w1.steps[i].After(), m, t, rest);
      } else {
        HeadStep(w0, w1, m, t, visited, rest, i - |w1.steps|);
      }
    }
    FallsEnd(w1.states[m], visited, t);
    HeadIsLast(w0.states, w1.states, m, t, Before(w1.states[m], visited, |visited|), rest);
  }

  lemma FallsEnd(s: State, visited: seq<State>, t: State)
    requires FallsTo(s, visited, t) && Regular(s) && Code(t) <= Code(s)
    ensures var end := Before(s, visited, |visited|); Regular(end) && Code(t) <= Code(end) <= Code(s)
  {
  }

  /** What is outside the chain keeps its state while the chain goes down. */
  lemma DropsSpares(w: World, w': World, m: Name, t: State, chain: seq<Name>)
    requires m in w.states && m !in chain && Drops(w, w', chain, t)
    ensures m in w'.states && w'.states[m] == w.states[m]
  {
  }

  lemma DropsRest(w0: World, w1: World, m: Name, t: State, rest: seq<Name>)
    requires m in w0.states && m !in rest && Code(w0.states[m]) > Code(t) && Drops(w0, w1, rest, Init)
    ensures Drops(w0, w1, [m] + rest, t)
  {
    RestIsFarthest(w0.states, w1.states, m, t, rest);
    forall i | |w0.steps| <= i < |w1.steps| ensures FarthestFirst(w0.states, w1.steps[i].After(), [m] + rest, t) {
      RestIsFarthest(w0.states, w1.steps[i].After(), m, t, rest);
    }
  }

  lemma DropsNothing(w: World, chain: seq<Name>, t: State)
    requires forall x :: x in w.states ==> Regular(w.states[x])
    requires forall i :: 0 <= i < |chain| ==> chain[i] in w.states && Code(NewState(i, t)) <= Code(w.states[chain[i]])
    ensures Drops(w, w, chain, t)
  {
  }

  ghost predicate CallersBelow(rank: Rank, caller: seq<Name>, m: Name)
  {
    forall c <- caller :: rank(c) < rank(m)
  }

  /** The dependencies of a module that is to be lowered stand high enough already. */
  lemma {:induction false} RaiseNobody(g: Graph, throws: Faults, w: World, m: Name, t: State, caller: seq<Name>, i: nat)
    requires Fits(g, w) && Good(g, w.states) && m in g.depends && i <= |g.depends[m]| && Code(t) <= Code(w.states[m])
    ensures var r := RaiseDepends(g, throws, w, m, t, caller, i);
            (r == Next(w, caller) || r == Throw(w)) && (Registered(g) ==> r == Next(w, caller))
    decreases |g.depends[m]| - i
  {
    hide SetState, RaiseDepends;
    if i == |g.depends[m]| {
      RaiseEnds(g, throws, w, m, t, caller);
    } else {
      RaiseTurn(g, throws, w, m, t, caller, i);
      assert DependsOn(g, m, g.depends[m][i]);
      if g.depends[m][i] in caller || g.depends[m][i] in g.depends {
        RaiseNobody(g, throws, w, m, t, caller, i + 1);
      }
    }
  }

  /** A module that has called already drops nobody. */
  lemma {:induction false} CalledDropsNobody(g: Graph, throws: Faults, w: World, m: Name, t: State,
          caller: seq<Name>, i: nat)
    requires Fits(g, w) && m in g.depends && i <= |g.order| && m in caller
    ensures DropDependents(g, throws, w, m, t, caller, i) == Next(w, caller)
    decreases |g.order| - i
  {
    hide SetState, DropDependents;
    if i == |g.order| {
      DropEnds(g, throws, w, m, t, caller);
    } else {
      DropTurn(g, throws, w, m, t, caller, i);
      CalledDropsNobody(g, throws, w, m, t, caller, i + 1);
    }
  }

  /** The loop over the map drops the first dependent above t and no other. */
  lemma {:induction false} DropsFirstAbove(g: Graph, throws: Faults, w: World, m: Name, t: State,
          caller: seq<Name>, i: nat)
    requires Fits(g, w) && m in g.depends && i <= |g.order| && m !in caller
    ensures var (k, all) := (FirstAbove(g, w.states, m, t, i), DropDependents(g, throws, w, m, t, caller, i));
            if k == |g.order| then all == Next(w, caller)
            else var r := SetState(g, throws, w, g.order[k], Init, caller + [m]);
                 all == if r.Throw? then r else Next(r.w, caller + [m])
    decreases |g.order| - i
  {
    hide SetState, DropDependents, Uncalled, Grown;
    if i == |g.order| {
      DropEnds(g, throws, w, m, t, caller);
    } else {
      DropTurn(g, throws, w, m, t, caller, i);
      if IsAbove(g, w.states, m, t, i) {
        var r := SetState(g, throws, w, g.order[i], Init, caller + [m]);
        if !r.Throw? {
          CalledDropsNobody(g, throws, r.w, m, t, caller + [m], i + 1);
        }
      } else {
        DropsFirstAbove(g, throws, w, m, t, caller, i + 1);
      }
    }
  }

  /** Finish of a lowering request: the loops come down to one nested request and the move. */
  lemma LowerUnfolds(g: Graph, throws: Faults, w: World, m: Name, t: State, caller: seq<Name>)
    requires Fits(g, w) && Good(g, w.states) && m in g.depends && m !in caller
    requires Regular(t) && Code(w.states[m]) > Code(t) && (t == Init || NoExcludes(g))
    ensures var (r, k) := (SetState(g, throws, w, m, t, caller), FirstAbove(g, w.states, m, t, 0));
            || (r == Throw(w) && !Registered(g))
            || if k == |g.order| then r == Move(throws, w, m, t)
               else var r1 := SetState(g, throws, w, g.order[k], Init, caller + [m]);
                    r == if r1.Throw? then r1 else Move(throws, r1.w, m, t)
  {
    assert SetState(g, throws, w, m, t, caller) == Finish(g, throws, w, m, t, caller) by {
      hide Finish, RaiseDepends, DropDependents, DropExcludes;
    }
    hide SetState, RaiseDepends, DropDependents, DropExcludes;
    RaiseNobody(g, throws, w, m, t, caller, 0);
    DropsFirstAbove(g, throws, w, m, t, caller, 0);
    var r2 := DropDependents(g, throws, w, m, t, caller, 0);
    if r2.Next? && t != Init {
      NothingExcluded(g, throws, r2.w, m, t, r2.caller);
    }
  }

  lemma NothingExcluded(g: Graph, throws: Faults, w: World, m: Name, t: State, caller: seq<Name>)
    requires Fits(g, w) && m in g.depends && t != Init && NoExcludes(g)
    ensures DropExcludes(g, throws, w, m, t, caller, 0) == Next(w, caller)
  {
    hide SetState;
  }

  /** Moving the head down once the rest of its chain is in init. */
  lemma MoveHead(throws: Faults, w0: World, w1: World, m: Name, t: State, rest: seq<Name>)
    requires m in w0.states && m !in rest && Regular(w0.states[m]) && Regular(t) && Code(w0.states[m]) > Code(t)
    requires Drops(w0, w1, rest, Init) && Dropped(w1.states, rest, Init)
    requires m in w1.states && m in w1.calls
    ensures var r := Move(throws, w1, m, t);
            && Drops(w0, r.w, [m] + rest, t)
            && (r.Return? ==> Dropped(r.w.states, [m] + rest, t))
            && (NeverFails(throws) ==> r.Return?)
  {
    var r, visited := Move(throws, w1, m, t), ModuleDrive(w1.states[m], t, throws(m), w1.calls[m]).visited;
    DropsSpares(w0, w1, m, Init, rest);
    MoveEffect(throws, w1, m, t);
    DriveFalls(w1.states[m], t, throws(m), w1.calls[m]);
    DropsOn(w0, w1, r.w, m, t, visited, rest);
    MoveSucceeds(throws, w1, m, t);
    if r.Return? {
      HeadDown(w1.states, m, t, rest);
    }
  }

  lemma HeadDown(v: States, m: Name, t: State, rest: seq<Name>)
    requires m in v && m !in rest && Dropped(v, rest, Init)
    ensures Dropped(v[m := t], [m] + rest, t)
  {
    RestInInit(v, v, m, t, rest);
  }

  ghost predicate DropsChain(g: Graph, throws: Faults, w: World, r: Flow, chain: seq<Name>, t: State) {
    && Drops(w, r.w, chain, t)
    && (r.Return? ==> Dropped(r.w.states, chain, t))
    && (Registered(g) && NeverFails(throws) ==> r.Return?)
  }

  /** Nobody above: the chain is m alone. */
  lemma DropsAlone(g: Graph, throws: Faults, w: World, m: Name, t: State, caller: seq<Name>)
    requires Fits(g, w) && Good(g, w.states) && m in g.depends && m !in caller
    requires Regular(t) && Code(w.states[m]) > Code(t) && (t == Init || NoExcludes(g))
    requires FirstAbove(g, w.states, m, t, 0) == |g.order| && Drops(w, w, [m], t)
    ensures DropsChain(g, throws, w, SetState(g, throws, w, m, t, caller), [m], t)
  {
    GoodRegular(g, w.states, m);
    EmptyChain(g, w);
    hide SetState, Drops, Dropped, Move, Good, NoExcludes, Registered, NeverFails, FirstAbove;
    LowerUnfolds(g, throws, w, m, t, caller);
    assert [m] + [] == [m];
    MoveHead(throws, w, w, m, t, []);
  }

  /** One link: the rest of the chain first, then m. */
  lemma DropsLink(g: Graph, throws: Faults, w: World, m: Name, t: State, caller: seq<Name>, rest: seq<Name>)
    requires Fits(g, w) && Good(g, w.states) && m in g.depends && m !in caller && m !in rest
    requires Regular(t) && Code(w.states[m]) > Code(t) && (t == Init || NoExcludes(g))
    requires FirstAbove(g, w.states, m, t, 0) < |g.order| && Drops(w, w, [m] + rest, t)
    requires var x := g.order[FirstAbove(g, w.states, m, t, 0)];
             DropsChain(g, throws, w, SetState(g, throws, w, x, Init, caller + [m]), rest, Init)
    ensures DropsChain(g, throws, w, SetState(g, throws, w, m, t, caller), [m] + rest, t)
  {
    GoodRegular(g, w.states, m);
    hide SetState, Drops, Dropped, Move, Good, NoExcludes, Registered, NeverFails, FirstAbove;
    LowerUnfolds(g, throws, w, m, t, caller);
    var x := g.order[FirstAbove(g, w.states, m, t, 0)];
    var r1 := SetState(g, throws, w, x, Init, caller + [m]);
    DropsRest(w, r1.w, m, t, rest);
    if r1.Return? {
      MoveHead(throws, w, r1.w, m, t, rest);
    }
  }

  /** Lowering m to t drops its chain, farthest link first, through any failure; a request that
      succeeds has dropped the whole chain. */
  lemma {:induction false} SetStateDrops(g: Graph, rank: Rank, throws: Faults, w: World, m: Name, t: State,
          caller: seq<Name>, seen: set<Name>)
    requires Fits(g, w) && IsRank(g, rank) && Good(g, w.states) && m in g.depends
    requires Regular(t) && Code(w.states[m]) > Code(t) && (t == Init || NoExcludes(g))
    requires CallersBelow(rank, caller, m) && (forall c <- seen :: rank(c) < rank(m))
    ensures DropsChain(g, throws, w, SetState(g, throws, w, m, t, caller), Chain(g, w.states, m, t, seen), t)
    decreases |g.depends.Keys - seen|
  {
    hide SetState, Chain, Drops, DropsChain, Rising, Good, NoExcludes, CallersBelow, IsRank, FirstAbove, IsAbove;
    var k, chain := FirstAbove(g, w.states, m, t, 0), Chain(g, w.states, m, t, seen);
    ChainRises(g, rank, w.states, m, t, seen);
    NothingDropped(g, rank, w, chain, t);
    NotCalled(rank, caller, m);
    if k == |g.order| {
      DropsAlone(g, throws, w, m, t, caller);
    } else {
      NextLink(g, rank, w.states, m, t, caller, seen);
      var x := g.order[k];
      var rest := Chain(g, w.states, x, Init, seen + {m});
      OutsideRest(rank, w.states, m, t, rest);
      SetStateDrops(g, rank, throws, w, x, Init, caller + [m], seen + {m});
      DropsLink(g, throws, w, m, t, caller, rest);
    }
  }

  lemma NotCalled(rank: Rank, caller: seq<Name>, m: Name)
    requires CallersBelow(rank, caller, m)
    ensures m !in caller
  {
  }

  lemma NextLink(g: Graph, rank: Rank, v: States, m: Name, t: State, caller: seq<Name>, seen: set<Name>)
    requires IsRank(g, rank) && v.Keys == g.depends.Keys && m in g.depends && FirstAbove(g, v, m, t, 0) < |g.order|
    requires CallersBelow(rank, caller, m) && (forall c <- seen :: rank(c) < rank(m))
    ensures var x := g.order[FirstAbove(g, v, m, t, 0)];
            && x in g.depends && CallersBelow(rank, caller + [m], x) && Code(v[x]) > Code(Init)
            && (forall c <- seen + {m} :: rank(c) < rank(x))
    ensures |g.depends.Keys - (seen + {m})| < |g.depends.Keys - seen|
  {
    var x := g.order[FirstAbove(g, v, m, t, 0)];
    assert DependsOn(g, x, m);
    assert g.depends.Keys - (seen + {m}) == (g.depends.Keys - seen) - {m};
  }

  lemma EmptyChain(g: Graph, w: World)
    requires Good(g, w.states)
    ensures Drops(w, w, [], Init) && Dropped(w.states, [], Init)
  {
    DropsNothing(w, [], Init);
  }

  lemma NothingDropped(g: Graph, rank: Rank, w: World, chain: seq<Name>, t: State)
    requires Good(g, w.states) && Rising(rank, w.states, chain, t)
    ensures Drops(w, w, chain, t)
  {
    DropsNothing(w, chain, t);
  }
}
