/** What lowering keeps, exactly, and what whole runs of raising and lowering requests keep. */
module KernelRuns {
  import opened ModuleStates
  import opened KernelModel
  import opened KernelGraph
  import opened KernelRaise
  import opened KernelPowerUp
  import opened KernelLower
  import opened KernelMutex

  /** v with the chain sent down: its head to t, every other link to init. */
  ghost function ChainDown(v: States, m: Name, chain: seq<Name>, t: State): States {
    map x | x in v :: if x == m then t else if x in chain then Init else v[x]
  }

  /** A lowering request that succeeds moves exactly the chain, and then dependencies hold if and
      only if the chain is all that had to go down; in that case they hold at every step, whatever
      hooks throw. */
  lemma LoweringKeepsDependenciesIff(g: Graph, throws: Faults, w: World, m: Name, t: State)
    requires Fits(g, w) && Acyclic(g) && NoExcludes(g) && Good(g, w.states)
    requires m in g.depends && Regular(t) && Code(w.states[m]) > Code(t)
    ensures var (r, chain) := (SetState(g, throws, w, m, t, []), Chain(g, w.states, m, t, {}));
            && (OnlyTheChain(g, w.states, chain, t) ==> StaysGood(g, w, r.w))
            && (r.Return? ==> (Consistent(g, r.w.states) <==> OnlyTheChain(g, w.states, chain, t)))
            && (r.Return? ==> r.w.states == ChainDown(w.states, m, chain, t))
            && (Registered(g) && NeverFails(throws) ==> r.Return?)
  {
    var rank :| IsRank(g, rank);
    var chain := Chain(g, w.states, m, t, {});
    NoCallers(rank, m);
    ChainRises(g, rank, w.states, m, t, {});
    hide SetState, Chain, Good, NoExcludes, Registered, NeverFails, OnlyTheChain, IsRank, Acyclic, StaysGood, Drops;
    SetStateDrops(g, rank, throws, w, m, t, [], {});
    var r := SetState(g, throws, w, m, t, []);
    if OnlyTheChain(g, w.states, chain, t) {
      DropsStaysGood(g, rank, w, r.w, chain, t);
      GoodAfter(g, w, r.w);
    }
    if r.Return? {
      DropsEnds(w, r.w, chain, t);
      DownExactly(rank, w.states, r.w.states, m, chain, t);
      if Consistent(g, r.w.states) {
        DroppedBreaks(g, w.states, r.w.states, chain, t);
      }
    }
  }

  lemma NoCallers(rank: Rank, m: Name)
    ensures CallersBelow(rank, [], m)
  {
  }

  lemma GoodAfter(g: Graph, w: World, w': World)
    requires StaysGood(g, w, w')
    ensures Good(g, w'.states) && Consistent(g, w'.states)
  {
  }

  lemma DropsEnds(w: World, w': World, chain: seq<Name>, t: State)
    requires Drops(w, w', chain, t)
    ensures FarthestFirst(w.states, w'.states, chain, t)
  {
  }

  lemma DropsStaysGood(g: Graph, rank: Rank, w: World, w': World, chain: seq<Name>, t: State)
    requires Fits(g, w) && IsRank(g, rank) && Good(g, w.states) && Rising(rank, w.states, chain, t)
    requires OnlyTheChain(g, w.states, chain, t) && Drops(w, w', chain, t)
    ensures StaysGood(g, w, w')
  {
    FarthestFirstGood(g, rank, w.states, w'.states, chain, t);
    forall i | |w.steps| <= i < |w'.steps| ensures Good(g, w'.steps[i].After()) {
      FarthestFirstGood(g, rank, w.states, w'.steps[i].After(), chain, t);
    }
  }

  lemma DownExactly(rank: Rank, v: States, h: States, m: Name, chain: seq<Name>, t: State)
    requires FarthestFirst(v, h, chain, t) && Dropped(h, chain, t) && Rising(rank, v, chain, t)
    requires chain != [] && chain[0] == m
    ensures h == ChainDown(v, m, chain, t)
  {
    forall x | x in v ensures h[x] == ChainDown(v, m, chain, t)[x] {
      if x in chain {
        var i :| 0 <= i < |chain| && chain[i] == x;
        assert h[chain[i]] == NewState(i, t);
        assert i > 0 ==> rank(chain[0]) < rank(chain[i]);
      }
    }
  }

  /** Each module is a dependency of at most one other module. */
  ghost predicate SingleDependent(g: Graph) {
    forall a, b, d :: DependsOn(g, a, d) && DependsOn(g, b, d) ==> a == b
  }

  lemma {:induction false} SingleFile(g: Graph, rank: Rank, v: States, m: Name, t: State, seen: set<Name>)
    requires v.Keys == g.depends.Keys && Mapped(g) && IsRank(g, rank) && m in g.depends && Code(v[m]) > Code(t)
    requires SingleDependent(g) && forall c <- seen :: rank(c) < rank(m)
    ensures OnlyTheChain(g, v, Chain(g, v, m, t, seen), t)
    decreases |g.depends.Keys - seen|
  {
    var k, chain := FirstAbove(g, v, m, t, 0), Chain(g, v, m, t, seen);
    ChainRises(g, rank, v, m, t, seen);
    var rest := chain[1..];
    if k < |g.order| {
      NextLink(g, rank, v, m, t, [], seen);
      SingleFile(g, rank, v, g.order[k], Init, seen + {m});
      ChainRises(g, rank, v, g.order[k], Init, seen + {m});
      assert rest == Chain(g, v, g.order[k], Init, seen + {m});
    }
    forall i, y | 0 <= i < |chain| && DependsOn(g, y, chain[i]) && y in v && Code(v[y]) > Code(NewState(i, t))
      ensures y in chain
    {
      if i == 0 {
        AboveIsFound(g, v, m, t, y);
        assert DependsOn(g, g.order[k], m) && chain[1] == g.order[k];
      } else {
        assert chain[i] == rest[i - 1] && NewState(i, t) == NewState(i - 1, Init);
        assert y in rest;
      }
    }
  }

  lemma AboveIsFound(g: Graph, v: States, m: Name, t: State, y: Name)
    requires v.Keys == g.depends.Keys && Mapped(g) && m in v && Code(v[m]) > Code(t)
    requires DependsOn(g, y, m) && y in v && y != m && Code(v[y]) > Code(t)
    ensures FirstAbove(g, v, m, t, 0) < |g.order|
  {
    assert y in g.order;
    var j :| 0 <= j < |g.order| && g.order[j] == y;
    assert IsAbove(g, v, m, t, j);
  }

  /** A request to set a module to a state, as a user or a service makes it. */
  datatype Request = Request(mod: Name, target: State)

  /** Any sequence of requests, each with an empty list of callers; a throw ends only its request. */
  ghost function Run(g: Graph, throws: Faults, w: World, requests: seq<Request>): (w': World)
    requires Fits(g, w)
    ensures Fits(g, w')
    decreases |requests|
  {
    if requests == [] then w
    else Run(g, throws, SetState(g, throws, w, requests[0].mod, requests[0].target, []).w, requests[1..])
  }

  /** One request, up, down or neither, on a graph where nobody shares a dependency. */
  lemma RequestStaysGood(g: Graph, throws: Faults, w: World, m: Name, t: State)
    requires Fits(g, w) && Mapped(g) && Acyclic(g) && NoExcludes(g) && SingleDependent(g) && Good(g, w.states)
             && Regular(t)
    ensures StaysGood(g, w, SetState(g, throws, w, m, t, []).w)
  {
    StaysGoodSame(g, w);
    if m !in g.depends || w.states[m] == t {
      assert SetState(g, throws, w, m, t, []).w == w;
    } else {
      hide SetState, StaysGood;
      GoodRegular(g, w.states, m);
      if Code(w.states[m]) < Code(t) {
        var rank :| IsRank(g, rank);
        SetStateRaises(g, rank, throws, w, m, t, []);
        RaisesStaysGood(g, w, SetState(g, throws, w, m, t, []).w, m, t);
      } else {
        var rank :| IsRank(g, rank);
        SameCode(w.states[m], t);
        SingleFile(g, rank, w.states, m, t, {});
        LoweringKeepsDependenciesIff(g, throws, w, m, t);
      }
    }
  }

  lemma SameCode(s: State, t: State)
    ensures Code(s) == Code(t) ==> s == t
  {
  }

  lemma RaisesStaysGood(g: Graph, w: World, w': World, m: Name, t: State)
    requires Raises(g, w, w', m, t)
    ensures StaysGood(g, w, w')
  {
    forall i | |w.steps| <= i < |w'.steps| ensures Good(g, w'.steps[i].After()) {
      assert RaisingStep(g, w.states, w'.steps[i], m, t);
    }
  }

  /** Over every run of requests, with any hooks throwing, no state change ever leaves a module
      above one of its dependencies, if no two modules share a dependency. */
  lemma {:induction false} RunKeepsDependencies(g: Graph, throws: Faults, w: World, requests: seq<Request>)
    requires Fits(g, w) && Mapped(g) && Acyclic(g) && NoExcludes(g) && SingleDependent(g) && Good(g, w.states)
    requires forall r <- requests :: Regular(r.target)
    ensures StaysGood(g, w, Run(g, throws, w, requests))
    decreases |requests|
  {
    hide SetState, Good, Acyclic, NoExcludes, SingleDependent, StaysGood;
    StaysGoodSame(g, w);
    if requests != [] {
      RequestStaysGood(g, throws, w, requests[0].mod, requests[0].target);
      var w1 := SetState(g, throws, w, requests[0].mod, requests[0].target, []).w;
      GoodAfter(g, w, w1);
      RunKeepsDependencies(g, throws, w1, requests[1..]);
      StaysGoodOn(g, w, w1, Run(g, throws, w1, requests[1..]));
    }
  }

  lemma StaysGoodSame(g: Graph, w: World)
    ensures Good(g, w.states) ==> StaysGood(g, w, w)
  {
  }

  lemma StaysGoodOn(g: Graph, a: World, b: World, c: World)
    requires StaysGood(g, a, b) && StaysGood(g, b, c)
    ensures StaysGood(g, a, c)
  {
    forall i | |a.steps| <= i < |c.steps| ensures Good(g, c.steps[i].After()) {
      if i < |b.steps| {
        assert c.steps[i] == b.steps[i];
      }
    }
  }

  /** Over every run of requests for any states, with any hooks throwing, on any dependency graph,
      no two modules that exclude each other are ever both outside init. */
  lemma {:induction false} RunKeepsExclusion(g: Graph, throws: Faults, w: World, requests: seq<Request>)
    requires Fits(g, w) && Symmetric(g) && NoExcludedDependent(g) && Exclusive(g, w.states)
    ensures StaysExclusive(g, w, Run(g, throws, w, requests))
    decreases |requests|
  {
    hide SetState, Exclusive, Symmetric, NoExcludedDependent, StaysExclusive;
    ExclusiveSame(g, w);
    if requests != [] {
      var w1 := SetState(g, throws, w, requests[0].mod, requests[0].target, []).w;
      SetStateExclusive(g, throws, w, requests[0].mod, requests[0].target, []);
      ExclusiveAfter(g, w, w1);
      RunKeepsExclusion(g, throws, w1, requests[1..]);
      ExclusiveOn(g, w, w1, Run(g, throws, w1, requests[1..]));
    }
  }

  /** Two modules, a and b, that depend on a third, m. */
  function Siblings(a: Name, b: Name, m: Name): Graph {
    Graph([a, b, m], map[a := [m], b := [m], m := []], map[a := [], b := [], m := []])
  }

  function AllOp(a: Name, b: Name, m: Name): World {
    World(map[a := Op, b := Op, m := Op], map[a := 0, b := 0, m := 0], [])
  }

  /** Lowering does not keep dependencies on every graph: with all hooks passing and everything in
      op, a request for init on a shared dependency succeeds and leaves the second dependent in op. */
  lemma LoweringLeavesASibling(a: Name, b: Name, m: Name)
    requires a != b && a != m && b != m
    ensures var (g, w) := (Siblings(a, b, m), AllOp(a, b, m));
            && Fits(g, w) && Mapped(g) && Acyclic(g) && NoExcludes(g) && Registered(g) && Good(g, w.states)
            && var r := SetState(g, n => k => false, w, m, Init, []);
            r.Return? && r.w.states == map[a := Init, b := Op, m := Init] && !Consistent(g, r.w.states)
  {
    hide SetState, Chain, ChainDown, OnlyTheChain, Good, Consistent, Mapped, Acyclic, NoExcludes, Registered;
    var g, w := Siblings(a, b, m), AllOp(a, b, m);
    SiblingsStart(a, b, m);
    SiblingsChain(a, b, m);
    var throws: Faults := n => k => false;
    LoweringKeepsDependenciesIff(g, throws, w, m, Init);
    SiblingsEnd(a, b, m);
  }

  lemma SiblingsStart(a: Name, b: Name, m: Name)
    requires a != b && a != m && b != m
    ensures var (g, w) := (Siblings(a, b, m), AllOp(a, b, m));
            Fits(g, w) && Mapped(g) && Acyclic(g) && NoExcludes(g) && Registered(g) && Good(g, w.states)
  {
    hide Mapped, Acyclic, IsRank, Good, Registered, DependsOn;
    SiblingsMapped(a, b, m);
    SiblingsRanked(a, b, m);
    SiblingsGood(a, b, m);
  }

  lemma SiblingsMapped(a: Name, b: Name, m: Name)
    requires a != b && a != m && b != m
    ensures Mapped(Siblings(a, b, m))
  {
    var g := Siblings(a, b, m);
    assert g.order[0] == a && g.order[1] == b && g.order[2] == m;
  }

  lemma SiblingsRanked(a: Name, b: Name, m: Name)
    requires a != b && a != m && b != m
    ensures Acyclic(Siblings(a, b, m))
  {
    var g, rank := Siblings(a, b, m), (x: Name) => if x == m then 0 else 1;
    forall x, y | DependsOn(g, x, y) ensures rank(y) < rank(x) {
      assert x in {a, b} && y == m;
    }
    assert IsRank(g, rank);
  }

  lemma SiblingsGood(a: Name, b: Name, m: Name)
    requires a != b && a != m && b != m
    ensures var (g, v) := (Siblings(a, b, m), AllOp(a, b, m).states); Registered(g) && Good(g, v)
  {
    var g := Siblings(a, b, m);
    forall x, y | DependsOn(g, x, y) ensures y in g.depends {
      assert x in {a, b} && y == m;
    }
  }

  lemma SiblingsChain(a: Name, b: Name, m: Name)
    requires a != b && a != m && b != m
    ensures var (g, v) := (Siblings(a, b, m), AllOp(a, b, m).states);
            Chain(g, v, m, Init, {}) == [m, a] && !OnlyTheChain(g, v, [m, a], Init)
  {
    var g, v := Siblings(a, b, m), AllOp(a, b, m).states;
    var chain := [m, a];
    assert IsAbove(g, v, m, Init, 0);
    assert FirstAbove(g, v, a, Init, 0) == 3;
    assert Chain(g, v, a, Init, {m}) == [a];
    assert {} + {m} == {m};
    assert DependsOn(g, b, chain[0]) && b !in chain && Code(v[b]) > Code(NewState(0, Init));
  }

  lemma SiblingsEnd(a: Name, b: Name, m: Name)
    requires a != b && a != m && b != m
    ensures ChainDown(AllOp(a, b, m).states, m, [m, a], Init) == map[a := Init, b := Op, m := Init]
  {
  }
}
