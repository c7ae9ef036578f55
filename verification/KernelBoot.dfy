/** What a request for boot does first: set_state asks itself for init, so that what depends on the module
    is dropped before the module moves, and stays down while its dependencies follow it to boot. */
module KernelBoot {
  import opened ModuleStates
  import opened KernelModel
  import opened KernelGraph
  import opened KernelRaise
  import opened KernelPowerUp
  import opened KernelLower
  import opened KernelRuns
  import opened KernelResult
  import opened KernelErrors
  import opened KernelFence
  import opened KernelReturns

  ghost predicate AllInInit(h: States, m: Name, others: set<Name>) {
    forall x <- others :: x != m ==> x in h && h[x] == Init
  }

  /** m is where it was, or everybody else in the set is in init. */
  ghost predicate DownBefore(v: States, h: States, m: Name, others: set<Name>) {
    m in v && m in h && (h[m] == v[m] || AllInInit(h, m, others))
  }

  /** At every step between the worlds, and at the end of it. */
  ghost predicate DownFirst(w: World, w': World, m: Name, others: set<Name>) {
    && w.steps <= w'.steps
    && DownBefore(w.states, w'.states, m, others)
    && forall i :: |w.steps| <= i < |w'.steps| ==> DownBefore(w.states, w'.steps[i].After(), m, others)
  }

  /** m and the chain of dependents that goes down when m is lowered to init. */
  ghost function Standing(g: Graph, v: States, m: Name): set<Name>
    requires m in v
  {
    if v[m] == Init then {m} else set x <- Chain(g, v, m, Init, {})
  }

  /** Nobody in the set is reached from m, and who is not in init is on the chain. */
  ghost predicate Covered(g: Graph, v: States, m: Name, others: set<Name>)
    requires m in v
  {
    forall x <- others :: x != m ==> !Reaches(g, m, x) && x in v && (v[x] == Init || x in Standing(g, v, m))
  }

  // The detour through init.

  lemma HeadWaits(v: States, h: States, m: Name, chain: seq<Name>, others: set<Name>)
    requires FarthestFirst(v, h, chain, Init) && chain != [] && chain[0] == m
    requires forall x <- others :: x != m ==> x in v && (v[x] == Init || x in chain)
    ensures DownBefore(v, h, m, others)
  {
    assert m in v;
    if h[m] != v[m] {
      forall x <- others ensures x != m ==> x in h && h[x] == Init {
        if x in chain {
          var j :| 0 <= j < |chain| && chain[j] == x;
          assert j > 0 ==> h[chain[0]] == v[chain[0]] || h[chain[j]] == Init;
        }
      }
    }
  }

  /** While the chain is dropped its head stays until the rest is in init. */
  lemma ChainDownFirst(w: World, w': World, m: Name, chain: seq<Name>, others: set<Name>)
    requires Drops(w, w', chain, Init) && chain != [] && chain[0] == m
    requires forall x <- others :: x != m ==> x in w.states && (w.states[x] == Init || x in chain)
    ensures DownFirst(w, w', m, others)
  {
    hide FarthestFirst, DownBefore;
    HeadWaits(w.states, w'.states, m, chain, others);
    forall i | |w.steps| <= i < |w'.steps| ensures DownBefore(w.states, w'.steps[i].After(), m, others) {
      HeadWaits(w.states, w'.steps[i].After(), m, chain, others);
    }
  }

  lemma AllDropped(v: States, h: States, m: Name, chain: seq<Name>, others: set<Name>)
    requires FarthestFirst(v, h, chain, Init) && Dropped(h, chain, Init) && chain != [] && chain[0] == m
    requires forall x <- others :: x != m ==> x in v && (v[x] == Init || x in chain)
    ensures m in h && h[m] == Init && AllInInit(h, m, others)
  {
    forall x <- others ensures x != m ==> x in h && h[x] == Init {
      if x in chain {
        var j :| 0 <= j < |chain| && chain[j] == x;
        assert chain[j] in h && h[chain[j]] == NewState(j, Init);
      }
    }
  }

  lemma Detour(g: Graph, rank: Rank, throws: Faults, w: World, m: Name, others: set<Name>)
    requires Fits(g, w) && IsRank(g, rank) && Good(g, w.states) && m in g.depends && Covered(g, w.states, m, others)
    ensures var r := SetState(g, throws, w, m, Init, []);
            && DownFirst(w, r.w, m, others)
            && (r.Return? ==> m in r.w.states && r.w.states[m] == Init && AllInInit(r.w.states, m, others))
  {
    GoodRegular(g, w.states, m);
    if w.states[m] != Init {
      var chain := Chain(g, w.states, m, Init, {});
      NoCallers(rank, m);
      ChainRises(g, rank, w.states, m, Init, {});
      hide SetState, Chain, Good, Reaches, IsRank, Drops, Dropped;
      SetStateDrops(g, rank, throws, w, m, Init, [], {});
      var r := SetState(g, throws, w, m, Init, []);
      ChainDownFirst(w, r.w, m, chain, others);
      if r.Return? {
        DropsEnds(w, r.w, chain, Init);
        AllDropped(w.states, r.w.states, m, chain, others);
      }
    }
  }

  // From init to boot.

  /** Once m is in init, going on to boot moves up only what m reaches. */
  ghost function ReachFence(g: Graph, w: World, m: Name): Fence {
    Fence(w.states, w.steps, Boot, (set x | x in w.states && Reaches(g, m, x)), w.states.Keys, w.states.Keys)
  }

  lemma ReachFenced(g: Graph, w: World, m: Name)
    requires Fits(g, w) && m in g.depends
    ensures var f := ReachFence(g, w, m);
            Fenced(g, f) && Inside(g, f, w) && Foreseen(f, m, Boot) && NoneResists(f, [])
  {
    hide Reaches, Stuck, StuckBefore;
    var f := ReachFence(g, w, m);
    ReachesSelf(g, m);
    forall x, i | x in f.raised && x in g.depends && 0 <= i < |g.depends[x]| ensures LetsGo(f, g.depends[x][i]) {
      ReachesOn(g, m, x, g.depends[x][i]);
    }
  }

  lemma SpreadLeaves(g: Graph, w: World, h: States, m: Name, others: set<Name>)
    requires Fits(g, w) && m in g.depends && AllInInit(w.states, m, others) && Spread(g, ReachFence(g, w, m), h)
    requires forall x <- others :: x != m ==> !Reaches(g, m, x)
    ensures AllInInit(h, m, others) && m in h
  {
    hide Reaches, Stuck;
    forall x <- others ensures x != m ==> x in h && h[x] == Init {
      if x != m {
        assert OnTheWay(g, ReachFence(g, w, m), x, h[x]);
      }
    }
  }

  /** Who is in init and out of m's reach stays there. */
  lemma RestStaysDown(g: Graph, throws: Faults, w0: World, w: World, m: Name, others: set<Name>)
    requires Fits(g, w) && m in g.depends && DownFirst(w0, w, m, others) && AllInInit(w.states, m, others)
    requires forall x <- others :: x != m ==> !Reaches(g, m, x)
    ensures var r := Finish(g, throws, w, m, Boot, []);
            DownFirst(w0, r.w, m, others) && AllInInit(r.w.states, m, others)
  {
    hide Finish, Fenced, Foreseen, NoneResists, Spread, Reaches, Stuck, AllInInit;
    var f := ReachFence(g, w, m);
    ReachFenced(g, w, m);
    FinishKeeps(g, f, throws, w, m, Boot, []);
    var r := Finish(g, throws, w, m, Boot, []);
    SpreadLeaves(g, w, r.w.states, m, others);
    forall i | |w0.steps| <= i < |r.w.steps| ensures DownBefore(w0.states, r.w.steps[i].After(), m, others) {
      if i < |w.steps| {
        assert r.w.steps[i] == w.steps[i];
      } else {
        SpreadLeaves(g, w, r.w.steps[i].After(), m, others);
      }
    }
  }

  lemma BootUnfolds(g: Graph, throws: Faults, w: World, m: Name)
    requires Fits(g, w) && m in g.depends && w.states[m] != Boot
    ensures var r0 := SetState(g, throws, w, m, Init, []);
            SetState(g, throws, w, m, Boot, []) == if r0.Throw? then r0 else Finish(g, throws, r0.w, m, Boot, [])
  {
    hide Finish;
  }

  lemma BootDrops(g: Graph, rank: Rank, throws: Faults, w: World, m: Name, others: set<Name>)
    requires Fits(g, w) && IsRank(g, rank) && Good(g, w.states) && m in g.depends && Covered(g, w.states, m, others)
    ensures var r := SetState(g, throws, w, m, Boot, []);
            DownFirst(w, r.w, m, others) && (r.Return? ==> AllInInit(r.w.states, m, others))
  {
    GoodRegular(g, w.states, m);
    hide SetState, Finish, Good, Standing, DownFirst, AllInInit, Reaches, IsRank;
    Detour(g, rank, throws, w, m, others);
    BootUnfolds(g, throws, w, m);
    var r0 := SetState(g, throws, w, m, Init, []);
    if !r0.Throw? {
      RestStaysDown(g, throws, w, r0.w, m, others);
    }
  }

  lemma ChainCovered(g: Graph, rank: Rank, v: States, m: Name)
    requires v.Keys == g.depends.Keys && IsRank(g, rank) && Good(g, v) && m in g.depends
    ensures Covered(g, v, m, Standing(g, v, m))
  {
    GoodRegular(g, v, m);
    if v[m] != Init {
      var chain := Chain(g, v, m, Init, {});
      ChainRises(g, rank, v, m, Init, {});
      hide Chain, Reaches, IsRank, Good;
      forall x <- chain ensures x != m ==> !Reaches(g, m, x) && x in v {
        var j :| 0 <= j < |chain| && chain[j] == x;
        assert j > 0 ==> rank(chain[0]) < rank(chain[j]);
        if Reaches(g, m, x) {
          ReachedRank(g, rank, m, x);
        }
      }
    }
  }

  /** A request for boot: at every step, through any failure, the module has not moved or the rest of its
      chain of dependents is in init; if it comes back, the module is in boot above a chain in init. */
  lemma BootDropsTheChain(g: Graph, throws: Faults, w: World, m: Name)
    requires Fits(g, w) && Acyclic(g) && NoExcludes(g) && Good(g, w.states) && m in g.depends
    ensures var (r, chain) := (SetState(g, throws, w, m, Boot, []), Standing(g, w.states, m));
            && DownFirst(w, r.w, m, chain)
            && (r.Return? ==> m in r.w.states && r.w.states[m] == Boot && AllInInit(r.w.states, m, chain))
            && (Registered(g) && NeverFails(throws) ==> r.Return?)
  {
    var rank :| IsRank(g, rank);
    GoodRegular(g, w.states, m);
    hide SetState, Good, Standing, DownFirst, Covered, IsRank, Registered, NeverFails;
    ChainCovered(g, rank, w.states, m);
    BootDrops(g, rank, throws, w, m, Standing(g, w.states, m));
    NoneInError(g, w.states, m);
    ReachesWithoutErrors(g, throws, w, m, Boot, []);
    if Registered(g) && NeverFails(throws) {
      AsConfigured(g, rank, throws);
      SetStateCompletes(g, throws, w, m, Boot, []);
    }
  }

  lemma NoneInError(g: Graph, v: States, m: Name)
    requires Good(g, v)
    ensures !Blocked(g, v, m)
  {
  }

  lemma AsConfigured(g: Graph, rank: Rank, throws: Faults)
    requires IsRank(g, rank) && NoExcludes(g) && Registered(g) && NeverFails(throws)
    ensures NothingThrows(g, throws)
  {
  }

  // Everybody who depends on m.

  ghost function Above(g: Graph, v: States, m: Name): set<Name> {
    set y | y in v && Reaches(g, y, m)
  }

  /** Where the chain is all that has to go down, whoever depends on m, directly or not, is on it or in
      init. */
  lemma {:induction false} AllAboveOnChain(g: Graph, v: States, m: Name, chain: seq<Name>, p: seq<Name>, y: Name)
    requires v.Keys == g.depends.Keys && Good(g, v) && OnlyTheChain(g, v, chain, Init) && chain != [] && chain[0] == m
    requires PathFrom(g, p, y, m) && y in v && v[y] != Init
    ensures y in chain
    decreases |p|
  {
    if |p| > 1 {
      assert DependsOn(g, p[0], p[1]);
      if |p| == 2 {
        assert DependsOn(g, y, chain[0]);
      } else {
        var q := p[1..];
        forall i | 0 <= i < |q| - 1 ensures DependsOn(g, q[i], q[i + 1]) {
          assert DependsOn(g, p[i + 1], p[i + 2]);
        }
        assert DependsOn(g, p[1], p[2]) && p[1] in v && Code(v[y]) <= Code(v[p[1]]);
        AllAboveOnChain(g, v, m, chain, q, p[1]);
        var j :| 0 <= j < |chain| && chain[j] == p[1];
        assert DependsOn(g, y, chain[j]);
      }
    }
  }

  lemma AboveCovered(g: Graph, rank: Rank, v: States, m: Name)
    requires v.Keys == g.depends.Keys && IsRank(g, rank) && Good(g, v) && m in g.depends
    requires OnlyTheChain(g, v, Chain(g, v, m, Init, {}), Init)
    ensures Covered(g, v, m, Above(g, v, m))
  {
    GoodRegular(g, v, m);
    forall y <- Above(g, v, m)
      ensures y != m ==> !Reaches(g, m, y) && (v[y] == Init || y in Standing(g, v, m))
    {
      NotBothWays(g, rank, m, y);
      if v[m] == Init {
        hide Reaches;
        ReachedHigher(g, v, y, m);
      } else if v[y] != Init {
        ChainRises(g, rank, v, m, Init, {});
        var p :| PathFrom(g, p, y, m);
        hide Chain, Reaches;
        AllAboveOnChain(g, v, m, Chain(g, v, m, Init, {}), p, y);
      }
    }
  }

  lemma NotBothWays(g: Graph, rank: Rank, m: Name, y: Name)
    requires IsRank(g, rank) && Reaches(g, y, m)
    ensures y != m ==> !Reaches(g, m, y)
  {
    hide Reaches, IsRank;
    ReachedRank(g, rank, y, m);
    if Reaches(g, m, y) {
      ReachedRank(g, rank, m, y);
    }
  }

  /** Where that is so, in particular where no two modules share a dependency: at every step, through any
      failure, the module has not moved or nobody who depends on it, directly or not, is outside init; and
      when the request comes back nobody is. */
  lemma BootLeavesNobodyAbove(g: Graph, throws: Faults, w: World, m: Name)
    requires Fits(g, w) && Mapped(g) && Acyclic(g) && NoExcludes(g) && Good(g, w.states) && m in g.depends
    requires SingleDependent(g) || OnlyTheChain(g, w.states, Chain(g, w.states, m, Init, {}), Init)
    ensures var (r, above) := (SetState(g, throws, w, m, Boot, []), Above(g, w.states, m));
            && DownFirst(w, r.w, m, above)
            && (r.Return? ==> r.w.states[m] == Boot && AllInInit(r.w.states, m, above))
  {
    var rank :| IsRank(g, rank);
    hide SetState, Good, Above, DownFirst, Chain, OnlyTheChain, Covered, IsRank, Mapped, SingleDependent;
    GoodRegular(g, w.states, m);
    if w.states[m] != Init && SingleDependent(g) {
      SingleFile(g, rank, w.states, m, Init, {});
    } else if w.states[m] == Init {
      AloneInInit(g, w.states, m);
    }
    AboveCovered(g, rank, w.states, m);
    BootDrops(g, rank, throws, w, m, Above(g, w.states, m));
    BootDropsTheChain(g, throws, w, m);
  }

  lemma AloneInInit(g: Graph, v: States, m: Name)
    requires v.Keys == g.depends.Keys && Good(g, v) && m in g.depends && v[m] == Init
    ensures OnlyTheChain(g, v, Chain(g, v, m, Init, {}), Init)
  {
    var k := FirstAbove(g, v, m, Init, 0);
    if k < |g.order| {
      assert DependsOn(g, g.order[k], m);
    }
    assert Chain(g, v, m, Init, {}) == [m];
  }
}
