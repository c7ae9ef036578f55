/** What a request to raise a module comes to with modules in error around. set_state ignores the early
    return of a nested request, so a module can climb above a dependency that was kept from climbing:
    where every module ends, and exactly when dependencies survive it. */
module KernelClimbs {
  import opened ModuleStates
  import opened KernelModel
  import opened KernelGraph
  import opened KernelRaise
  import opened KernelResult
  import opened KernelFence
  import opened KernelReturns
  import opened KernelAsked
  import opened KernelBlocked

  /** v with everything at t that goes up on a request for t on m. */
  ghost function Climbed(g: Graph, v: States, m: Name, t: State): States {
    map x | x in v :: if GoesUp(g, v, m, t, x) then t else v[x]
  }

  /** v' is as Climbed, but for loose modules that have been reset. */
  ghost predicate ClimbsTo(g: Graph, v: States, v': States, m: Name, t: State) {
    v'.Keys == v.Keys
    && forall x :: x in v ==> v'[x] == Climbed(g, v, m, t)[x] || (v'[x] == Init && Loose(g, v, m, t, x))
  }

  lemma ClimbedExactly(g: Graph, v0: States, v: States, m: Name, t: State)
    requires Risen(g, v0, v, m, t) && Done(g, v0, v, m, t) && Regular(t)
    ensures ClimbsTo(g, v0, v, m, t)
  {
    hide Blocked, Asked, Loose, Risen;
    RisenKeys(g, v0, v, m, t);
    forall x | x in v0 ensures v[x] == Climbed(g, v0, m, t)[x] || (v[x] == Init && Loose(g, v0, m, t, x)) {
      RisenMayBe(g, v0, v, m, t, x);
      if GoesUp(g, v0, m, t, x) {
        AskedIs(g, v0, m, t, x);
        assert AtLeast(v, x, t);
      }
    }
  }

  /** x goes up, and depends on a module that would have to go up but is blocked. */
  ghost predicate GoesOver(g: Graph, v: States, m: Name, t: State, x: Name, y: Name) {
    GoesUp(g, v, m, t, x) && DependsOn(g, x, y) && BelowIn(v, y, t) && Blocked(g, v, y)
  }

  ghost predicate NoneGoesOver(g: Graph, v: States, m: Name, t: State) {
    forall x, y :: !GoesOver(g, v, m, t, x, y)
  }

  ghost predicate StaysKept(g: Graph, w: World, w': World) {
    && w.steps <= w'.steps && Kept(g, w'.states)
    && forall i :: |w.steps| <= i < |w'.steps| ==> Kept(g, w'.steps[i].After())
  }

  lemma RisenIsKept(g: Graph, rank: Rank, v0: States, v: States, m: Name, t: State)
    requires IsRank(g, rank) && Kept(g, v0) && ErrorsAside(g, v0, m, t) && Risen(g, v0, v, m, t)
    requires NoneGoesOver(g, v0, m, t)
    ensures Kept(g, v)
  {
    hide Asked, Blocked, Loose, GetsTo, Kept, ErrorsAside, Risen, NoneGoesOver, IsRank;
    RisenKeys(g, v0, v, m, t);
    forall a, b | DependsOn(g, a, b) && a in v && b in v && v[a] != Error ensures Code(v[a]) <= Code(v[b]) {
      RisenMayBe(g, v0, v, m, t, a);
      if v[a] == v0[a] {
        UnmovedKept(g, v0, v, m, t, a, b);
      } else if GoesUp(g, v0, m, t, a) {
        RaisedKept(g, rank, v0, v, m, t, a, b);
      }
    }
    assert Kept(g, v) by { KeptIf(g, v); }
  }

  lemma KeptIf(g: Graph, v: States)
    requires forall a, b :: DependsOn(g, a, b) && a in v && b in v && v[a] != Error ==> Code(v[a]) <= Code(v[b])
    ensures Kept(g, v)
  {
  }

  /** Who stays where it was: a dependency of it that is reset had only modules in init on it. */
  lemma UnmovedKept(g: Graph, v0: States, v: States, m: Name, t: State, a: Name, b: Name)
    requires Kept(g, v0) && ErrorsAside(g, v0, m, t) && Risen(g, v0, v, m, t) && v.Keys == v0.Keys
    requires DependsOn(g, a, b) && a in v && b in v && v[a] == v0[a] != Error
    ensures Code(v[a]) <= Code(v[b])
  {
    hide Asked, Blocked, Loose, Risen;
    RisenMayBe(g, v0, v, m, t, b);
  }

  lemma RaisedKept(g: Graph, rank: Rank, v0: States, v: States, m: Name, t: State, a: Name, b: Name)
    requires IsRank(g, rank) && ErrorsAside(g, v0, m, t) && Risen(g, v0, v, m, t) && v.Keys == v0.Keys
    requires NoneGoesOver(g, v0, m, t) && GoesUp(g, v0, m, t, a)
    requires DependsOn(g, a, b) && a in v && b in v && v[a] != v0[a] && Code(v[a]) <= Code(t)
    ensures Code(v[a]) <= Code(v[b])
  {
    hide Asked, Loose, ErrorsAside, Changed;
    FreeDependency(g, v0, a, b);
    BelowBefore(g, v0, v, m, t, b);
    AskedIs(g, v0, m, t, a);
    if BelowIn(v0, b, t) {
      assert !GoesOver(g, v0, m, t, a, b);
      AskedSelf(g, v0, a, t);
      AskedOn(g, v0, a, t, a, b);
      assert GoesUp(g, v0, a, t, b) && b != a;
      assert AtLeast(v, b, t);
    }
  }

  lemma FreeDependency(g: Graph, v: States, a: Name, b: Name)
    requires DependsOn(g, a, b) && !Blocked(g, v, a)
    ensures !InError(v, b) && GetsTo(g, v, a, b)
  {
    forall d | DependsOn(g, a, d) ensures !InError(v, d) {}
    var i :| 0 <= i < |g.depends[a]| && g.depends[a][i] == b;
    forall j | 0 <= j < i ensures !InError(v, g.depends[a][j]) {
      assert DependsOn(g, a, g.depends[a][j]);
    }
    assert FreeBefore(g, v, a, i);
  }

  lemma WentOver(g: Graph, v0: States, v: States, m: Name, t: State, x: Name, y: Name)
    requires Risen(g, v0, v, m, t) && Done(g, v0, v, m, t) && GoesOver(g, v0, m, t, x, y)
    ensures !Kept(g, v)
  {
    hide Asked, Blocked, Loose, Risen;
    RisenKeys(g, v0, v, m, t);
    AskedIs(g, v0, m, t, x);
    assert AtLeast(v, x, t);
    RisenMayBe(g, v0, v, m, t, y);
    if Loose(g, v0, m, t, y) {
      var low, z := LooseIs(g, v0, m, t, y);
    }
    assert x in v && y in v && DependsOn(g, x, y);
  }

  /** Raising with modules in error around, on acyclic graphs. A request that comes back has taken to the
      target exactly what it asked for, as far as that was not blocked, and moved nothing else, except that
      modules in error on top of what went up may have been reset. Dependencies are kept at every step,
      through any failure, if nothing that goes up depends on a blocked module that would have to go up;
      and if something does, a request that comes back has broken them. */
  lemma RaisingKeepsDependenciesIff(g: Graph, throws: Faults, w: World, m: Name, t: State)
    requires Fits(g, w) && Acyclic(g) && NoExcludes(g) && Operational(w.states)
    requires Kept(g, w.states) && ErrorsAside(g, w.states, m, t)
    requires m in g.depends && Regular(w.states[m]) && Regular(t) && Code(w.states[m]) < Code(t)
    ensures var r := SetState(g, throws, w, m, t, []);
            && (r.Return? ==> ClimbsTo(g, w.states, r.w.states, m, t))
            && (r.Return? ==> r.w.states[m] == if Blocked(g, w.states, m) then w.states[m] else t)
            && (NoneGoesOver(g, w.states, m, t) ==> StaysKept(g, w, r.w))
            && (r.Return? ==> (Kept(g, r.w.states) <==> NoneGoesOver(g, w.states, m, t)))
  {
    var rank :| IsRank(g, rank);
    hide SetState, Risen, Done, Upward, Blocked, GoesOver, Asked, Loose, Kept, ErrorsAside, Operational, NoExcludes,
         IsRank, Acyclic, ClimbsTo;
    StartRisen(g, rank, w, m, t);
    SetStateRisen(g, rank, throws, w.states, w, m, m, t, []);
    var r := SetState(g, throws, w, m, t, []);
    if NoneGoesOver(g, w.states, m, t) {
      AlwaysKept(g, rank, w, r.w, m, t);
    } else if r.Return? {
      var x, y :| GoesOver(g, w.states, m, t, x, y);
      WentOver(g, w.states, r.w.states, m, t, x, y);
    }
    if r.Return? {
      ClimbedExactly(g, w.states, r.w.states, m, t);
      ClimbedItself(g, w.states, r.w.states, m, t);
    }
  }

  lemma ClimbedItself(g: Graph, v: States, v': States, m: Name, t: State)
    requires ClimbsTo(g, v, v', m, t) && Asked(g, v, m, t, m) && BelowIn(v, m, t)
    ensures m in v' && v'[m] == if Blocked(g, v, m) then v[m] else t
  {
    hide Asked, Blocked, Loose;
    if Loose(g, v, m, t, m) {
      var low, z := LooseIs(g, v, m, t, m);
    }
  }

  lemma AlwaysKept(g: Graph, rank: Rank, w: World, w': World, m: Name, t: State)
    requires IsRank(g, rank) && Kept(g, w.states) && ErrorsAside(g, w.states, m, t)
    requires RisenSteps(g, w.states, w, w', m, t) && NoneGoesOver(g, w.states, m, t)
    ensures StaysKept(g, w, w')
  {
    hide Risen, NoneGoesOver, Kept, ErrorsAside, IsRank;
    RisenIsKept(g, rank, w.states, w'.states, m, t);
    forall i | |w.steps| <= i < |w'.steps| ensures Kept(g, w'.steps[i].After()) {
      RisenIsKept(g, rank, w.states, w'.steps[i].After(), m, t);
    }
  }

  lemma StartRisen(g: Graph, rank: Rank, w: World, m: Name, t: State)
    requires Fits(g, w) && IsRank(g, rank) && NoExcludes(g) && Operational(w.states) && Regular(t)
    requires Kept(g, w.states) && ErrorsAside(g, w.states, m, t) && Below(w, m, t)
    ensures Ready(g, rank, w.states, w, m, t) && Asked(g, w.states, m, t, m) && CallersAbove(rank, [], m)
    ensures BelowIn(w.states, m, t)
  {
    hide GoesUp, Asked, Loose, Kept, ErrorsAside, Operational, IsRank, NoExcludes;
    AskedSelf(g, w.states, m, t);
  }

  lemma NoneLoose(g: Graph, v: States, m: Name, t: State, e: Name)
    requires Consistent(g, v)
    ensures !Loose(g, v, m, t, e)
  {
    hide Loose, Asked;
    if Loose(g, v, m, t, e) {
      var low, x := LooseIs(g, v, m, t, e);
      AskedIs(g, v, m, t, x);
    }
  }

  /** Where nobody stands above a dependency, modules in error included, both conditions are met; and
      dependencies are then kept in that sense too. */
  lemma ConsistentIffKept(g: Graph, v0: States, v: States, m: Name, t: State)
    requires Consistent(g, v0) && Risen(g, v0, v, m, t)
    ensures Kept(g, v0) && ErrorsAside(g, v0, m, t)
    ensures Consistent(g, v) <==> Kept(g, v)
  {
    hide Asked, Loose, Risen;
    RisenKeys(g, v0, v, m, t);
    forall e ensures !Loose(g, v0, m, t, e) {
      NoneLoose(g, v0, m, t, e);
    }
    forall x | x in v ensures v[x] == Error <==> v0[x] == Error {
      RisenMayBe(g, v0, v, m, t, x);
      BelowBefore(g, v0, v, m, t, x);
    }
  }

  /** So for such states the same holds of the stricter condition, and nothing is reset. */
  lemma RaisingStaysConsistentIff(g: Graph, throws: Faults, w: World, m: Name, t: State)
    requires Fits(g, w) && Acyclic(g) && NoExcludes(g) && Operational(w.states) && Consistent(g, w.states)
    requires m in g.depends && Regular(w.states[m]) && Regular(t) && Code(w.states[m]) < Code(t)
    ensures var r := SetState(g, throws, w, m, t, []);
            && (r.Return? ==> r.w.states == Climbed(g, w.states, m, t))
            && (NoneGoesOver(g, w.states, m, t) ==>
                Consistent(g, r.w.states)
                && forall i :: |w.steps| <= i < |r.w.steps| ==> Consistent(g, r.w.steps[i].After()))
            && (r.Return? ==> (Consistent(g, r.w.states) <==> NoneGoesOver(g, w.states, m, t)))
  {
    var rank :| IsRank(g, rank);
    hide SetState, Risen, Done, Upward, Blocked, Loose, NoneGoesOver, Asked, Kept, ErrorsAside, Consistent, Operational,
         NoExcludes, IsRank, Acyclic, Climbed, ClimbsTo;
    ConsistentIffKept(g, w.states, w.states, m, t) by { StartsRisen(g, w.states, m, t); }
    StartRisen(g, rank, w, m, t);
    SetStateRisen(g, rank, throws, w.states, w, m, m, t, []);
    RaisingKeepsDependenciesIff(g, throws, w, m, t);
    var r := SetState(g, throws, w, m, t, []);
    ConsistentIffKept(g, w.states, r.w.states, m, t);
    forall i | |w.steps| <= i < |r.w.steps|
      ensures Consistent(g, r.w.steps[i].After()) <==> Kept(g, r.w.steps[i].After())
    {
      ConsistentIffKept(g, w.states, r.w.steps[i].After(), m, t);
    }
    if r.Return? {
      NoneReset(g, w.states, r.w.states, m, t);
    }
  }

  lemma NoneReset(g: Graph, v: States, v': States, m: Name, t: State)
    requires Consistent(g, v) && ClimbsTo(g, v, v', m, t)
    ensures v' == Climbed(g, v, m, t)
  {
    hide Loose, Consistent, GoesUp;
    forall x | x in v ensures v'[x] == Climbed(g, v, m, t)[x] {
      NoneLoose(g, v, m, t, x);
    }
  }

  lemma StartsRisen(g: Graph, v: States, m: Name, t: State)
    ensures Risen(g, v, v, m, t)
  {
  }

  /** On any graph: with errors aside, a blocked module stays blocked throughout its own request. */
  lemma AsideStaysBlocked(g: Graph, v: States, m: Name, t: State)
    requires v.Keys == g.depends.Keys && NoExcludes(g) && Operational(v) && Kept(g, v) && ErrorsAside(g, v, m, t)
    requires Regular(t) && BelowIn(v, m, t) && Blocked(g, v, m)
    ensures StaysBlocked(g, v, m, t)
  {
    hide Asked, Loose, Stuck, Fenced, Operational, Kept, ErrorsAside, NoExcludes;
    var f := Fence(v, [], t, set x | x in v && Asked(g, v, m, t, x), set e | e in v && Loose(g, v, m, t, e), {m});
    AskedSelf(g, v, m, t);
    BlockedIsStuck(g, f, m, m);
    AsideFence(g, f, m);
    assert FenceAround(g, f, v, m, t);
  }

  /** The fence of a raise: what it asks for goes up, and what is loose goes down. */
  ghost predicate AroundRaise(g: Graph, f: Fence, m: Name) {
    && f.calling == {m} && BelowIn(f.v, m, f.t) && ErrorsAside(g, f.v, m, f.t)
    && (forall x :: x in f.raised <==> x in f.v && Asked(g, f.v, m, f.t, x))
    && forall e :: e in f.lowered <==> e in f.v && Loose(g, f.v, m, f.t, e)
  }

  lemma BlockedIsStuck(g: Graph, f: Fence, m: Name, x: Name)
    requires AroundRaise(g, f, m) && Asked(g, f.v, m, f.t, x)
    ensures Blocked(g, f.v, x) ==> Stuck(g, f, x)
  {
    hide Asked, Loose, ErrorsAside;
    if Blocked(g, f.v, x) {
      var d :| DependsOn(g, x, d) && d in f.v && f.v[d] == Error;
      NotLoose(g, f.v, m, f.t, x, d);
      assert Resists(f, d);
    }
  }

  lemma AsideFence(g: Graph, f: Fence, m: Name)
    requires AroundRaise(g, f, m) && NoExcludes(g) && Operational(f.v) && Kept(g, f.v) && Regular(f.t)
    ensures f.t != Init && Fenced(g, f)
  {
    hide Asked, Loose, Stuck, StuckBefore, LetsGo, AroundRaise, ClosedAround, ClosedDownward, Kept, Operational;
    forall x, i | x in f.raised && x in g.depends && 0 <= i < |g.depends[x]| && !StuckBefore(g, f, x, i)
      ensures LetsGo(f, g.depends[x][i])
    {
      AsideUpward(g, f, m, x, i);
    }
    AsideAround(g, f, m);
    AsideDownward(g, f, m);
    assert f.t != Init by { AboveSomething(g, f, m); }
  }

  lemma AboveSomething(g: Graph, f: Fence, m: Name)
    requires AroundRaise(g, f, m)
    ensures f.t != Init
  {
    hide Asked, Loose, ErrorsAside;
  }

  lemma AsideUpward(g: Graph, f: Fence, m: Name, x: Name, i: nat)
    requires AroundRaise(g, f, m) && Operational(f.v) && x in f.raised
    requires x in g.depends && i < |g.depends[x]| && !StuckBefore(g, f, x, i)
    ensures LetsGo(f, g.depends[x][i])
  {
    hide Asked, Loose, ErrorsAside, StuckBefore, GetsTo;
    var d := g.depends[x][i];
    assert DependsOn(g, x, d);
    NotLoose(g, f.v, m, f.t, x, d);
    if BelowIn(f.v, d, f.t) {
      GetsThere(g, f, m, x, i);
      AskedOn(g, f.v, m, f.t, x, d);
    }
  }

  lemma GetsThere(g: Graph, f: Fence, m: Name, x: Name, i: nat)
    requires AroundRaise(g, f, m) && x in f.raised
    requires x in g.depends && i < |g.depends[x]| && !StuckBefore(g, f, x, i)
    ensures GetsTo(g, f.v, x, g.depends[x][i])
  {
    hide Asked, Loose, ErrorsAside;
    forall j | 0 <= j < i ensures !InError(f.v, g.depends[x][j]) {
      assert !Resists(f, g.depends[x][j]) && DependsOn(g, x, g.depends[x][j]);
      NotLoose(g, f.v, m, f.t, x, g.depends[x][j]);
    }
    assert FreeBefore(g, f.v, x, i);
  }

  lemma AsideAround(g: Graph, f: Fence, m: Name)
    requires AroundRaise(g, f, m) && NoExcludes(g) && Kept(g, f.v)
    ensures ClosedAround(g, f)
  {
    hide Asked, Loose, Stuck, ErrorsAside;
    forall x, y | x in f.raised && !Stuck(g, f, x) && y != x && DependsOn(g, y, x) && y in f.v
      ensures Code(f.v[y]) <= Code(f.t) || y in f.lowered
    {
      AskedIs(g, f.v, m, f.t, x);
      if f.v[y] == Error {
        BlockedIsStuck(g, f, m, x);
        LooseOver(g, f.v, m, f.t, y, x);
      }
    }
  }

  lemma AsideDownward(g: Graph, f: Fence, m: Name)
    requires AroundRaise(g, f, m) && Operational(f.v) && Regular(f.t)
    ensures ClosedDownward(g, f)
  {
    hide Asked, Loose, Stuck;
    forall x, y | x in f.lowered && y != x && DependsOn(g, y, x) && y in f.v
      ensures (f.v[y] == Init && y !in f.raised) || y in f.lowered
    {
      if InError(f.v, y) {
        LooseOn(g, f.v, m, f.t, y, x);
      }
    }
  }

  /** a depends on b, b on c. */
  function Tower(a: Name, b: Name, c: Name): Graph {
    Graph([a, b, c], map[a := [b], b := [c], c := []], map[a := [], b := [], c := []])
  }

  function ErrorAtTheBottom(a: Name, b: Name, c: Name): World {
    World(map[a := Init, b := Init, c := Error], map[a := 0, b := 0, c := 0], [])
  }

  /** With c in error and all hooks passing, a request for op on a comes back with a in op and the
      module it depends on in init. */
  lemma ClimbsOverBlocked(a: Name, b: Name, c: Name, throws: Faults)
    requires a != b && a != c && b != c && NeverFails(throws)
    ensures var (g, w) := (Tower(a, b, c), ErrorAtTheBottom(a, b, c));
            && Fits(g, w) && Consistent(g, w.states)
            && var r := SetState(g, throws, w, a, Op, []);
            r.Return? && r.w.states[a] == Op && r.w.states[b] == Init && !Consistent(g, r.w.states)
  {
    var g, w := Tower(a, b, c), ErrorAtTheBottom(a, b, c);
    TowerStart(a, b, c, throws);
    TowerBlocked(a, b, c);
    hide SetState, Tower, ErrorAtTheBottom, Consistent, NoneGoesOver, Blocked, NothingThrows, Acyclic, Operational,
         NoExcludes;
    SetStateCompletes(g, throws, w, a, Op, []);
    RaisingStaysConsistentIff(g, throws, w, a, Op);
  }

  lemma TowerStart(a: Name, b: Name, c: Name, throws: Faults)
    requires a != b && a != c && b != c && NeverFails(throws)
    ensures var (g, w) := (Tower(a, b, c), ErrorAtTheBottom(a, b, c));
            && Fits(g, w) && a in g.depends && b in g.depends && w.states[a] == Init && w.states[b] == Init
            && Acyclic(g) && NoExcludes(g) && NothingThrows(g, throws)
            && Operational(w.states) && Consistent(g, w.states)
  {
    TowerRanked(a, b, c);
    TowerThrowsNothing(a, b, c, throws);
    TowerConsistent(a, b, c);
    hide DependsOn, NeverFails, Acyclic, Consistent, NothingThrows;
  }

  lemma TowerThrowsNothing(a: Name, b: Name, c: Name, throws: Faults)
    requires a != b && a != c && b != c && NeverFails(throws)
    ensures NothingThrows(Tower(a, b, c), throws)
  {
    var g := Tower(a, b, c);
    TowerEdges(a, b, c);
    hide DependsOn, NeverFails;
    assert Registered(g) && ExcludesRegistered(g) && NoneOnItself(g);
  }

  lemma TowerConsistent(a: Name, b: Name, c: Name)
    requires a != b && a != c && b != c
    ensures Consistent(Tower(a, b, c), ErrorAtTheBottom(a, b, c).states)
  {
    TowerEdges(a, b, c);
    hide DependsOn, Tower;
  }

  lemma TowerRanked(a: Name, b: Name, c: Name)
    requires a != b && a != c && b != c
    ensures Acyclic(Tower(a, b, c))
  {
    TowerEdges(a, b, c);
    hide DependsOn, Tower;
    var rank: Rank := x => if x == a then 2 else if x == b then 1 else 0;
    assert IsRank(Tower(a, b, c), rank);
  }

  lemma TowerEdges(a: Name, b: Name, c: Name)
    requires a != b && a != c && b != c
    ensures forall x, y :: DependsOn(Tower(a, b, c), x, y) <==> (x == a && y == b) || (x == b && y == c)
  {
  }

  lemma TowerBlocked(a: Name, b: Name, c: Name)
    requires a != b && a != c && b != c
    ensures var (g, v) := (Tower(a, b, c), ErrorAtTheBottom(a, b, c).states);
            && !Blocked(g, v, a) && Blocked(g, v, b) && !NoneGoesOver(g, v, a, Op)
            && GoesUp(g, v, a, Op, a)
  {
    var g, v := Tower(a, b, c), ErrorAtTheBottom(a, b, c).states;
    assert DependsOn(g, a, b) && DependsOn(g, b, c);
    AskedSelf(g, v, a, Op);
    assert GoesOver(g, v, a, Op, a, b);
  }

  /** A module that failed between one in init and one in any state of the ladder is such a case: with
      errors aside, and the module above it blocked for as long as its request runs. */
  lemma FailedInTheMiddle(a: Name, b: Name, c: Name, s: State, t: State)
    requires a != b && a != c && b != c && Regular(s) && Regular(t) && t != Init
    ensures var (g, v) := (Tower(a, b, c), map[a := Init, b := Error, c := s]);
            && Operational(v) && Kept(g, v) && ErrorsAside(g, v, a, t) && StaysBlocked(g, v, a, t)
  {
    var g, v := Tower(a, b, c), map[a := Init, b := Error, c := s];
    TowerEdges(a, b, c);
    hide Asked, Loose, StaysBlocked;
    forall e ensures !Loose(g, v, a, t, e) {
      if Loose(g, v, a, t, e) {
        var low, x := LooseIs(g, v, a, t, e);
        var d := AskedFirst(g, v, a, t, x);
        AskedIs(g, v, d, t, x);
      }
    }
    assert DependsOn(g, a, b);
    AsideStaysBlocked(g, v, a, t);
  }
}
