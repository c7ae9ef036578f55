/** Whom a request to raise a module asks for, told from the states before it. */
module KernelAsked {
  import opened ModuleStates
  import opened KernelModel
  import opened KernelGraph
  import opened KernelResult

  ghost predicate InError(v: States, d: Name) {
    d in v && v[d] == Error
  }

  /** None of the first i dependencies of x is in error, so that the loop gets to the i-th. */
  ghost predicate FreeBefore(g: Graph, v: States, x: Name, i: nat)
    requires x in g.depends && i <= |g.depends[x]|
  {
    forall j :: 0 <= j < i ==> !InError(v, g.depends[x][j])
  }

  ghost predicate GetsTo(g: Graph, v: States, x: Name, d: Name) {
    x in g.depends && exists i :: 0 <= i < |g.depends[x]| && g.depends[x][i] == d && FreeBefore(g, v, x, i)
  }

  ghost predicate BelowIn(v: States, x: Name, t: State) {
    x in v && v[x] != Error && Code(v[x]) < Code(t)
  }

  ghost predicate AskedAlong(g: Graph, v: States, p: seq<Name>, m: Name, t: State, x: Name) {
    && p != [] && p[0] == m && p[|p| - 1] == x
    && (forall i :: 0 <= i < |p| ==> BelowIn(v, p[i], t))
    && forall i :: 0 <= i < |p| - 1 ==> GetsTo(g, v, p[i], p[i + 1])
  }

  /** A request for t on m asks for x: modules below t and not in error lead from m to x, and each of
      them gets to the next. */
  ghost predicate Asked(g: Graph, v: States, m: Name, t: State, x: Name) {
    exists p :: AskedAlong(g, v, p, m, t, x)
  }

  lemma AskedSelf(g: Graph, v: States, m: Name, t: State)
    requires BelowIn(v, m, t)
    ensures Asked(g, v, m, t, m)
  {
    assert AskedAlong(g, v, [m], m, t, m);
  }

  lemma AskedOn(g: Graph, v: States, m: Name, t: State, x: Name, d: Name)
    requires Asked(g, v, m, t, x) && GetsTo(g, v, x, d) && BelowIn(v, d, t)
    ensures Asked(g, v, m, t, d)
  {
    hide GetsTo;
    var p :| AskedAlong(g, v, p, m, t, x);
    assert AskedAlong(g, v, p + [d], m, t, d);
  }

  lemma AskedIs(g: Graph, v: States, m: Name, t: State, x: Name)
    requires Asked(g, v, m, t, x)
    ensures BelowIn(v, m, t) && BelowIn(v, x, t) && Reaches(g, m, x)
  {
    var p :| AskedAlong(g, v, p, m, t, x);
    assert BelowIn(v, p[0], t) && BelowIn(v, p[|p| - 1], t);
    forall i | 0 <= i < |p| - 1 ensures DependsOn(g, p[i], p[i + 1]) {
      assert GetsTo(g, v, p[i], p[i + 1]);
    }
    assert PathFrom(g, p, m, x);
  }

  /** Whoever is asked for on behalf of m, other than m, is asked for on behalf of a dependency m gets to. */
  lemma AskedFirst(g: Graph, v: States, m: Name, t: State, x: Name) returns (d: Name)
    requires Asked(g, v, m, t, x) && x != m
    ensures GetsTo(g, v, m, d) && Asked(g, v, d, t, x)
  {
    hide GetsTo;
    var p :| AskedAlong(g, v, p, m, t, x);
    d := p[1];
    var q := p[1..];
    forall i | 0 <= i < |q| - 1 ensures GetsTo(g, v, q[i], q[i + 1]) {
      assert GetsTo(g, v, p[i + 1], p[i + 2]);
    }
    assert GetsTo(g, v, p[0], p[1]);
    assert AskedAlong(g, v, q, d, t, x);
  }

  /** x is asked for and no dependency in error is in its way. */
  ghost predicate GoesUp(g: Graph, v: States, m: Name, t: State, x: Name) {
    Asked(g, v, m, t, x) && !Blocked(g, v, x)
  }

  ghost predicate LooseAlong(g: Graph, v: States, p: seq<Name>, m: Name, t: State, e: Name) {
    && |p| > 1 && p[0] == e && GoesUp(g, v, m, t, p[|p| - 1])
    && forall i :: 0 <= i < |p| - 1 ==> InError(v, p[i]) && DependsOn(g, p[i], p[i + 1])
  }

  /** e is in error, and on top of a module that goes up with nothing but modules in error between: it
      may be reset to init. */
  ghost predicate Loose(g: Graph, v: States, m: Name, t: State, e: Name) {
    exists p :: LooseAlong(g, v, p, m, t, e)
  }

  lemma LooseOver(g: Graph, v: States, m: Name, t: State, e: Name, x: Name)
    requires InError(v, e) && DependsOn(g, e, x) && GoesUp(g, v, m, t, x)
    ensures Loose(g, v, m, t, e)
  {
    assert LooseAlong(g, v, [e, x], m, t, e);
  }

  lemma LooseOn(g: Graph, v: States, m: Name, t: State, y: Name, e: Name)
    requires InError(v, y) && DependsOn(g, y, e) && Loose(g, v, m, t, e)
    ensures Loose(g, v, m, t, y)
  {
    hide GoesUp;
    var p :| LooseAlong(g, v, p, m, t, e);
    var q := [y] + p;
    forall i | 0 <= i < |q| - 1 ensures InError(v, q[i]) && DependsOn(g, q[i], q[i + 1]) {
      if i > 0 {
        assert InError(v, p[i - 1]) && DependsOn(g, p[i - 1], p[i]);
      }
    }
    assert LooseAlong(g, v, q, m, t, y);
  }

  /** A loose module is in error, and so is not what the lowest one of its kind stands on. */
  lemma LooseIs(g: Graph, v: States, m: Name, t: State, e: Name) returns (low: Name, x: Name)
    requires Loose(g, v, m, t, e)
    ensures InError(v, e) && InError(v, low) && DependsOn(g, low, x) && GoesUp(g, v, m, t, x)
  {
    hide GoesUp;
    var p :| LooseAlong(g, v, p, m, t, e);
    low, x := p[|p| - 2], p[|p| - 1];
    assert InError(v, p[0]);
  }

  /** What is in error on top of modules that go up has nothing on it but other modules in error and
      modules in init that are not asked for. */
  ghost predicate ErrorsAside(g: Graph, v: States, m: Name, t: State) {
    forall e, y :: Loose(g, v, m, t, e) && DependsOn(g, y, e) && y in v ==>
                     InError(v, y) || (v[y] == Init && !Asked(g, v, m, t, y))
  }

  /** A dependency of a module asked for is not loose. */
  lemma NotLoose(g: Graph, v: States, m: Name, t: State, x: Name, d: Name)
    requires ErrorsAside(g, v, m, t) && Asked(g, v, m, t, x) && DependsOn(g, x, d)
    ensures !Loose(g, v, m, t, d)
  {
    hide Loose, Asked;
    AskedIs(g, v, m, t, x);
  }
}
