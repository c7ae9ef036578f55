/** Why the ladder is safe to drive: requests complete prefixes of monotone walks, they compose,
    and whole runs of requests form one continuous walk. */
module LadderProofs {
  import opened Lists
  import opened ModuleStates
  import opened Ladder

  /** The full monotone walk between two rungs. */
  function Straight(from: nat, goal: nat): (hooks: seq<Hook>)
    decreases if from < goal then goal - from else from - goal
  {
    if from == goal then [] else [Hook(from, Toward(from, goal))] + Straight(Toward(from, goal), goal)
  }

  /** Each hook starts where the one before it ended. */
  predicate Continuous(hooks: seq<Hook>, from: nat, to: nat) {
    if hooks == [] then from == to
    else hooks[0].from == from && (hooks[0].to == from + 1 || hooks[0].to == from - 1)
         && Continuous(hooks[1..], hooks[0].to, to)
  }

  lemma {:induction false} StraightVisitsOnce(from: nat, goal: nat)
    ensures Distinct(Straight(from, goal))
    ensures forall h <- Straight(from, goal) ::
              if from <= goal then from <= h.from && h.to == h.from + 1 <= goal
              else h.from <= from && h.to == h.from - 1 >= goal
    decreases if from < goal then goal - from else from - goal
  {
    if from != goal {
      StraightVisitsOnce(Toward(from, goal), goal);
    }
  }

  /** A request walks a prefix of the straight walk; it stops short only because the last hook
      called threw, and every hook completed is a hook called. */
  lemma {:induction false} WalkIsPrefix(from: nat, goal: nat, throws: Hooks, calls: nat)
    ensures var w := WalkTo(from, goal, throws, calls);
            && w.hooks <= Straight(from, goal)
            && Continuous(w.hooks, from, w.rung)
            && (w.rung == goal <==> w.hooks == Straight(from, goal))
            && (w.rung == goal ==> w.calls == calls + |w.hooks|)
            && (w.rung != goal ==> w.calls == calls + |w.hooks| + 1 && throws(w.calls - 1))
            && (forall n :: calls <= n < calls + |w.hooks| ==> !throws(n))
    decreases if from < goal then goal - from else from - goal
  {
    if from != goal && !throws(calls) {
      var next := Toward(from, goal);
      WalkIsPrefix(next, goal, throws, calls + 1);
      var rest := WalkTo(next, goal, throws, calls + 1);
      var w := WalkTo(from, goal, throws, calls);
      assert w.hooks[1..] == rest.hooks;
      assert Straight(from, goal)[1..] == Straight(next, goal);
      forall n | calls <= n < calls + |w.hooks| ensures !throws(n) {
        assert n == calls || calls + 1 <= n < calls + 1 + |rest.hooks|;
      }
    }
  }

  /** The i-th hook of a walk ends i + 1 rungs from the start, and none goes past the goal. */
  lemma {:induction false} WalkVisits(from: nat, goal: nat, throws: Hooks, calls: nat)
    ensures var w := WalkTo(from, goal, throws, calls);
            if from <= goal then
              |w.hooks| <= goal - from && forall i :: 0 <= i < |w.hooks| ==> w.hooks[i].to == from + 1 + i
            else
              |w.hooks| <= from - goal && forall i :: 0 <= i < |w.hooks| ==> w.hooks[i].to == from - 1 - i
    decreases if from < goal then goal - from else from - goal
  {
    if from != goal && !throws(calls) {
      var next := Toward(from, goal);
      WalkVisits(next, goal, throws, calls + 1);
      var w, rest := WalkTo(from, goal, throws, calls), WalkTo(next, goal, throws, calls + 1);
      forall i | 0 <= i < |w.hooks| ensures w.hooks[i].to == if from < goal then from + 1 + i else from - 1 - i {
        assert i > 0 ==> w.hooks[i] == rest.hooks[i - 1];
      }
    }
  }

  predicate Between(a: nat, b: nat, c: nat) {
    a <= b <= c || c <= b <= a
  }

  /** Walking in two legs is walking at once, as the request ladder relies on. */
  lemma {:induction false} WalkInLegs(a: nat, b: nat, c: nat, throws: Hooks, calls: nat)
    requires Between(a, b, c)
    ensures var first := WalkTo(a, b, throws, calls);
            var whole := WalkTo(a, c, throws, calls);
            if first.rung != b then whole == first && whole.rung != c
            else var second := WalkTo(b, c, throws, first.calls);
                 whole == second.(hooks := first.hooks + second.hooks)
    decreases if a < b then b - a else a - b
  {
    if a == b {
      var second := WalkTo(b, c, throws, calls);
      assert [] + second.hooks == second.hooks;
    } else if !throws(calls) {
      assert Toward(a, b) == Toward(a, c);
      var next := Toward(a, b);
      WalkInLegs(next, b, c, throws, calls + 1);
      var first := WalkTo(next, b, throws, calls + 1);
      if first.rung == b {
        var second := WalkTo(b, c, throws, first.calls);
        assert [Hook(a, next)] + (first.hooks + second.hooks) == ([Hook(a, next)] + first.hooks) + second.hooks;
      }
    } else {
      assert WalkTo(a, b, throws, calls).rung != b;
    }
  }

  /** Requests module::set_state turns down without calling any hook. */
  predicate Refused(s: State, t: State) {
    if s == Error then t != Init else t == Error || (s == Boot && t == Boot)
  }

  /** Accepted requests walk: the hooks completed are a prefix of the straight walk and lead from
      the old rung to the new one; if any are missing, the last hook called threw. */
  lemma DriveWalks(s: State, t: State, throws: Hooks, calls: nat)
    requires s != Error && !Refused(s, t)
    ensures var d := ModuleDrive(s, t, throws, calls);
            && d.hooks <= Straight(Rung(s), Rung(t))
            && (d.ok <==> d.hooks == Straight(Rung(s), Rung(t)))
            && (!d.ok ==> calls < d.calls && throws(d.calls - 1))
  {
    WalkIsPrefix(Rung(s), Rung(t), throws, calls);
  }

  lemma DriveLands(s: State, t: State, throws: Hooks, calls: nat)
    requires s != Error && !Refused(s, t)
    ensures var d := ModuleDrive(s, t, throws, calls);
            var now := Last(s, d.visited);
            && Continuous(d.hooks, Rung(s), Rung(now))
            && (d.ok <==> now == t)
            && (!d.ok ==> Regular(now))
  {
    WalkInRange(Rung(s), Rung(t), throws, calls);
    var w := WalkTo(Rung(s), Rung(t), throws, calls);
    assert Continuous(w.hooks, Rung(s), w.rung) by { WalkIsPrefix(Rung(s), Rung(t), throws, calls); }
    ClimbedRung(s, w.hooks, w.rung);
    var d := ModuleDrive(s, t, throws, calls);
    if d.ok && t == Boot {
      assert Last(s, d.visited) == Boot;
    } else {
      assert d.visited == Climbed(s, w.hooks);
    }
  }

  /** A successful request ends at its target; any other request ends elsewhere. */
  lemma DriveEnds(s: State, t: State, throws: Hooks, calls: nat)
    requires !Refused(s, t)
    ensures var d := ModuleDrive(s, t, throws, calls);
            var now := Last(s, d.visited);
            (d.ok <==> now == t) && (!d.ok ==> Regular(now))
  {
    if s != Error {
      DriveLands(s, t, throws, calls);
    }
  }

  /** States assigned while the given hooks run, coming from s. */
  function Climbed(s: State, hooks: seq<Hook>): seq<State>
    requires forall h <- hooks :: h.to < 4
  {
    (if s == Boot then [Init] else []) + Rungs(hooks)
  }

  lemma ClimbedRung(s: State, hooks: seq<Hook>, to: nat)
    requires s != Error && Continuous(hooks, Rung(s), to) && forall h <- hooks :: h.to < 4
    ensures Regular(Last(s, Climbed(s, hooks))) && Rung(Last(s, Climbed(s, hooks))) == to
  {
    ContinuousEnd(hooks, Rung(s), to);
    var up := Climbed(s, hooks);
    if hooks != [] {
      assert up[|up| - 1] == AtRung(hooks[|hooks| - 1].to);
    } else {
      assert up == if s == Boot then [Init] else [];
    }
  }

  lemma {:induction false} ContinuousEnd(hooks: seq<Hook>, from: nat, to: nat)
    requires Continuous(hooks, from, to)
    ensures hooks != [] ==> hooks[|hooks| - 1].to == to
    ensures hooks == [] ==> from == to
  {
    if |hooks| > 1 {
      ContinuousEnd(hooks[1..], hooks[0].to, to);
      assert hooks[|hooks| - 1] == hooks[1..][|hooks| - 2];
    }
  }

  lemma {:induction false} ContinuousJoin(a: seq<Hook>, b: seq<Hook>, from: nat, mid: nat, to: nat)
    requires Continuous(a, from, mid) && Continuous(b, mid, to)
    ensures Continuous(a + b, from, to)
  {
    if a == [] {
      assert a + b == b;
    } else {
      ContinuousJoin(a[1..], b, a[0].to, mid, to);
      assert (a + b)[1..] == a[1..] + b;
    }
  }

  /** All hooks completed by a run of requests, and the state it ends in. */
  function RunRequests(s: State, requests: seq<State>, throws: Hooks, calls: nat): (seq<Hook>, State)
    decreases |requests|
  {
    if requests == [] then ([], s)
    else
      var d := ModuleDrive(s, requests[0], throws, calls);
      var (more, end) := RunRequests(Last(s, d.visited), requests[1..], throws, d.calls);
      (d.hooks + more, end)
  }

  /** Over any run of requests, with any hooks throwing, the completed hooks form one continuous
      walk on the ladder that ends at the rung the module's state names. */
  lemma {:induction false} RunIsOneWalk(s: State, requests: seq<State>, throws: Hooks, calls: nat)
    requires s != Error
    ensures var (hooks, end) := RunRequests(s, requests, throws, calls);
            end != Error && Continuous(hooks, Rung(s), Rung(end))
    decreases |requests|
  {
    if requests != [] {
      var d := ModuleDrive(s, requests[0], throws, calls);
      var now := Last(s, d.visited);
      if !Refused(s, requests[0]) {
        DriveLands(s, requests[0], throws, calls);
      }
      RunIsOneWalk(now, requests[1..], throws, d.calls);
      var (more, end) := RunRequests(now, requests[1..], throws, d.calls);
      ContinuousJoin(d.hooks, more, Rung(s), Rung(now), Rung(end));
    }
  }

  /** Between regular states the i-th assignment is the rung i + 1 steps on the way to the target. */
  lemma DriveVisits(s: State, t: State, throws: Hooks, calls: nat)
    requires Regular(s) && Regular(t)
    ensures var visited := ModuleDrive(s, t, throws, calls).visited;
            if Rung(s) <= Rung(t) then
              |visited| <= Rung(t) - Rung(s) && forall i :: 0 <= i < |visited| ==> visited[i] == AtRung(Rung(s) + 1 + i)
            else
              |visited| <= Rung(s) - Rung(t) && forall i :: 0 <= i < |visited| ==> visited[i] == AtRung(Rung(s) - 1 - i)
  {
    WalkVisits(Rung(s), Rung(t), throws, calls);
    WalkInRange(Rung(s), Rung(t), throws, calls);
    var w := WalkTo(Rung(s), Rung(t), throws, calls);
    assert ModuleDrive(s, t, throws, calls).visited == Rungs(w.hooks);
  }
}
