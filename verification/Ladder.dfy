/** What one state request does to one module, stated as a walk over the rungs of the ladder.
    Hooks are user code: the n-th hook ever called throws exactly when throws(n). */
module Ladder {
  import opened ModuleStates

  type Hooks = nat -> bool

  ghost predicate NeverThrows(throws: Hooks) {
    forall n :: !throws(n)
  }

  /** A completed transition hook, named by the rungs it joins. */
  datatype Hook = Hook(from: nat, to: nat)

  /** The rung where a walk ended, the number of hook calls made so far, and the hooks completed. */
  datatype Walk = Walk(rung: nat, calls: nat, hooks: seq<Hook>)

  function Toward(from: nat, goal: nat): nat
    requires from != goal
  {
    if from < goal then from + 1 else from - 1
  }

  /** Step rung by rung to the goal, stopping at the first hook that throws. */
  function WalkTo(from: nat, goal: nat, throws: Hooks, calls: nat): (w: Walk)
    decreases if from < goal then goal - from else from - goal
  {
    if from == goal then Walk(from, calls, [])
    else if throws(calls) then Walk(from, calls + 1, [])
    else
      var next := Toward(from, goal);
      var rest := WalkTo(next, goal, throws, calls + 1);
      rest.(hooks := [Hook(from, next)] + rest.hooks)
  }

  function Rungs(hooks: seq<Hook>): seq<State>
    requires forall h <- hooks :: h.to < 4
  {
    seq(|hooks|, i requires 0 <= i < |hooks| => AtRung(hooks[i].to))
  }

  function Last(s: State, visited: seq<State>): State {
    if visited == [] then s else visited[|visited| - 1]
  }

  /** The state just before the i-th assignment. */
  function Before(s: State, visited: seq<State>, i: nat): State
    requires i <= |visited|
  {
    if i == 0 then s else visited[i - 1]
  }

  /** Outcome of a request: the states assigned in order (changes only), the hook calls made so
      far, the hooks completed, and whether the target was reached. */
  datatype Drive = Drive(visited: seq<State>, calls: nat, hooks: seq<Hook>, ok: bool)

  predicate InRange(w: Walk) {
    w.rung < 4 && forall h <- w.hooks :: h.to < 4
  }

  lemma WalkInRange(from: nat, goal: nat, throws: Hooks, calls: nat)
    requires from < 4 && goal < 4
    ensures InRange(WalkTo(from, goal, throws, calls))
    decreases if from < goal then goal - from else from - goal
  {
    if from != goal && !throws(calls) {
      WalkInRange(Toward(from, goal), goal, throws, calls + 1);
    }
  }

  /** A request to module_base::set_state. */
  function BaseDrive(s: State, t: State, throws: Hooks, calls: nat): (d: Drive) {
    if s == Error || t == Error || (s == Boot && t == Boot) then
      Drive(if s == t then [] else [t], calls, [], true)
    else
      WalkInRange(Rung(s), Rung(t), throws, calls);
      var w := WalkTo(Rung(s), Rung(t), throws, calls);
      var ok := w.rung == Rung(t);
      var up := Rungs(w.hooks);
      Drive(up + (if ok && Last(s, up) != t then [t] else []), w.calls, w.hooks, ok)
  }

  /** A request to module::set_state, which may refuse. Leaving boot first passes through init. */
  function ModuleDrive(s: State, t: State, throws: Hooks, calls: nat): (d: Drive) {
    if s == Error then
      if t == Init then Drive([Init], calls, [], true) else Drive([], calls, [], false)
    else if t == Error || (s == Boot && t == Boot) then
      Drive([], calls, [], false)
    else
      WalkInRange(Rung(s), Rung(t), throws, calls);
      var w := WalkTo(Rung(s), Rung(t), throws, calls);
      var ok := w.rung == Rung(t);
      Drive((if s == Boot then [Init] else []) + Rungs(w.hooks)
            + (if ok && t == Boot && s != Boot then [Boot] else []),
            w.calls, w.hooks, ok)
  }
}
