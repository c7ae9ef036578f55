/** Reachability along dependencies. */
module KernelGraph {
  import opened KernelModel

  ghost predicate DependsOn(g: Graph, a: Name, b: Name) {
    a in g.depends && b in g.depends[a]
  }

  /** All dependency names are those of registered modules. */
  ghost predicate Registered(g: Graph) {
    forall a, b :: DependsOn(g, a, b) ==> b in g.depends
  }

  /** No module depends on itself: its constructor refuses such a configuration (src/module.cpp:170-182). */
  ghost predicate NoneOnItself(g: Graph) {
    forall m :: !DependsOn(g, m, m)
  }

  ghost predicate IsPath(g: Graph, p: seq<Name>) {
    p != [] && forall i :: 0 <= i < |p| - 1 ==> DependsOn(g, p[i], p[i + 1])
  }

  ghost predicate PathFrom(g: Graph, p: seq<Name>, a: Name, b: Name) {
    IsPath(g, p) && p[0] == a && p[|p| - 1] == b
  }

  /** b is a itself or a transitive dependency of a. */
  ghost predicate Reaches(g: Graph, a: Name, b: Name) {
    exists p :: PathFrom(g, p, a, b)
  }

  lemma ReachesSelf(g: Graph, a: Name)
    ensures Reaches(g, a, a)
  {
    assert PathFrom(g, [a], a, a);
  }

  lemma ReachesOn(g: Graph, a: Name, b: Name, c: Name)
    requires Reaches(g, a, b) && DependsOn(g, b, c)
    ensures Reaches(g, a, c)
  {
    var p :| PathFrom(g, p, a, b);
    assert PathFrom(g, p + [c], a, c);
  }

  lemma ReachesVia(g: Graph, a: Name, b: Name, c: Name)
    requires DependsOn(g, a, b) && Reaches(g, b, c)
    ensures Reaches(g, a, c)
  {
    var p :| PathFrom(g, p, b, c);
    var q := [a] + p;
    forall i | 0 <= i < |q| - 1 ensures DependsOn(g, q[i], q[i + 1]) {
      if i > 0 {
        assert DependsOn(g, p[i - 1], p[i]);
      }
    }
    assert PathFrom(g, q, a, c);
  }
}
