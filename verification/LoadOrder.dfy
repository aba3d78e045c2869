/** Dependency load order: a depth-first post-order over a graph that may contain
    cycles and names nobody registered. */
module LoadOrder {
  import opened Common

  type Name = string

  /** What each registered service depends on. */
  type Graph = map<Name, seq<Name>>

  ghost predicate Edge(g: Graph, a: Name, b: Name) {
    a in g && b in g[a]
  }

  ghost predicate IsPath(g: Graph, p: seq<Name>) {
    p != [] && forall i :: 0 <= i < |p| - 1 ==> Edge(g, p[i], p[i + 1])
  }

  /** `a` depends on `b`, directly, indirectly or by being it. */
  ghost predicate Reaches(g: Graph, a: Name, b: Name) {
    exists p :: IsPath(g, p) && p[0] == a && p[|p| - 1] == b
  }

  lemma ReachesSelf(g: Graph, a: Name)
    ensures Reaches(g, a, a)
  {
    assert IsPath(g, [a]);
  }

  lemma ReachesNext(g: Graph, a: Name, b: Name, c: Name)
    requires Reaches(g, a, b) && Edge(g, b, c)
    ensures Reaches(g, a, c)
  {
    var p :| IsPath(g, p) && p[0] == a && p[|p| - 1] == b;
    assert IsPath(g, p + [c]);
  }

  function Elements(s: seq<Name>): set<Name> {
    set x | x in s
  }

  /** The registered names and every name one of them depends on. */
  ghost function Universe(g: Graph): set<Name> {
    g.Keys + set a, i | a in g && 0 <= i < |g[a]| :: g[a][i]
  }

  /** Names visited but not yet placed: those on the recursion stack. */
  ghost function OnStack(visited: set<Name>, order: seq<Name>): set<Name> {
    visited - Elements(order)
  }

  /** A dependency stands before its dependent, or depends on it in turn. */
  ghost predicate EdgeRespected(g: Graph, order: seq<Name>, j: nat, d: Name)
    requires j < |order|
  {
    d in order[..j] || Reaches(g, d, order[j])
  }

  /** What holds of the visited set and the order at every moment of the search. */
  ghost predicate Search(g: Graph, visited: set<Name>, order: seq<Name>) {
    && Distinct(order)
    && Elements(order) <= visited <= Universe(g)
    && (forall j, d :: 0 <= j < |order| && Edge(g, order[j], d) ==> d in visited && EdgeRespected(g, order, j, d))
  }

  lemma PlaceKeepsSearch(g: Graph, visited: set<Name>, order: seq<Name>, name: Name)
    requires Search(g, visited, order) && name in visited && name !in order
    requires forall d :: Edge(g, name, d) ==> d in visited
    requires forall a :: a in OnStack(visited, order) ==> Reaches(g, a, name)
    ensures Search(g, visited, order + [name])
    ensures OnStack(visited, order + [name]) == OnStack(visited, order) - {name}
  {
    var order' := order + [name];
    forall j, d | 0 <= j < |order'| && Edge(g, order'[j], d)
      ensures d in visited && EdgeRespected(g, order', j, d)
    {
      if j < |order| {
        assert EdgeRespected(g, order, j, d) && order'[..j] == order[..j];
      } else {
        assert order'[..j] == order;
        assert d in order || d in OnStack(visited, order);
      }
    }
  }

  /** `visit`: everything the name depends on is placed before it, unless it is on the
      stack already. */
  method Visit(g: Graph, name: Name, visited: set<Name>, order: seq<Name>)
    returns (visited': set<Name>, order': seq<Name>)
    requires Search(g, visited, order) && name in Universe(g)
    requires forall a :: a in OnStack(visited, order) ==> Reaches(g, a, name)
    ensures Search(g, visited', order')
    ensures visited <= visited' && name in visited'
    ensures OnStack(visited', order') == OnStack(visited, order)
    decreases Universe(g) - visited
  {
    if name in visited {
      return visited, order;
    }
    visited', order' := visited + {name}, order;
    if name in g {
      var deps := g[name];
      ReachesSelf(g, name);
      for i := 0 to |deps|
        invariant Search(g, visited', order')
        invariant visited + {name} <= visited'
        invariant OnStack(visited', order') == OnStack(visited, order) + {name}
        invariant forall k :: 0 <= k < i ==> deps[k] in visited'
      {
        assert Edge(g, name, deps[i]);
        forall a | a in OnStack(visited', order') ensures Reaches(g, a, deps[i]) {
          ReachesNext(g, a, name, deps[i]);
        }
        visited', order' := Visit(g, deps[i], visited', order');
      }
    }
    ReachesSelf(g, name);
    assert name in OnStack(visited', order');
    PlaceKeepsSearch(g, visited', order', name);
    order' := order' + [name];
  }

  /** The load order of the registered services: no duplicates, exactly the registered
      names and what they depend on, and every dependency precedes its dependent
      unless it depends on it in turn. */
  method ComputeLoadOrder(names: seq<Name>, g: Graph) returns (order: seq<Name>)
    requires Elements(names) == g.Keys
    ensures Distinct(order)
    ensures Elements(order) == Universe(g)
    ensures forall j, d :: 0 <= j < |order| && Edge(g, order[j], d) ==> EdgeRespected(g, order, j, d)
  {
    var visited: set<Name> := {};
    order := [];
    for i := 0 to |names|
      invariant Search(g, visited, order) && OnStack(visited, order) == {}
      invariant forall k :: 0 <= k < i ==> names[k] in visited
    {
      assert names[i] in g.Keys;
      visited, order := Visit(g, names[i], visited, order);
    }
    EverythingPlaced(g, visited, order);
  }

  lemma EverythingPlaced(g: Graph, visited: set<Name>, order: seq<Name>)
    requires Search(g, visited, order) && OnStack(visited, order) == {} && g.Keys <= visited
    ensures Elements(order) == Universe(g)
  {
    assert visited == (visited - Elements(order)) + visited * Elements(order);
    assert visited == Elements(order);
    forall d | d in Universe(g) ensures d in visited {
      if d !in g {
        var a, i :| a in g && 0 <= i < |g[a]| && d == g[a][i];
        assert Edge(g, a, d);
        var j :| 0 <= j < |order| && order[j] == a;
      }
    }
  }

  // ---- cycles ----

  /** No name is reachable from something it depends on. */
  ghost predicate Acyclic(g: Graph) {
    forall a, d :: Edge(g, a, d) ==> !Reaches(g, d, a)
  }

  ghost predicate DependenciesFirst(g: Graph, order: seq<Name>) {
    forall j, d :: 0 <= j < |order| && Edge(g, order[j], d) ==> d in order[..j]
  }

  /** In an order that puts dependencies first, a path never goes forward. */
  lemma {:induction false} PathsGoBack(g: Graph, order: seq<Name>, p: seq<Name>, j: nat)
    requires Distinct(order) && DependenciesFirst(g, order)
    requires IsPath(g, p) && j < |order| && order[j] == p[0]
    ensures exists i :: 0 <= i <= j && order[i] == p[|p| - 1]
    decreases |p|
  {
    if |p| > 1 {
      assert Edge(g, p[0], p[1]);
      var i :| 0 <= i < j && order[i] == p[1];
      var q := p[1..];
      assert IsPath(g, q) by {
        forall k | 0 <= k < |q| - 1 ensures Edge(g, q[k], q[k + 1]) {
          assert Edge(g, p[k + 1], p[k + 2]);
        }
      }
      PathsGoBack(g, order, q, i);
    }
  }

  /** Every dependency precedes its dependents exactly when the graph has no cycle. */
  lemma DependenciesFirstIffAcyclic(g: Graph, order: seq<Name>)
    requires Distinct(order) && Elements(order) == Universe(g)
    requires forall j, d :: 0 <= j < |order| && Edge(g, order[j], d) ==> EdgeRespected(g, order, j, d)
    ensures DependenciesFirst(g, order) <==> Acyclic(g)
  {
    if DependenciesFirst(g, order) {
      forall a, d | Edge(g, a, d) ensures !Reaches(g, d, a) {
        CycleImpossible(g, order, a, d);
      }
    }
  }

  lemma CycleImpossible(g: Graph, order: seq<Name>, a: Name, d: Name)
    requires Distinct(order) && Elements(order) == Universe(g) && DependenciesFirst(g, order)
    requires Edge(g, a, d)
    ensures !Reaches(g, d, a)
  {
    assert a in Elements(order);
    var j :| 0 <= j < |order| && order[j] == a;
    var i :| 0 <= i < j && order[i] == d;
    forall p | IsPath(g, p) && p[0] == d ensures p[|p| - 1] != a {
      PathsGoBack(g, order, p, i);
      var k :| 0 <= k <= i && order[k] == p[|p| - 1];
    }
  }

  /** Two services that depend on each other: no order of them puts both dependencies
      first. */
  lemma MutualDependency(order: seq<Name>)
    requires Distinct(order) && Elements(order) == {"a", "b"}
    ensures var g: Graph := map["a" := ["b"], "b" := ["a"]];
            Universe(g) == Elements(order) && !Acyclic(g) && !DependenciesFirst(g, order)
  {
    var g: Graph := map["a" := ["b"], "b" := ["a"]];
    assert Edge(g, "a", "b") && Edge(g, "b", "a");
    ReachesSelf(g, "b");
    ReachesNext(g, "b", "b", "a");
    assert Universe(g) == {"a", "b"};
    if DependenciesFirst(g, order) {
      assert "a" in Elements(order);
      CycleImpossible(g, order, "a", "b");
    }
  }
}
