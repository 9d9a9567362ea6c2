/** The dependency graph behind the delivery forecast, and the depth-first search that orders it. */
module ForecastGraph {
  import opened Sequences

  /** Effort is counted in half-hours. A done node carries the calendar index of its evidenced
      completion, -1 when that lies before the first planning day. */
  datatype Node = Node(deps: seq<int>, effort: nat, done: bool, completion: int, priority: nat)

  /** `listing` is the insertion order of the source's dictionary. */
  datatype Graph = Graph(listing: seq<int>, node: map<int, Node>)

  ghost predicate Valid(g: Graph) {
    && Distinct(g.listing)
    && (forall n :: n in g.listing <==> n in g.node)
    && (forall n | n in g.node :: -1 <= g.node[n].completion)
  }

  /** Every dependency names a node of the graph. */
  ghost predicate Closed(g: Graph) {
    forall n, d | n in g.node && d in g.node[n].deps :: d in g.node
  }

  ghost predicate Depends(g: Graph, n: int, d: int) {
    n in g.node && d in g.node[n].deps
  }

  /** A dependency chain in order of execution: each element is a dependency of the next. */
  ghost predicate Chain(g: Graph, p: seq<int>) {
    && p != []
    && (forall i | 0 <= i < |p| :: p[i] in g.node)
    && (forall i | 0 < i < |p| :: Depends(g, p[i], p[i - 1]))
  }

  ghost predicate CycleThrough(g: Graph, n: int) {
    exists p :: Chain(g, p) && |p| > 1 && p[0] == n && p[|p| - 1] == n
  }

  /** Each node comes after all its dependencies. */
  ghost predicate DepsFirst(g: Graph, order: seq<int>) {
    forall i | 0 <= i < |order| ::
      order[i] in g.node && forall d | d in g.node[order[i]].deps :: d in order[..i]
  }

  ghost predicate Topological(g: Graph, order: seq<int>) {
    && Distinct(order)
    && (forall n :: n in order <==> n in g.node)
    && DepsFirst(g, order)
  }

  datatype Outcome = Ordered(order: seq<int>) | Cyclic(at: int) | Unknown(at: int)

  /** What the search promises: an order exactly when one exists, else a real obstacle. */
  ghost predicate Explains(g: Graph, r: Outcome) {
    match r
    case Ordered(order) => Topological(g, order)
    case Cyclic(at) => CycleThrough(g, at)
    case Unknown(at) => at !in g.node && exists n :: Depends(g, n, at)
  }

  /** Positions rise along a chain. */
  lemma {:induction false} ChainRises(g: Graph, order: seq<int>, p: seq<int>, j: nat)
    requires Topological(g, order) && Chain(g, p) && |p| > 1
    requires j < |order| && order[j] == p[|p| - 1]
    ensures p[0] in order[..j]
  {
    assert Depends(g, p[|p| - 1], p[|p| - 2]);
    var k :| 0 <= k < j && order[k] == p[|p| - 2];
    if |p| > 2 {
      ChainRises(g, order, p[..|p| - 1], k);
    }
  }

  /** A topological order leaves no room for the other two outcomes, so the search answers
      `Ordered` if and only if the graph is closed and has no cycle. */
  lemma OrderExcludesObstacles(g: Graph, order: seq<int>, r: Outcome)
    requires Valid(g) && Topological(g, order) && Explains(g, r)
    ensures r.Ordered? && Closed(g) && forall n :: !CycleThrough(g, n)
  {
    forall n | CycleThrough(g, n) ensures false {
      var p :| Chain(g, p) && |p| > 1 && p[0] == n && p[|p| - 1] == n;
      assert p[|p| - 1] in g.node;
      var j :| 0 <= j < |order| && order[j] == n;
      ChainRises(g, order, p, j);
    }
    forall n, d | Depends(g, n, d) ensures d in g.node {
      var j :| 0 <= j < |order| && order[j] == n;
    }
  }

  class TopologicalSort {
    const g: Graph
    var vis: set<int>
    var active: set<int>
    var order: seq<int>

    constructor (g: Graph)
      requires Valid(g)
      ensures this.g == g && Valid(g) && Consistent([]) && order == [] && vis == {}
    {
      this.g := g;
      vis, active, order := {}, {}, [];
    }

    /** `path` is the stack of open visits, innermost first. */
    ghost predicate Consistent(path: seq<int>)
      reads this
    {
      && Valid(g)
      && Distinct(order) && DepsFirst(g, order)
      && (forall n :: n in vis <==> n in order)
      && (forall n :: n in active <==> n in path)
      && active !! vis
      && (path == [] || Chain(g, path))
    }

    method Visit(n: int, ghost path: seq<int>) returns (failure: Outcome)
      requires Consistent(path)
      requires if path == [] then n in g.node else Depends(g, path[0], n)
      modifies this
      ensures failure.Ordered? ==> Consistent(path) && active == old(active) && n in vis
      ensures failure.Ordered? ==> old(vis) <= vis
      ensures !failure.Ordered? ==> Explains(g, failure)
      decreases g.node.Keys - active
    {
      if n in active {
        ghost var j :| 0 <= j < |path| && path[j] == n;
        ghost var loop := [n] + path[..j + 1];
        assert Chain(g, loop);
        return Cyclic(n);
      }
      if n in vis { return Ordered([]); }
      active := active + {n};
      if n !in g.node { return Unknown(n); }
      ghost var inner := [n] + path;
      var deps := g.node[n].deps;
      for i := 0 to |deps|
        invariant Consistent(inner) && active == old(active) + {n}
        invariant old(vis) <= vis
        invariant forall j | 0 <= j < i :: deps[j] in vis
      {
        failure := Visit(deps[i], inner);
        if !failure.Ordered? { return; }
      }
      active := active - {n};
      assert forall i | 0 <= i <= |order| :: (order + [n])[..i] == order[..i];
      vis, order := vis + {n}, order + [n];
      return Ordered([]);
    }

    /** The module-level loop over all nodes. */
    method Sort() returns (r: Outcome)
      requires Consistent([]) && order == []
      modifies this
      ensures Explains(g, r)
    {
      for i := 0 to |g.listing|
        invariant Consistent([])
        invariant forall j | 0 <= j < i :: g.listing[j] in vis
      {
        r := Visit(g.listing[i], []);
        if !r.Ordered? { return; }
      }
      return Ordered(order);
    }
  }
}
