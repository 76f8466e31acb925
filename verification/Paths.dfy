/** Paths in a graph, computed as a recursive query. */
module Paths {
  import opened Basics
  import opened ZSets

  type Node = int
  type Edge = (Node, Node)

  function Invert(t: Edge): Edge { (t.1, t.0) }
  function FromTo(via: Node, from: Node, to: Node): Edge { (from, to) }

  /** One round: the edges, and paths prolonged by an edge. */
  function Round(edges: ZSet<Edge>, paths: ZSet<Edge>): ZSet<Edge> {
    Plus(edges, Join(MapZ(paths, Invert), edges, FromTo))
  }

  ghost function Step(edges: ZSet<Edge>, paths: set<Edge>): set<Edge> {
    Distinct(Round(edges, Listing(paths)))
  }

  /** `nodes` is a chain of edges with at least one edge. */
  ghost predicate Chain(edges: ZSet<Edge>, nodes: seq<Node>) {
    |nodes| >= 2 && forall k :: 0 <= k < |nodes| - 1 ==> Has(edges, (nodes[k], nodes[k + 1]))
  }

  ghost predicate Linked(edges: ZSet<Edge>, from: Node, to: Node) {
    exists nodes :: Chain(edges, nodes) && nodes[0] == from && nodes[|nodes| - 1] == to
  }

  lemma StepFollows(edges: ZSet<Edge>, paths: set<Edge>, from: Node, to: Node)
    requires Positive(edges)
    ensures (from, to) in Step(edges, paths) <==>
              Has(edges, (from, to)) || exists via :: (from, via) in paths && Has(edges, (via, to))
  {
    var p := Listing(paths);
    var inverted := MapZ(p, Invert);
    PositiveJoin(inverted, edges, FromTo);
    HasJoin(inverted, edges, FromTo, (from, to));
    HasAppend(edges, Join(inverted, edges, FromTo), (from, to));
    DistinctPositive(Round(edges, p), (from, to));
    forall via ensures Has(inverted, (via, from)) <==> (from, via) in paths {
      HasMap(p, Invert, (via, from));
      assert Invert((from, via)) == (via, from);
    }
    if via :| (from, via) in paths && Has(edges, (via, to)) {
      assert Has(inverted, (via, from)) && FromTo(via, from, to) == (from, to);
    }
    if Has(Join(inverted, edges, FromTo), (from, to)) {
      var via, from', to' :| Has(inverted, (via, from')) && Has(edges, (via, to')) &&
          FromTo(via, from', to') == (from, to);
      assert (from, via) in paths;
    }
  }

  function Nodes(edges: ZSet<Edge>): set<Node> {
    (set k | 0 <= k < |edges| :: edges[k].0.0) + (set k | 0 <= k < |edges| :: edges[k].0.1)
  }

  function Universe(edges: ZSet<Edge>): set<Edge> {
    set x, y | x in Nodes(edges) && y in Nodes(edges) :: (x, y)
  }

  lemma {:induction false} Prolong(edges: ZSet<Edge>, from: Node, via: Node, to: Node)
    requires Linked(edges, from, via) && Has(edges, (via, to))
    ensures Linked(edges, from, to)
  {
    var nodes :| Chain(edges, nodes) && nodes[0] == from && nodes[|nodes| - 1] == via;
    var longer := nodes + [to];
    forall k | 0 <= k < |longer| - 1 ensures Has(edges, (longer[k], longer[k + 1])) {
      if k < |nodes| - 1 {
        assert Has(edges, (nodes[k], nodes[k + 1]));
      }
    }
    assert Chain(edges, longer) && longer[0] == from && longer[|longer| - 1] == to;
  }

  lemma StepLinks(edges: ZSet<Edge>, paths: set<Edge>, t: Edge)
    requires Positive(edges) && paths <= Universe(edges) && t in Step(edges, paths)
    requires forall p :: p in paths ==> Linked(edges, p.0, p.1)
    ensures t in Universe(edges) && Linked(edges, t.0, t.1)
  {
    var (a, b) := t;
    StepFollows(edges, paths, a, b);
    if Has(edges, (a, b)) {
      assert Chain(edges, [a, b]) && [a, b][0] == a && [a, b][|[a, b]| - 1] == b;
    } else {
      var via :| (a, via) in paths && Has(edges, (via, b));
      assert Linked(edges, (a, via).0, (a, via).1);
      Prolong(edges, a, via, b);
      assert (a, via) in Universe(edges);
    }
  }

  lemma StepMonotone(edges: ZSet<Edge>, paths: set<Edge>, paths': set<Edge>)
    requires Positive(edges) && paths <= paths'
    ensures Step(edges, paths) <= Step(edges, paths')
  {
    forall t | t in Step(edges, paths) ensures t in Step(edges, paths') {
      StepFollows(edges, paths, t.0, t.1);
      StepFollows(edges, paths', t.0, t.1);
    }
  }

  /** What a round may add: only linked pairs of nodes, and nothing gets lost. */
  lemma StepKeeps(edges: ZSet<Edge>, paths: set<Edge>)
    requires Positive(edges) && paths <= Universe(edges) && paths <= Step(edges, paths)
    requires forall p :: p in paths ==> Linked(edges, p.0, p.1)
    ensures Step(edges, paths) <= Universe(edges)
    ensures Step(edges, paths) <= Step(edges, Step(edges, paths))
    ensures forall p :: p in Step(edges, paths) ==> Linked(edges, p.0, p.1)
  {
    StepMonotone(edges, paths, Step(edges, paths));
    forall t | t in Step(edges, paths) ensures t in Universe(edges) && Linked(edges, t.0, t.1) {
      StepLinks(edges, paths, t);
    }
  }

  ghost function Solve(edges: ZSet<Edge>, paths: set<Edge>): (r: set<Edge>)
    requires Positive(edges) && paths <= Universe(edges) && paths <= Step(edges, paths)
    requires forall p :: p in paths ==> Linked(edges, p.0, p.1)
    ensures Step(edges, r) == r
    ensures forall p :: p in r ==> Linked(edges, p.0, p.1)
    decreases |Universe(edges)| - |paths|
  {
    var paths' := Step(edges, paths);
    StepKeeps(edges, paths);
    SubsetSize(paths, paths');
    SubsetSize(paths', Universe(edges));
    if paths' == paths then paths else Solve(edges, paths')
  }

  lemma {:induction false} FixedPointHasChains(edges: ZSet<Edge>, r: set<Edge>, nodes: seq<Node>)
    requires Positive(edges) && Step(edges, r) == r && Chain(edges, nodes)
    ensures (nodes[0], nodes[|nodes| - 1]) in r
    decreases |nodes|
  {
    var last := |nodes| - 1;
    var via := nodes[last - 1];
    StepFollows(edges, r, nodes[0], nodes[last]);
    assert Has(edges, (via, nodes[last - 1 + 1]));
    if |nodes| > 2 {
      FixedPointHasChains(edges, r, nodes[..last]);
      assert (nodes[0], via) in r && Has(edges, (via, nodes[last]));
    }
  }

  /** The recursion ends for every finite graph, with exactly the pairs of nodes that a
      nonempty chain of edges joins. */
  lemma PathsAreChains(edges: ZSet<Edge>, from: Node, to: Node)
    requires Positive(edges)
    ensures (from, to) in Solve(edges, {}) <==> Linked(edges, from, to)
  {
    if (from, to) in Solve(edges, {}) {
      assert Linked(edges, (from, to).0, (from, to).1);
    }
    if nodes :| Chain(edges, nodes) && nodes[0] == from && nodes[|nodes| - 1] == to {
      FixedPointHasChains(edges, Solve(edges, {}), nodes);
    }
  }
}
