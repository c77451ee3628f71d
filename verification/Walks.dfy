/** Weighted graphs as adjacency lists (demos/rust/src/main.rs), the walks in them and what these cost. */
module Walks {

  const MAX := 0xFFFF_FFFF

  /** A node, known by its name. */
  datatype Node = Node(name: string)

  type Weight = w: int | 0 <= w <= MAX

  /** The adjacency lists of a graph. */
  type Edges = map<Node, seq<(Node, Weight)>>

  function Adjacent(e: Edges, u: Node): seq<(Node, Weight)> {
    if u in e then e[u] else []
  }

  // ---------------------------------------------------------------- walks

  /** `path` leads from start to goal along edges whose weights add up to cost. */
  ghost predicate Walk(e: Edges, start: Node, path: seq<Node>, goal: Node, cost: nat)
    decreases |path|
  {
    && |path| > 0 && path[0] == start && path[|path| - 1] == goal
    && if |path| == 1 then cost == 0
       else exists w: Weight :: LastStep(e, start, path, goal, cost, w)
  }

  ghost predicate LastStep(e: Edges, start: Node, path: seq<Node>, goal: Node, cost: nat, w: Weight)
    requires |path| > 1
    decreases |path|, 0
  {
    && w <= cost && (goal, w) in Adjacent(e, path[|path| - 2])
    && Walk(e, start, path[..|path| - 1], path[|path| - 2], cost - w)
  }

  lemma WalkAppend(e: Edges, start: Node, path: seq<Node>, u: Node, cost: nat, v: Node, w: Weight)
    requires Walk(e, start, path, u, cost) && (v, w) in Adjacent(e, u)
    ensures Walk(e, start, path + [v], v, cost + w)
  {
    assert (path + [v])[..|path|] == path;
    assert LastStep(e, start, path + [v], v, cost + w, w);
  }

  lemma {:induction false} WalkPrepend(e: Edges, t: Node, w: Weight, u: Node, path: seq<Node>, goal: Node, cost: nat)
    requires Walk(e, u, path, goal, cost) && (u, w) in Adjacent(e, t)
    ensures Walk(e, t, [t] + path, goal, w + cost)
    decreases |path|
  {
    if |path| == 1 {
      assert path == [u];
      assert Walk(e, t, [t], t, 0);
      WalkAppend(e, t, [t], t, 0, u, w);
    } else {
      var x: Weight :| LastStep(e, u, path, goal, cost, x);
      var init := path[..|path| - 1];
      WalkPrepend(e, t, w, u, init, path[|path| - 2], cost - x);
      WalkAppend(e, t, [t] + init, path[|path| - 2], w + (cost - x), goal, x);
      assert [t] + init + [goal] == [t] + path;
    }
  }

  function Reversed(s: seq<Node>): (r: seq<Node>) {
    if s == [] then [] else [s[|s| - 1]] + Reversed(s[..|s| - 1])
  }

  lemma ReversedWalk(e: Edges, p: Node, w: Weight, u: Node, path: seq<Node>, goal: Node, cost: nat)
    requires Walk(e, u, Reversed(path), goal, cost) && (u, w) in Adjacent(e, p)
    ensures Walk(e, p, Reversed(path + [p]), goal, w + cost)
  {
    assert (path + [p])[..|path|] == path;
    WalkPrepend(e, p, w, u, Reversed(path), goal, cost);
  }

  // ---------------------------------------------------------------- distances

  ghost predicate Reachable(e: Edges, start: Node, goal: Node) {
    exists path, cost: nat :: Walk(e, start, path, goal, cost)
  }

  /** No walk to goal is cheaper than c. */
  ghost predicate AtLeast(e: Edges, start: Node, goal: Node, c: nat) {
    forall path, cost: nat :: Walk(e, start, path, goal, cost) ==> c <= cost
  }

  /** The cheapest walk to v costs c. */
  ghost predicate Distance(e: Edges, start: Node, v: Node, c: nat) {
    (exists path :: Walk(e, start, path, v, c)) && AtLeast(e, start, v, c)
  }

  /** No walk that costs c can be prolonged for nothing. */
  ghost predicate PositiveAt(e: Edges, start: Node, c: nat) {
    forall path, u, i: nat :: Walk(e, start, path, u, c) && i < |Adjacent(e, u)| ==> Adjacent(e, u)[i].1 > 0
  }

  /** No edge of weight zero leaves a node that is as far as the goal. */
  ghost predicate NoZeroAtGoal(e: Edges, start: Node, goal: Node) {
    forall c: nat :: Distance(e, start, goal, c) ==> PositiveAt(e, start, c)
  }

  // ---------------------------------------------------------------- weights and nodes

  function SumOf(neighbours: seq<(Node, Weight)>): nat {
    if neighbours == [] then 0
    else SumOf(neighbours[..|neighbours| - 1]) + neighbours[|neighbours| - 1].1
  }

  lemma {:induction false} WeightInSum(neighbours: seq<(Node, Weight)>, j: nat)
    requires j < |neighbours|
    ensures neighbours[j].1 <= SumOf(neighbours)
  {
    if j < |neighbours| - 1 { WeightInSum(neighbours[..|neighbours| - 1], j); }
  }

  /** The sum of all weights in the adjacency lists of some nodes. */
  function Budget(e: Edges, nodes: seq<Node>): nat {
    if nodes == [] then 0
    else Budget(e, nodes[..|nodes| - 1]) + SumOf(Adjacent(e, nodes[|nodes| - 1]))
  }

  lemma BudgetAppend(e: Edges, nodes: seq<Node>, u: Node)
    ensures Budget(e, nodes + [u]) == Budget(e, nodes) + SumOf(Adjacent(e, u))
  {
    assert (nodes + [u])[..|nodes|] == nodes;
  }

  /** The sum of all weights in all adjacency lists; each undirected edge counts twice. */
  ghost function Total(e: Edges): nat
    decreases |e|
  {
    if e == map[] then 0 else var u :| u in e; SumOf(e[u]) + Total(e - {u})
  }

  lemma {:induction false} TotalWithout(e: Edges, u: Node)
    requires u in e
    ensures Total(e) == SumOf(e[u]) + Total(e - {u})
    decreases |e|
  {
    var v :| v in e && Total(e) == SumOf(e[v]) + Total(e - {v});
    if v != u {
      TotalWithout(e - {v}, u);
      TotalWithout(e - {u}, v);
      assert e - {v} - {u} == e - {u} - {v};
    }
  }

  lemma {:induction false} BudgetInTotal(e: Edges, nodes: seq<Node>)
    requires forall i, j :: 0 <= i < j < |nodes| ==> nodes[i] != nodes[j]
    ensures Budget(e, nodes) <= Total(e)
  {
    if nodes != [] {
      var init, u := nodes[..|nodes| - 1], nodes[|nodes| - 1];
      if u in e {
        BudgetElsewhere(e, init, u);
        BudgetInTotal(e - {u}, init);
        TotalWithout(e, u);
      } else {
        BudgetInTotal(e, init);
      }
    }
  }

  lemma {:induction false} BudgetElsewhere(e: Edges, nodes: seq<Node>, u: Node)
    requires u !in nodes
    ensures Budget(e - {u}, nodes) == Budget(e, nodes)
  {
    if nodes != [] { BudgetElsewhere(e, nodes[..|nodes| - 1], u); }
  }

  function Nodes(e: Edges, start: Node): set<Node> {
    {start} + set u, j | u in e && 0 <= j < |e[u]| :: e[u][j].0
  }

  lemma EdgeInNodes(e: Edges, start: Node, u: Node, v: Node, w: Weight)
    requires (v, w) in Adjacent(e, u)
    ensures v in Nodes(e, start)
  {
    var j :| 0 <= j < |Adjacent(e, u)| && Adjacent(e, u)[j] == (v, w);
    assert e[u][j].0 == v;
  }

  lemma {:induction false} DistinctInSet(nodes: seq<Node>, all: set<Node>)
    requires forall i :: 0 <= i < |nodes| ==> nodes[i] in all
    requires forall i, j :: 0 <= i < j < |nodes| ==> nodes[i] != nodes[j]
    ensures |nodes| <= |all|
  {
    if nodes != [] {
      DistinctInSet(nodes[..|nodes| - 1], all - {nodes[|nodes| - 1]});
    }
  }

  // ---------------------------------------------------------------- adding edges

  /** node's list with one more edge. */
  function WithPush(e: Edges, node: Node, edge: (Node, Weight)): Edges {
    e[node := Adjacent(e, node) + [edge]]
  }

  function WithEdge(e: Edges, from: Node, to: Node, weight: Weight): Edges {
    WithPush(WithPush(e, from, (to, weight)), to, (from, weight))
  }

  ghost predicate HasEdge(e: Edges, u: Node, v: Node, w: Weight) {
    (v, w) in Adjacent(e, u)
  }

  ghost predicate Undirected(e: Edges) {
    forall u, v, w: Weight :: HasEdge(e, u, v, w) ==> HasEdge(e, v, u, w)
  }

  lemma PushAdds(e: Edges, node: Node, edge: (Node, Weight))
    ensures forall u, v, w: Weight ::
      HasEdge(WithPush(e, node, edge), u, v, w) <==> HasEdge(e, u, v, w) || (u == node && (v, w) == edge)
    ensures Total(WithPush(e, node, edge)) == Total(e) + edge.1
    ensures forall u :: Adjacent(WithPush(e, node, edge), u) == Adjacent(e, u) + if u == node then [edge] else []
  {
    var t := WithPush(e, node, edge);
    TotalWithout(t, node);
    assert t - {node} == e - {node};
    assert t[node][..|t[node]| - 1] == Adjacent(e, node);
    if node in e { TotalWithout(e, node); } else { assert e - {node} == e; }
  }

  /** An edge is added in both directions and nothing else is. */
  lemma WithEdgeAddsBoth(e: Edges, from: Node, to: Node, weight: Weight)
    ensures forall u, v, w: Weight :: HasEdge(WithEdge(e, from, to, weight), u, v, w) <==>
      HasEdge(e, u, v, w) || (w == weight && ((u == from && v == to) || (u == to && v == from)))
    ensures Undirected(e) ==> Undirected(WithEdge(e, from, to, weight))
    ensures Total(WithEdge(e, from, to, weight)) == Total(e) + 2 * weight
  {
    PushAdds(e, from, (to, weight));
    PushAdds(WithPush(e, from, (to, weight)), to, (from, weight));
  }

  /** In an undirected graph every walk can be walked back at the same cost. */
  lemma {:induction false} WalkBack(e: Edges, start: Node, path: seq<Node>, goal: Node, cost: nat)
    requires Undirected(e) && Walk(e, start, path, goal, cost)
    ensures Walk(e, goal, Reversed(path), start, cost)
    decreases |path|
  {
    if |path| == 1 {
      assert path == [start] && Reversed(path[..0]) == [];
    } else {
      var w: Weight :| LastStep(e, start, path, goal, cost, w);
      var init, u := path[..|path| - 1], path[|path| - 2];
      WalkBack(e, start, init, u, cost - w);
      assert HasEdge(e, u, goal, w) && HasEdge(e, goal, u, w);
      WalkPrepend(e, goal, w, u, Reversed(init), start, cost - w);
    }
  }

  /** So the distances both ways are the same. */
  lemma DistancesAreSymmetric(e: Edges, start: Node, goal: Node, c: nat)
    requires Undirected(e)
    ensures AtLeast(e, start, goal, c) <==> AtLeast(e, goal, start, c)
    ensures Reachable(e, start, goal) <==> Reachable(e, goal, start)
  {
    forall path, cost: nat | Walk(e, start, path, goal, cost) ensures Walk(e, goal, Reversed(path), start, cost) {
      WalkBack(e, start, path, goal, cost);
    }
    forall path, cost: nat | Walk(e, goal, path, start, cost) ensures Walk(e, start, Reversed(path), goal, cost) {
      WalkBack(e, goal, path, start, cost);
    }
  }
}
