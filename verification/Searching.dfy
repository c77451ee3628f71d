/** The state of Dijkstra's search with lazy deletion (demos/rust/src/main.rs), the invariant it satisfies, and how
    settling a node and relaxing an edge keep that. Costs are u32, an unknown distance counts as u32::MAX, and the
    heap may hold entries that are out of date. */
module Searching {
  import opened Walks
  import opened Entries

  // ---------------------------------------------------------------- the state of a search

  /** dist, prev and heap as in the program; `settled` lists the nodes whose edges have been relaxed. */
  datatype Search = Search(
    dist: map<Node, nat>,
    prev: map<Node, Node>,
    heap: multiset<(nat, Node)>,
    settled: seq<Node>)

  ghost predicate DistOk(e: Edges, start: Node, s: Search) {
    && start in s.dist && s.dist[start] == 0 && start !in s.prev
    && (forall v :: v in s.dist ==> s.dist[v] < MAX && s.dist[v] <= Budget(e, s.settled))
    && (forall v :: v in s.prev <==> v in s.dist && v != start)
    && (forall v {:trigger Linked(e, s, v, s.prev[v])} :: v in s.prev ==> Linked(e, s, v, s.prev[v]))
  }

  /** v was last reached from p. */
  ghost predicate Linked(e: Edges, s: Search, v: Node, p: Node) {
    && p in s.settled && p in s.dist && v in s.dist && s.dist[v] >= s.dist[p]
    && s.dist[v] - s.dist[p] <= MAX && (v, (s.dist[v] - s.dist[p]) as Weight) in Adjacent(e, p)
  }

  /** The distance of the node settled last. */
  ghost function Radius(s: Search): nat {
    if s.settled != [] && s.settled[|s.settled| - 1] in s.dist then s.dist[s.settled[|s.settled| - 1]] else 0
  }

  /** Nodes were settled once each, after their predecessors, and no settled node is farther than an unsettled one. */
  ghost predicate SettledOk(start: Node, s: Search) {
    && (forall v :: v in s.settled ==> v in s.dist)
    && (forall i, j :: 0 <= i < j < |s.settled| ==> s.settled[i] != s.settled[j])
    && (forall i {:trigger After(s.prev, s.settled, i)} :: 0 <= i < |s.settled| ==> After(s.prev, s.settled, i))
    && (forall v :: v in s.dist ==> if v in s.settled then s.dist[v] <= Radius(s) else s.dist[v] >= Radius(s))
  }

  /** The i-th settled node was settled after its predecessor. */
  ghost predicate After(prev: map<Node, Node>, settled: seq<Node>, i: nat)
    requires i < |settled|
  {
    settled[i] in prev ==> prev[settled[i]] in settled[..i]
  }

  /** The heap holds the distance of every unsettled node, and else only entries that are out of date. */
  ghost predicate HeapOk(s: Search) {
    && (forall x :: x in s.heap ==> x.1 in s.dist && s.dist[x.1] <= x.0)
    && (forall x :: x in s.heap && x.1 in s.settled ==> s.dist[x.1] < x.0)
    && (forall v :: v in s.dist && v !in s.settled ==> (s.dist[v], v) in s.heap)
    && (forall x :: x in s.heap ==> s.heap[x] == 1)
  }

  /** The j-th edge of u has been relaxed, and its cost did fit. */
  ghost predicate EdgeOk(e: Edges, s: Search, u: Node, j: int)
    requires u in s.dist && 0 <= j < |Adjacent(e, u)|
  {
    var (x, w) := Adjacent(e, u)[j];
    && s.dist[u] + w <= MAX && s.dist[u] + w <= Budget(e, s.settled)
    && (s.dist[u] + w == MAX || (x in s.dist && s.dist[x] <= s.dist[u] + w))
  }

  /** All edges of settled nodes are relaxed, but for those of `current` from its i-th on. */
  ghost predicate EdgesOk(e: Edges, s: Search, current: Node, i: nat) {
    forall u, j {:trigger EdgeOk(e, s, u, j)} ::
      u in s.settled && u in s.dist && 0 <= j < |Adjacent(e, u)| && (u == current ==> j < i) ==> EdgeOk(e, s, u, j)
  }

  ghost predicate Ok(e: Edges, start: Node, s: Search) {
    DistOk(e, start, s) && SettledOk(start, s) && HeapOk(s) && EdgesOk(e, s, start, |Adjacent(e, start)|)
  }

  // ---------------------------------------------------------------- lower bounds

  /** Any walk is as long as the distance of its end if that is settled, or else at least `bound`, provided
      no unsettled node is known to be nearer than that. */
  lemma {:induction false} WalksAreLonger(
    e: Edges, start: Node, s: Search, bound: nat, path: seq<Node>, v: Node, cost: nat)
    requires Ok(e, start, s) && Walk(e, start, path, v, cost)
    requires forall x :: x in s.dist && x !in s.settled ==> bound <= s.dist[x]
    ensures (v in s.settled && v in s.dist && s.dist[v] <= cost) || cost >= MAX || cost >= bound
    decreases |path|
  {
    if |path| > 1 {
      var w: Weight :| LastStep(e, start, path, v, cost, w);
      var u := path[|path| - 2];
      WalksAreLonger(e, start, s, bound, path[..|path| - 1], u, cost - w);
      if u in s.settled && u in s.dist && s.dist[u] <= cost - w {
        var j :| 0 <= j < |Adjacent(e, u)| && Adjacent(e, u)[j] == (v, w);
        assert EdgeOk(e, s, u, j);
      }
    }
  }

  // ---------------------------------------------------------------- the steps of the search

  function Begin(start: Node): Search {
    Search(map[start := 0], map[], multiset{(0, start)}, [])
  }

  lemma BeginOk(e: Edges, start: Node)
    ensures Ok(e, start, Begin(start))
  {
  }

  /** An entry that is out of date is dropped. */
  lemma DropStale(e: Edges, start: Node, s: Search, x: (nat, Node))
    requires Ok(e, start, s) && x in s.heap && x.0 > s.dist[x.1]
    ensures Ok(e, start, s.(heap := s.heap - multiset{x}))
  {
    DropHeap(s, x);
    HeapIsApart(e, start, s, s.heap - multiset{x});
    EdgesSame(e, s, s.(heap := s.heap - multiset{x}), start, |Adjacent(e, start)|);
  }

  /** Distances and the order of settling do not depend on the heap. */
  lemma HeapIsApart(e: Edges, start: Node, s: Search, heap: multiset<(nat, Node)>)
    ensures DistOk(e, start, s) ==> DistOk(e, start, s.(heap := heap))
    ensures SettledOk(start, s) ==> SettledOk(start, s.(heap := heap))
  {
    var t := s.(heap := heap);
    if DistOk(e, start, s) {
      forall v | v in t.prev ensures Linked(e, t, v, t.prev[v]) { assert Linked(e, s, v, s.prev[v]); }
    }
    if SettledOk(start, s) {
      forall i | 0 <= i < |t.settled| ensures After(t.prev, t.settled, i) { assert After(s.prev, s.settled, i); }
    }
  }

  lemma EdgesSame(e: Edges, s: Search, t: Search, u: Node, i: nat)
    requires EdgesOk(e, s, u, i) && t.dist == s.dist && t.settled == s.settled
    ensures EdgesOk(e, t, u, i)
  {
    forall v, j | v in t.settled && v in t.dist && 0 <= j < |Adjacent(e, v)| && (v == u ==> j < i)
      ensures EdgeOk(e, t, v, j)
    {
      assert EdgeOk(e, s, v, j);
    }
  }

  lemma DropHeap(s: Search, x: (nat, Node))
    requires HeapOk(s) && x in s.heap && x.0 > s.dist[x.1]
    ensures HeapOk(s.(heap := s.heap - multiset{x}))
  {
    forall y ensures y in s.heap - multiset{x} <==> y in s.heap && y != x
             ensures y != x ==> (s.heap - multiset{x})[y] == s.heap[y]
    {
      RemoveOnce(s.heap, x, y);
    }
  }

  /** The edges of `u`, the node just settled, are being relaxed, the first i of them are done. */
  ghost predicate Expanding(e: Edges, start: Node, s: Search, u: Node, i: nat) {
    && DistOk(e, start, s) && SettledOk(start, s) && HeapOk(s) && EdgesOk(e, s, u, i)
    && Farthest(e, s, u)
  }

  /** u is the node settled last, and its edges are within the budget. */
  ghost predicate Farthest(e: Edges, s: Search, u: Node) {
    && u in s.settled && u in s.dist && s.dist[u] == Radius(s) && u == s.settled[|s.settled| - 1]
    && s.dist[u] + SumOf(Adjacent(e, u)) <= Budget(e, s.settled)
  }

  function Settle(s: Search, x: (nat, Node)): Search {
    s.(heap := s.heap - multiset{x}, settled := s.settled + [x.1])
  }

  /** The nearest entry, if up to date, settles its node. */
  lemma SettleNearest(e: Edges, start: Node, s: Search, x: (nat, Node))
    requires Ok(e, start, s) && IsNearest(s.heap, x) && x.0 == s.dist[x.1]
    ensures x.1 !in s.settled && Expanding(e, start, Settle(s, x), x.1, 0)
  {
    var t, u := Settle(s, x), x.1;
    BudgetAppend(e, s.settled, u);
    SettleDist(e, start, s, x);
    SettleOrder(e, start, s, x);
    SettleHeap(s, x);
    SettleEdges(e, s, x, start);
  }

  lemma SettleDist(e: Edges, start: Node, s: Search, x: (nat, Node))
    requires DistOk(e, start, s)
    ensures DistOk(e, start, Settle(s, x))
  {
    BudgetAppend(e, s.settled, x.1);
    forall v | v in s.prev ensures Linked(e, Settle(s, x), v, s.prev[v]) {
      assert Linked(e, s, v, s.prev[v]);
    }
  }

  lemma SettleOrder(e: Edges, start: Node, s: Search, x: (nat, Node))
    requires DistOk(e, start, s) && SettledOk(start, s) && HeapOk(s) && IsNearest(s.heap, x) && x.0 == s.dist[x.1]
    ensures SettledOk(start, Settle(s, x))
  {
    var t, u := Settle(s, x), x.1;
    assert forall v :: v in t.settled <==> v in s.settled || v == u;
    SettleRadius(s, x);
    forall i | 0 <= i < |t.settled| ensures After(t.prev, t.settled, i) {
      if i < |s.settled| { assert After(s.prev, s.settled, i) && t.settled[..i] == s.settled[..i]; }
      else {
        assert t.settled[..i] == s.settled;
        if u in s.prev { assert Linked(e, s, u, s.prev[u]); }
      }
    }
  }

  lemma SettleRadius(s: Search, x: (nat, Node))
    requires HeapOk(s) && IsNearest(s.heap, x) && x.0 == s.dist[x.1]
    requires forall v :: v in s.dist ==> if v in s.settled then s.dist[v] <= Radius(s) else s.dist[v] >= Radius(s)
    ensures Radius(Settle(s, x)) == s.dist[x.1] >= Radius(s)
    ensures forall v :: v in s.dist && v !in s.settled ==> s.dist[v] >= s.dist[x.1]
  {
    forall v | v in s.dist && v !in s.settled ensures s.dist[x.1] <= s.dist[v] {
      assert (s.dist[v], v) in s.heap;
    }
  }

  lemma SettleHeap(s: Search, x: (nat, Node))
    requires HeapOk(s) && x in s.heap && x.0 == s.dist[x.1]
    ensures HeapOk(Settle(s, x))
  {
    forall y ensures y in s.heap - multiset{x} <==> y in s.heap && y != x
             ensures y != x ==> (s.heap - multiset{x})[y] == s.heap[y]
    {
      RemoveOnce(s.heap, x, y);
    }
    assert forall v :: v in Settle(s, x).settled <==> v in s.settled || v == x.1;
  }

  lemma SettleEdges(e: Edges, s: Search, x: (nat, Node), start: Node)
    requires EdgesOk(e, s, start, |Adjacent(e, start)|)
    ensures EdgesOk(e, Settle(s, x), x.1, 0)
  {
    var t, u := Settle(s, x), x.1;
    BudgetAppend(e, s.settled, u);
    forall v, j | v in t.settled && v in t.dist && 0 <= j < |Adjacent(e, v)| && (v == u ==> j < 0)
      ensures EdgeOk(e, t, v, j)
    {
      assert EdgeOk(e, s, v, j);
    }
  }

  function DistanceOf(dist: map<Node, nat>, v: Node): nat {
    if v in dist then dist[v] else MAX
  }

  /** The edge is no improvement. */
  lemma RelaxSkip(e: Edges, start: Node, s: Search, u: Node, i: nat)
    requires Expanding(e, start, s, u, i) && i < |Adjacent(e, u)|
    requires MAX >= s.dist[u] + Adjacent(e, u)[i].1 >= DistanceOf(s.dist, Adjacent(e, u)[i].0)
    ensures Expanding(e, start, s, u, i + 1)
  {
    WeightInSum(Adjacent(e, u), i);
  }

  function Improve(s: Search, u: Node, x: Node, cost: nat): Search {
    s.(dist := s.dist[x := cost], prev := s.prev[x := u], heap := s.heap + multiset{(cost, x)})
  }

  /** The edge is an improvement: its end is not settled, nor the start. */
  lemma RelaxImproves(e: Edges, start: Node, s: Search, u: Node, i: nat, x: Node, cost: nat)
    requires Expanding(e, start, s, u, i) && i < |Adjacent(e, u)|
    requires x == Adjacent(e, u)[i].0 && cost == s.dist[u] + Adjacent(e, u)[i].1 < DistanceOf(s.dist, x)
    ensures Expanding(e, start, Improve(s, u, x, cost), u, i + 1) && x != u
  {
    ImproveIsNew(e, start, s, u, i, x, cost);
    ImproveDist(e, start, s, u, i, x, cost);
    ImproveSettled(start, s, u, x, cost);
    ImproveHeap(s, u, x, cost);
    ImproveEdges(e, s, u, i, x, cost);
  }

  lemma ImproveIsNew(e: Edges, start: Node, s: Search, u: Node, i: nat, x: Node, cost: nat)
    requires start in s.dist && s.dist[start] == 0 && SettledOk(start, s) && Farthest(e, s, u)
    requires i < |Adjacent(e, u)|
    requires forall v :: v in s.dist ==> s.dist[v] < MAX
    requires x == Adjacent(e, u)[i].0 && cost == s.dist[u] + Adjacent(e, u)[i].1 < DistanceOf(s.dist, x)
    ensures x !in s.settled && x != start && x != u && cost < MAX && cost <= Budget(e, s.settled)
    ensures Farthest(e, Improve(s, u, x, cost), u)
  {
    WeightInSum(Adjacent(e, u), i);
  }

  lemma ImproveHeap(s: Search, u: Node, x: Node, cost: nat)
    requires HeapOk(s) && x !in s.settled && cost < DistanceOf(s.dist, x)
    ensures HeapOk(Improve(s, u, x, cost))
  {
    assert (cost, x) !in s.heap;
    var heap := s.heap + multiset{(cost, x)};
    assert forall y :: y in heap <==> y in s.heap || y == (cost, x);
    assert forall y :: y != (cost, x) ==> heap[y] == s.heap[y];
  }

  lemma ImproveEdges(e: Edges, s: Search, u: Node, i: nat, x: Node, cost: nat)
    requires EdgesOk(e, s, u, i) && i < |Adjacent(e, u)| && x !in s.settled && u in s.settled && u in s.dist
    requires x == Adjacent(e, u)[i].0 && cost == s.dist[u] + Adjacent(e, u)[i].1 < DistanceOf(s.dist, x)
    requires cost < MAX && cost <= Budget(e, s.settled)
    ensures EdgesOk(e, Improve(s, u, x, cost), u, i + 1)
  {
    var t := Improve(s, u, x, cost);
    forall v, j | v in t.settled && v in t.dist && 0 <= j < |Adjacent(e, v)| && (v == u ==> j < i + 1)
      ensures EdgeOk(e, t, v, j)
    {
      if v != u || j < i { assert EdgeOk(e, s, v, j); }
    }
  }

  lemma ImproveDist(e: Edges, start: Node, s: Search, u: Node, i: nat, x: Node, cost: nat)
    requires DistOk(e, start, s) && u in s.settled && u in s.dist && i < |Adjacent(e, u)|
    requires x == Adjacent(e, u)[i].0 && cost == s.dist[u] + Adjacent(e, u)[i].1
    requires x !in s.settled && x != start && cost < MAX && cost <= Budget(e, s.settled)
    ensures DistOk(e, start, Improve(s, u, x, cost))
  {
    var t := Improve(s, u, x, cost);
    forall v | v in t.prev ensures Linked(e, t, v, t.prev[v]) {
      if v != x { assert Linked(e, s, v, s.prev[v]); }
    }
  }

  lemma ImproveSettled(start: Node, s: Search, u: Node, x: Node, cost: nat)
    requires SettledOk(start, s) && u in s.dist && x !in s.settled && s.dist[u] <= cost
    requires s.settled != [] && u == s.settled[|s.settled| - 1]
    ensures SettledOk(start, Improve(s, u, x, cost))
  {
    var t := Improve(s, u, x, cost);
    forall i | 0 <= i < |t.settled| ensures After(t.prev, t.settled, i) {
      assert After(s.prev, s.settled, i);
    }
  }

  /** With all edges of u relaxed the search is where it was, one node further. */
  lemma ExpandedOk(e: Edges, start: Node, s: Search, u: Node)
    requires Expanding(e, start, s, u, |Adjacent(e, u)|)
    ensures Ok(e, start, s)
  {
  }

  // ---------------------------------------------------------------- termination

  lemma SettledIsNode(e: Edges, start: Node, s: Search, v: Node)
    requires DistOk(e, start, s) && v in s.dist
    ensures v in Nodes(e, start)
  {
    if v != start {
      var p := s.prev[v];
      assert Linked(e, s, v, p);
      EdgeInNodes(e, start, p, v, (s.dist[v] - s.dist[p]) as Weight);
    }
  }

  lemma SettledAreNodes(e: Edges, start: Node, s: Search)
    requires DistOk(e, start, s) && SettledOk(start, s)
    ensures |s.settled| <= |Nodes(e, start)|
  {
    forall i | 0 <= i < |s.settled| ensures s.settled[i] in Nodes(e, start) {
      assert s.settled[i] in s.settled;
      SettledIsNode(e, start, s, s.settled[i]);
    }
    DistinctInSet(s.settled, Nodes(e, start));
  }

  // ---------------------------------------------------------------- outcomes, and chains of predecessors

  datatype Outcome =
    | Found(cost: nat, path: seq<Node>)
    | NotFound
    | Overflow   // cost + weight does not fit: the addition panics

  /** That is less than u32::MAX, and going on along the i-th edge of u costs more than a u32 holds. */
  ghost predicate TooHeavy(e: Edges, start: Node, u: Node, c: nat, i: nat) {
    Distance(e, start, u, c) && c < MAX && i < |Adjacent(e, u)| && c + Adjacent(e, u)[i].1 > MAX
  }

  /** Such an edge starts at a node that is nearer than the goal by `margin`. */
  ghost predicate TooHeavyBefore(e: Edges, start: Node, goal: Node, margin: nat) {
    exists u, c: nat, i: nat :: TooHeavy(e, start, u, c, i) && AtLeast(e, start, goal, c + margin)
  }

  /** Such an edge starts at a node that is nearer than the goal, or as near with a lesser name. */
  ghost predicate TooHeavyByName(e: Edges, start: Node, goal: Node) {
    exists u, c: nat, i: nat :: TooHeavy(e, start, u, c, i) && FirstByName(e, start, goal, u, c)
  }

  ghost predicate FirstByName(e: Edges, start: Node, goal: Node, u: Node, c: nat) {
    AtLeast(e, start, goal, c + 1) || (AtLeast(e, start, goal, c) && Below(u.name, goal.name))
  }

  /** The position of a node in the order of settling; |settled| if it is not settled. */
  function Rank(settled: seq<Node>, v: Node): nat {
    if settled == [] then 0
    else
      var last := |settled| - 1;
      var i := Rank(settled[..last], v);
      if i < last || settled[last] == v then i else |settled|
  }

  lemma {:induction false} RankIs(settled: seq<Node>, v: Node)
    ensures var i := Rank(settled, v);
      && i <= |settled| && (i < |settled| <==> v in settled) && (i < |settled| ==> settled[i] == v)
      && forall j :: 0 <= j < i ==> settled[j] != v
  {
    if settled != [] { RankIs(settled[..|settled| - 1], v); }
  }

  /** A predecessor was settled before any node that was reached from it. */
  lemma PredecessorsRankLower(e: Edges, start: Node, s: Search, v: Node)
    requires DistOk(e, start, s) && SettledOk(start, s) && v in s.prev
    ensures Linked(e, s, v, s.prev[v]) && Rank(s.settled, s.prev[v]) < Rank(s.settled, v)
  {
    var i, p := Rank(s.settled, v), s.prev[v];
    RankIs(s.settled, v);
    RankIs(s.settled, p);
    assert Linked(e, s, v, p);
    if i < |s.settled| {
      assert After(s.prev, s.settled, i);
      var j :| 0 <= j < i && s.settled[..i][j] == p;
      assert s.settled[j] == p;
    }
  }

  /** Following predecessors leads back to the start along edges, always to a node settled earlier. */
  ghost predicate ChainsOk(e: Edges, start: Node, s: Search) {
    && start in s.dist && s.dist[start] == 0 && start !in s.prev
    && (forall v :: v in s.dist && v != start ==> v in s.prev)
    && (forall v {:trigger ChainLink(e, s, v, s.prev[v])} :: v in s.prev ==> ChainLink(e, s, v, s.prev[v]))
  }

  ghost predicate ChainLink(e: Edges, s: Search, v: Node, p: Node) {
    && v in s.dist && p in s.dist && 0 <= s.dist[v] - s.dist[p] <= MAX
    && (v, (s.dist[v] - s.dist[p]) as Weight) in Adjacent(e, p)
    && Rank(s.settled, p) < Rank(s.settled, v)
  }

  lemma ChainsFollow(e: Edges, start: Node, s: Search)
    requires DistOk(e, start, s) && SettledOk(start, s)
    ensures ChainsOk(e, start, s)
  {
    forall v | v in s.prev ensures ChainLink(e, s, v, s.prev[v]) {
      PredecessorsRankLower(e, start, s, v);
    }
  }

  /** One step back along the chain. */
  lemma ChainStep(e: Edges, start: Node, s: Search, v: Node) returns (p: Node, w: Weight)
    requires ChainsOk(e, start, s) && v in s.prev
    ensures p == s.prev[v] && p in s.dist && v in s.dist && s.dist[v] == s.dist[p] + w && (v, w) in Adjacent(e, p)
    ensures Rank(s.settled, p) < Rank(s.settled, v)
  {
    p := s.prev[v];
    assert ChainLink(e, s, v, p);
    w := s.dist[v] - s.dist[p];
  }

  /** The chain of predecessors of a node is a walk of its distance. */
  lemma {:induction false} DistanceIsWalk(e: Edges, start: Node, s: Search, v: Node) returns (path: seq<Node>)
    requires ChainsOk(e, start, s) && v in s.dist
    ensures Walk(e, start, path, v, s.dist[v])
    decreases Rank(s.settled, v)
  {
    if v == start {
      path := [start];
    } else {
      var p, w := ChainStep(e, start, s, v);
      path := DistanceIsWalk(e, start, s, p);
      WalkAppend(e, start, path, p, s.dist[p], v, w);
      path := path + [v];
    }
  }

  /** No walk to an unsettled node is cheaper than the nearest entry. */
  lemma UnsettledIsFar(e: Edges, start: Node, s: Search, x: (nat, Node), v: Node)
    requires Ok(e, start, s) && IsNearest(s.heap, x) && x.0 == s.dist[x.1] && x.1 !in s.settled && v !in s.settled
    ensures AtLeast(e, start, v, x.0)
  {
    NearestBounds(s, x);
    forall path, c: nat | Walk(e, start, path, v, c) ensures x.0 <= c {
      WalksAreLonger(e, start, s, x.0, path, v, c);
    }
  }

  lemma NearestBounds(s: Search, x: (nat, Node))
    requires HeapOk(s) && IsNearest(s.heap, x)
    ensures forall v :: v in s.dist && v !in s.settled ==> x.0 <= s.dist[v]
  {
    forall v | v in s.dist && v !in s.settled ensures x.0 <= s.dist[v] {
      assert (s.dist[v], v) in s.heap;
    }
  }

  /** The edges of the nodes nearer than all unsettled ones did fit. */
  lemma NearerEdgesFit(e: Edges, start: Node, s: Search, bound: nat, u: Node, path: seq<Node>, c: nat, i: nat)
    requires Ok(e, start, s) && (forall x :: x in s.dist && x !in s.settled ==> bound <= s.dist[x])
    requires Walk(e, start, path, u, c) && AtLeast(e, start, u, c) && c < MAX && c < bound && i < |Adjacent(e, u)|
    ensures c + Adjacent(e, u)[i].1 <= MAX
  {
    WalksAreLonger(e, start, s, bound, path, u, c);
    ChainsFollow(e, start, s);
    var shortest := DistanceIsWalk(e, start, s, u);
    assert EdgeOk(e, s, u, i);
  }

  lemma NoneTooHeavy(e: Edges, start: Node, s: Search, bound: nat, u: Node, c: nat, i: nat)
    requires Ok(e, start, s) && (forall x :: x in s.dist && x !in s.settled ==> bound <= s.dist[x])
    requires c < bound
    ensures !TooHeavy(e, start, u, c, i)
  {
    if AtLeast(e, start, u, c) && c < MAX && i < |Adjacent(e, u)| {
      forall path | Walk(e, start, path, u, c) ensures c + Adjacent(e, u)[i].1 <= MAX {
        NearerEdgesFit(e, start, s, bound, u, path, c, i);
      }
    }
  }

  lemma {:induction false} ReachableIsSettled(e: Edges, start: Node, s: Search, path: seq<Node>, v: Node, cost: nat)
    requires Ok(e, start, s) && |s.heap| == 0 && Budget(e, s.settled) < MAX && Walk(e, start, path, v, cost)
    ensures v in s.settled && v in s.dist
    decreases |path|
  {
    assert forall x :: x in s.dist ==> x in s.settled;
    if |path| > 1 {
      var w: Weight :| LastStep(e, start, path, v, cost, w);
      var u := path[|path| - 2];
      ReachableIsSettled(e, start, s, path[..|path| - 1], u, cost - w);
      var j :| 0 <= j < |Adjacent(e, u)| && Adjacent(e, u)[j] == (v, w);
      assert EdgeOk(e, s, u, j);
    }
  }

  /** With the heap empty, the goal can only be reached at u32::MAX or more, and then only by large weights. */
  lemma EmptyMeansFar(e: Edges, start: Node, s: Search, goal: Node)
    requires Ok(e, start, s) && |s.heap| == 0 && goal !in s.settled
    ensures AtLeast(e, start, goal, MAX)
    ensures Total(e) < MAX ==> !Reachable(e, start, goal)
  {
    BudgetInTotal(e, s.settled);
    assert forall x :: x in s.dist ==> x in s.settled;
    forall path, cost: nat | Walk(e, start, path, goal, cost) ensures cost >= MAX && Total(e) >= MAX {
      WalksAreLonger(e, start, s, MAX, path, goal, cost);
      if Total(e) < MAX { ReachableIsSettled(e, start, s, path, goal, cost); }
    }
  }

  /** An addition that overflows has used up that much weight. */
  lemma SumTooLarge(e: Edges, start: Node, s: Search, u: Node, i: nat)
    requires Expanding(e, start, s, u, i) && i < |Adjacent(e, u)| && s.dist[u] + Adjacent(e, u)[i].1 > MAX
    ensures Total(e) > MAX
  {
    WeightInSum(Adjacent(e, u), i);
    BudgetInTotal(e, s.settled);
  }
}
