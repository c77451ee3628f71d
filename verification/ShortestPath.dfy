/** Dijkstra's algorithm with lazy deletion, as in the Rust demo (demos/rust/src/main.rs): whole searches, what they
    find, and the program. */
module ShortestPath {
  import opened Walks
  import opened Entries
  import opened Searching
  import opened Keys
  import opened Levels

  // ---------------------------------------------------------------- whole searches

  /** The search after an attempt to relax edges; TooLarge when a sum of costs does not fit. */
  datatype Attempt = TooLarge | Done(search: Search)

  /** Relaxing one edge of u; TooLarge when the sum of costs does not fit. */
  function RelaxEdge(s: Search, u: Node, cost: nat, edge: (Node, Weight)): Attempt {
    var nextCost := cost + edge.1;
    if nextCost > MAX then TooLarge
    else Done(Relaxed(s, u, edge.0, nextCost))
  }

  function Relaxed(s: Search, u: Node, x: Node, cost: nat): Search {
    if cost < DistanceOf(s.dist, x) then Improve(s, u, x, cost) else s
  }

  function RelaxFirst(s: Search, u: Node, cost: nat, neighbours: seq<(Node, Weight)>): Attempt {
    if neighbours == [] then Done(s)
    else
      match RelaxFirst(s, u, cost, neighbours[..|neighbours| - 1])
      case TooLarge => TooLarge
      case Done(t) => RelaxEdge(t, u, cost, neighbours[|neighbours| - 1])
  }

  lemma {:induction false} RelaxFirstStuck(s: Search, u: Node, cost: nat, neighbours: seq<(Node, Weight)>, i: nat)
    requires i <= |neighbours| && RelaxFirst(s, u, cost, neighbours[..i]) == TooLarge
    ensures RelaxFirst(s, u, cost, neighbours) == TooLarge
  {
    if i < |neighbours| {
      var init := neighbours[..|neighbours| - 1];
      assert init[..i] == neighbours[..i];
      RelaxFirstStuck(s, u, cost, init, i);
    } else {
      assert neighbours[..i] == neighbours;
    }
  }

  /** With the first i edges relaxed, the next one leads to a sum that does not fit, to an improvement or nowhere. */
  lemma RelaxFirstNext(s: Search, u: Node, cost: nat, neighbours: seq<(Node, Weight)>, i: nat, t: Search)
    requires i < |neighbours| && RelaxFirst(s, u, cost, neighbours[..i]) == Done(t)
    ensures cost + neighbours[i].1 > MAX ==> RelaxFirst(s, u, cost, neighbours) == TooLarge
    ensures cost + neighbours[i].1 <= MAX ==>
              RelaxFirst(s, u, cost, neighbours[..i + 1]) ==
              Done(Relaxed(t, u, neighbours[i].0, cost + neighbours[i].1))
  {
    assert neighbours[..i + 1][..i] == neighbours[..i];
    if cost + neighbours[i].1 > MAX { RelaxFirstStuck(s, u, cost, neighbours, i + 1); }
  }

  ghost predicate HasHeavyEdge(e: Edges, u: Node, cost: nat) {
    exists i :: 0 <= i < |Adjacent(e, u)| && cost + Adjacent(e, u)[i].1 > MAX
  }

  /** Relaxing the edges of u one by one keeps the invariant, or finds a walk that is too long. */
  lemma {:induction false} RelaxFirstKeeps(e: Edges, start: Node, s: Search, u: Node, i: nat)
    requires Expanding(e, start, s, u, 0) && i <= |Adjacent(e, u)|
    ensures var r := RelaxFirst(s, u, s.dist[u], Adjacent(e, u)[..i]);
      if r.TooLarge? then HasHeavyEdge(e, u, s.dist[u]) && Total(e) > MAX
      else Expanding(e, start, r.search, u, i) && r.search.settled == s.settled && r.search.dist[u] == s.dist[u]
  {
    if i > 0 {
      RelaxFirstKeeps(e, start, s, u, i - 1);
      var edges := Adjacent(e, u);
      assert edges[..i][..i - 1] == edges[..i - 1];
      var r := RelaxFirst(s, u, s.dist[u], edges[..i - 1]);
      if r.Done? {
        RelaxEdgeFrame(r.search, u, edges[i - 1]);
        var next := RelaxEdge(r.search, u, s.dist[u], edges[i - 1]);
        if next.Done? { RelaxEdgeKeeps(e, start, r.search, u, i - 1, next.search); }
        else { SumTooLarge(e, start, r.search, u, i - 1); }
      }
    }
  }

  lemma RelaxEdgeKeeps(e: Edges, start: Node, s: Search, u: Node, i: nat, t: Search)
    requires Expanding(e, start, s, u, i) && i < |Adjacent(e, u)|
    requires RelaxEdge(s, u, s.dist[u], Adjacent(e, u)[i]) == Done(t)
    ensures Expanding(e, start, t, u, i + 1)
  {
    var x, cost := Adjacent(e, u)[i].0, s.dist[u] + Adjacent(e, u)[i].1;
    if t == s {
      RelaxSame(s, u, s.dist[u], Adjacent(e, u)[i]);
      RelaxSkip(e, start, s, u, i);
    } else {
      RelaxOther(s, u, s.dist[u], Adjacent(e, u)[i], t);
      RelaxImproves(e, start, s, u, i, x, cost);
    }
  }

  lemma RelaxSame(s: Search, u: Node, cost: nat, edge: (Node, Weight))
    requires RelaxEdge(s, u, cost, edge) == Done(s)
    ensures MAX >= cost + edge.1 >= DistanceOf(s.dist, edge.0)
  {
    assert RelaxEdge(s, u, cost, edge).search.dist == s.dist;
  }

  lemma RelaxOther(s: Search, u: Node, cost: nat, edge: (Node, Weight), t: Search)
    requires RelaxEdge(s, u, cost, edge) == Done(t) && t != s
    ensures cost + edge.1 < DistanceOf(s.dist, edge.0) && t == Improve(s, u, edge.0, cost + edge.1)
  {
  }

  /** Relaxing an edge of u settles nothing and leaves the distance of u alone. */
  lemma RelaxEdgeFrame(s: Search, u: Node, edge: (Node, Weight))
    requires u in s.dist
    ensures var t := RelaxEdge(s, u, s.dist[u], edge);
      t.Done? ==> t.search.settled == s.settled && u in t.search.dist && t.search.dist[u] == s.dist[u]
  {
  }

  /** One round of the search: the nearest entry x, which is not the goal's, is dropped or its node settled. */
  ghost predicate Round(e: Edges, goal: Node, s: Search, x: (nat, Node), t: Search) {
    && IsFirst(s.heap, x) && x.1 != goal
    && if x.0 > DistanceOf(s.dist, x.1) then t == s.(heap := s.heap - multiset{x})
       else RelaxFirst(Settle(s, x), x.1, x.0, Adjacent(e, x.1)) == Done(t)
  }

  /** The states of a search, round by round. */
  ghost predicate Rounds(e: Edges, start: Node, goal: Node, states: seq<Search>) {
    && |states| > 0 && states[0] == Begin(start)
    && forall i {:trigger RoundAt(e, goal, states, i)} :: 0 <= i < |states| - 1 ==> RoundAt(e, goal, states, i)
  }

  ghost predicate RoundAt(e: Edges, goal: Node, states: seq<Search>, i: nat)
    requires i + 1 < |states|
  {
    Advances(e, goal, states[i], states[i + 1])
  }

  ghost predicate Advances(e: Edges, goal: Node, s: Search, t: Search) {
    exists x :: Round(e, goal, s, x, t)
  }

  /** Some search gets to s. */
  ghost predicate Reached(e: Edges, start: Node, goal: Node, s: Search) {
    exists states :: Rounds(e, start, goal, states) && states[|states| - 1] == s
  }

  lemma ReachedFirst(e: Edges, start: Node, goal: Node)
    ensures Reached(e, start, goal, Begin(start))
  {
    assert Rounds(e, start, goal, [Begin(start)]);
  }

  lemma ReachedNext(e: Edges, start: Node, goal: Node, s: Search, x: (nat, Node), t: Search)
    requires Reached(e, start, goal, s) && Round(e, goal, s, x, t)
    ensures Reached(e, start, goal, t)
  {
    var states :| Rounds(e, start, goal, states) && states[|states| - 1] == s;
    var more := states + [t];
    forall i | 0 <= i < |more| - 1 ensures RoundAt(e, goal, more, i) {
      if i < |states| - 1 { assert RoundAt(e, goal, states, i); }
      else { assert Round(e, goal, more[i], x, more[i + 1]); }
    }
    assert Rounds(e, start, goal, more);
  }

  lemma {:induction false} RoundsAreOk(e: Edges, start: Node, goal: Node, states: seq<Search>, i: nat)
    requires Rounds(e, start, goal, states) && i < |states|
    ensures Ok(e, start, states[i]) && goal !in states[i].settled && InOrder(e, start, states[i])
  {
    if i == 0 {
      BeginOk(e, start);
      LevelStarts(e, start, Begin(start), 0);
    } else {
      RoundsAreOk(e, start, goal, states, i - 1);
      assert RoundAt(e, goal, states, i - 1);
      var x :| Round(e, goal, states[i - 1], x, states[i]);
      RoundKeeps(e, start, goal, states[i - 1], x, states[i]);
      RoundKeepsOrder(e, start, goal, states[i - 1], x, states[i]);
    }
  }

  /** Every state a search can get to satisfies the invariant. */
  lemma ReachedIsOk(e: Edges, start: Node, goal: Node, s: Search)
    requires Reached(e, start, goal, s)
    ensures Ok(e, start, s) && goal !in s.settled && InOrder(e, start, s)
  {
    var states :| Rounds(e, start, goal, states) && states[|states| - 1] == s;
    RoundsAreOk(e, start, goal, states, |states| - 1);
  }

  lemma RoundKeeps(e: Edges, start: Node, goal: Node, s: Search, x: (nat, Node), t: Search)
    requires Ok(e, start, s) && goal !in s.settled && Round(e, goal, s, x, t)
    ensures Ok(e, start, t) && goal !in t.settled
  {
    NearestHasDistance(e, start, s, x);
    FirstIsNearest(s.heap, x);
    if x.0 > s.dist[x.1] {
      DropStale(e, start, s, x);
    } else {
      RoundSettles(e, start, s, x, t);
    }
  }

  lemma RoundKeepsOrder(e: Edges, start: Node, goal: Node, s: Search, x: (nat, Node), t: Search)
    requires Ok(e, start, s) && InOrder(e, start, s) && Round(e, goal, s, x, t)
    ensures InOrder(e, start, t)
  {
    NearestHasDistance(e, start, s, x);
    if x.0 > s.dist[x.1] {
      var keys, top :| LevelOk(e, start, s.settled, Radius(s), keys, top);
      assert LevelOk(e, start, t.settled, Radius(t), keys, top);
    } else {
      FirstIsNext(e, start, s, x);
      FirstIsNearest(s.heap, x);
      RoundSettles(e, start, s, x, t);
      SettlingKeepsOrder(e, start, s, x, t);
    }
  }

  lemma FirstIsNext(e: Edges, start: Node, s: Search, x: (nat, Node))
    requires Ok(e, start, s) && IsFirst(s.heap, x) && x.0 <= DistanceOf(s.dist, x.1)
    ensures IsNext(e, start, s, x)
  {
    NearestHasDistance(e, start, s, x);
  }

  lemma NearestHasDistance(e: Edges, start: Node, s: Search, x: (nat, Node))
    requires Ok(e, start, s) && x in s.heap
    ensures x.1 in s.dist && s.dist[x.1] <= x.0
  {
  }

  lemma RoundSettles(e: Edges, start: Node, s: Search, x: (nat, Node), t: Search)
    requires Ok(e, start, s) && IsNearest(s.heap, x) && x.0 == s.dist[x.1]
    requires RelaxFirst(Settle(s, x), x.1, x.0, Adjacent(e, x.1)) == Done(t)
    ensures Ok(e, start, t) && t.settled == s.settled + [x.1] && Radius(t) == x.0
  {
    SettleNearest(e, start, s, x);
    RelaxAllKeeps(e, start, Settle(s, x), x.1, t);
  }

  lemma RelaxAllKeeps(e: Edges, start: Node, s: Search, u: Node, t: Search)
    requires Expanding(e, start, s, u, 0) && RelaxFirst(s, u, s.dist[u], Adjacent(e, u)) == Done(t)
    ensures Ok(e, start, t) && t.settled == s.settled && u in t.dist && t.dist[u] == s.dist[u]
  {
    RelaxFirstKeeps(e, start, s, u, |Adjacent(e, u)|);
    assert Adjacent(e, u)[..|Adjacent(e, u)|] == Adjacent(e, u);
    ExpandedOk(e, start, t, u);
  }

  /** When the first entry is the goal's, it holds the goal's distance, no walk to the goal is shorter, and the
      predecessors lead back to the start. */
  lemma FoundIsShortest(e: Edges, start: Node, goal: Node, s: Search, cost: nat)
    requires Reached(e, start, goal, s) && IsFirst(s.heap, (cost, goal))
    ensures goal in s.dist && cost == s.dist[goal] < MAX && ChainsOk(e, start, s)
    ensures Distance(e, start, goal, cost)
  {
    ReachedIsOk(e, start, goal, s);
    FirstIsNearest(s.heap, (cost, goal));
    NearestHasDistance(e, start, s, (cost, goal));
    NearestBounds(s, (cost, goal));
    assert s.dist[goal] == cost;
    UnsettledIsFar(e, start, s, (cost, goal), goal);
    ChainsFollow(e, start, s);
    var path := DistanceIsWalk(e, start, s, goal);
  }

  /** And no cost was too large on the way. */
  lemma FoundAllFit(e: Edges, start: Node, goal: Node, s: Search, cost: nat)
    requires Reached(e, start, goal, s) && IsFirst(s.heap, (cost, goal))
    ensures !TooHeavyFirst(e, start, goal)
  {
    ReachedIsOk(e, start, goal, s);
    FoundIsShortest(e, start, goal, s, cost);
    FirstIsNearest(s.heap, (cost, goal));
    NearestBounds(s, (cost, goal));
    forall u, c: nat, i: nat | Precedes(e, start, goal, u, c) ensures !TooHeavy(e, start, u, c, i) {
      if c < cost { NoneTooHeavy(e, start, s, cost, u, c, i); }
      else { TieFits(e, start, goal, s, u, c, i); }
    }
  }

  lemma TieFits(e: Edges, start: Node, goal: Node, s: Search, u: Node, c: nat, i: nat)
    requires Ok(e, start, s) && InOrder(e, start, s) && IsFirst(s.heap, (c, goal)) && Precedes(e, start, goal, u, c)
    requires goal in s.dist && s.dist[goal] == c && goal !in s.settled
    ensures !TooHeavy(e, start, u, c, i)
  {
    if TooHeavy(e, start, u, c, i) {
      if u in s.settled { SettledFits(e, start, s, u, c, i); }
      else { NonePrecedes(e, start, s, goal, u, c); }
    }
  }

  lemma SettledFits(e: Edges, start: Node, s: Search, u: Node, c: nat, i: nat)
    requires Ok(e, start, s) && u in s.settled && AtLeast(e, start, u, c) && i < |Adjacent(e, u)|
    ensures c + Adjacent(e, u)[i].1 <= MAX
  {
    ChainsFollow(e, start, s);
    var path := DistanceIsWalk(e, start, s, u);
    assert EdgeOk(e, s, u, i);
  }

  /** When the heap runs empty, the goal can only be reached at u32::MAX or more, and then only by large weights. */
  lemma NotFoundMeansFar(e: Edges, start: Node, goal: Node, s: Search)
    requires Reached(e, start, goal, s) && |s.heap| == 0
    ensures AtLeast(e, start, goal, MAX)
    ensures !TooHeavyFirst(e, start, goal)
    ensures Total(e) < MAX ==> !Reachable(e, start, goal)
  {
    ReachedIsOk(e, start, goal, s);
    EmptyMeansFar(e, start, s, goal);
    forall u, c: nat, i: nat ensures !TooHeavy(e, start, u, c, i) {
      if c < MAX { NoneTooHeavy(e, start, s, MAX, u, c, i); }
    }
  }

  /** When a sum of costs does not fit, it is that of a cheapest walk, to a node no farther than the goal. */
  lemma OverflowMeansTooHeavy(e: Edges, start: Node, goal: Node, s: Search, x: (nat, Node)) returns (i: nat)
    requires Reached(e, start, goal, s) && IsFirst(s.heap, x) && x.0 <= DistanceOf(s.dist, x.1)
    requires RelaxFirst(Settle(s, x), x.1, x.0, Adjacent(e, x.1)).TooLarge?
    ensures TooHeavy(e, start, x.1, x.0, i) && AtLeast(e, start, goal, x.0) && Total(e) > MAX
  {
    var u := x.1;
    ReachedIsOk(e, start, goal, s);
    FirstIsNearest(s.heap, x);
    NearestHasDistance(e, start, s, x);
    SettleNearest(e, start, s, x);
    RelaxFirstKeeps(e, start, Settle(s, x), u, |Adjacent(e, u)|);
    assert Adjacent(e, u)[..|Adjacent(e, u)|] == Adjacent(e, u);
    UnsettledIsFar(e, start, s, x, u);
    UnsettledIsFar(e, start, s, x, goal);
    ChainsFollow(e, start, s);
    var path := DistanceIsWalk(e, start, s, u);
    i :| 0 <= i < |Adjacent(e, u)| && x.0 + Adjacent(e, u)[i].1 > MAX;
  }

  /** And that node comes before the goal. */
  lemma OverflowComesFirst(e: Edges, start: Node, goal: Node, s: Search, x: (nat, Node))
    requires Reached(e, start, goal, s) && IsFirst(s.heap, x) && x.0 <= DistanceOf(s.dist, x.1) && x.1 != goal
    requires RelaxFirst(Settle(s, x), x.1, x.0, Adjacent(e, x.1)).TooLarge?
    ensures TooHeavyFirst(e, start, goal) && Total(e) > MAX
  {
    var i := OverflowMeansTooHeavy(e, start, goal, s, x);
    ReachedIsOk(e, start, goal, s);
    FirstIsNext(e, start, s, x);
    FirstPrecedes(e, start, s, x, goal);
  }

  /** No search settles more nodes than there are. */
  lemma SettledBound(e: Edges, start: Node, goal: Node, s: Search)
    requires Reached(e, start, goal, s)
    ensures |s.settled| <= |Nodes(e, start)|
  {
    ReachedIsOk(e, start, goal, s);
    SettledAreNodes(e, start, s);
  }

  /** A node at the end of a single edge of weight u32::MAX is reachable, yet the search ends without it. */
  lemma AHiddenNode() returns (e: Edges, s: Search)
    ensures e == WithEdge(map[], Node("A"), Node("B"), 4294967295) && Reachable(e, Node("A"), Node("B"))
    ensures Reached(e, Node("A"), Node("B"), s) && |s.heap| == 0
  {
    var a, b := Node("A"), Node("B");
    e := WithEdge(map[], a, b, MAX);
    assert a.name[0] != b.name[0];
    assert Adjacent(e, a) == [(b, MAX)];
    assert Walk(e, a, [a], a, 0);
    WalkAppend(e, a, [a], a, 0, b, MAX);
    s := Settle(Begin(a), (0, a));
    var neighbours := Adjacent(e, a);
    assert RelaxFirst(s, a, 0, neighbours[..0]) == Done(s);
    assert Round(e, b, Begin(a), (0, a), s);
    ReachedFirst(e, a, b);
    ReachedNext(e, a, b, Begin(a), (0, a), s);
  }

  class Graph {
    var edges: Edges

    constructor ()
      ensures edges == map[]
    {
      edges := map[];
    }

    /** `edges.entry(node).or_default().push(edge)` */
    method Push(node: Node, edge: (Node, Weight))
      modifies this
      ensures edges == WithPush(old(edges), node, edge)
    {
      edges := edges[node := (if node in edges then edges[node] else []) + [edge]];
    }

    method AddEdge(from: Node, to: Node, weight: Weight)
      modifies this
      ensures edges == WithEdge(old(edges), from, to, weight)
      ensures Undirected(old(edges)) ==> Undirected(edges)
      ensures Total(edges) == Total(old(edges)) + 2 * weight
    {
      WithEdgeAddsBoth(edges, from, to, weight);
      Push(from, (to, weight));
      Push(to, (from, weight));
    }

    /** The path reconstruction: follow the predecessors back from the goal, then reverse. */
    method Reconstruct(prev: map<Node, Node>, goal: Node, ghost start: Node, ghost s: Search) returns (path: seq<Node>)
      requires ChainsOk(edges, start, s) && goal in s.dist && prev == s.prev
      ensures Walk(edges, start, path, goal, s.dist[goal])
    {
      path := [goal];
      var current := goal;
      assert Reversed(path) == [goal];
      while current in prev
        invariant current in s.dist && s.dist[current] <= s.dist[goal]
        invariant Walk(edges, current, Reversed(path), goal, s.dist[goal] - s.dist[current])
        decreases Rank(s.settled, current)
      {
        var p := prev[current];
        ghost var q, w := ChainStep(edges, start, s, current);
        ReversedWalk(edges, p, w, current, path, goal, s.dist[goal] - s.dist[current]);
        path := path + [p];
        current := p;
      }
      path := Reversed(path);
    }

    /** The relaxation loop, for a node just settled: all its edges in turn, unless a sum of costs does not fit. */
    method Relax(node: Node, cost: nat, dist0: map<Node, nat>, prev0: map<Node, Node>, heap0: multiset<(nat, Node)>,
                 ghost settled: seq<Node>)
      returns (dist: map<Node, nat>, prev: map<Node, Node>, heap: multiset<(nat, Node)>, overflow: bool)
      ensures RelaxFirst(Search(dist0, prev0, heap0, settled), node, cost, Adjacent(edges, node)) ==
              if overflow then TooLarge else Done(Search(dist, prev, heap, settled))
    {
      dist, prev, heap, overflow := dist0, prev0, heap0, false;
      var neighbors := Adjacent(edges, node);
      ghost var s := Search(dist0, prev0, heap0, settled);
      assert neighbors[..0] == [];
      for i := 0 to |neighbors|
        invariant RelaxFirst(s, node, cost, neighbors[..i]) == Done(Search(dist, prev, heap, settled))
      {
        var (next, weight) := neighbors[i];
        RelaxFirstNext(s, node, cost, neighbors, i, Search(dist, prev, heap, settled));
        var nextCost := cost + weight;
        ghost var relaxed := Relaxed(Search(dist, prev, heap, settled), node, next, nextCost);
        if nextCost > MAX {
          overflow := true;
          return;
        }
        if nextCost < DistanceOf(dist, next) {
          dist := dist[next := nextCost];
          prev := prev[next := node];
          heap := heap + multiset{(nextCost, next)};
        }
        assert Search(dist, prev, heap, settled) == relaxed;
      }
      assert neighbors[..|neighbors|] == neighbors;
    }

    method ShortestPath(start: Node, goal: Node) returns (r: Outcome)
      // A path that is found is a walk of that cost, and no walk is cheaper.
      ensures r.Found? ==> r.cost < MAX && Walk(edges, start, r.path, goal, r.cost)
      ensures r.Found? ==> AtLeast(edges, start, goal, r.cost)
      // If none is found, there is none, or only such as cost u32::MAX or more.
      ensures r.NotFound? ==> AtLeast(edges, start, goal, MAX)
      // An addition overflows exactly if an edge is too heavy at a node that comes before the goal.
      ensures r.Overflow? <==> TooHeavyFirst(edges, start, goal)
      // With weights that add up to less than u32::MAX a path is found exactly if there is one.
      ensures Total(edges) < MAX ==> !r.Overflow? && (r.Found? <==> Reachable(edges, start, goal))
    {
      var dist: map<Node, nat>, prev: map<Node, Node> := map[start := 0], map[];
      var heap: multiset<(nat, Node)> := multiset{(0, start)};
      ghost var settled: seq<Node> := [];
      ReachedFirst(edges, start, goal);
      while |heap| > 0
        invariant Reached(edges, start, goal, Search(dist, prev, heap, settled))
        decreases |Nodes(edges, start)| - |settled|, |heap|
      {
        ghost var s := Search(dist, prev, heap, settled);
        SomeFirst(heap);
        ghost var first :| IsFirst(heap, first);
        assert IsFirst(heap, (first.0, first.1));
        var cost: nat, node: Node :| (cost, node) in heap && IsFirst(heap, (cost, node));
        heap := heap - multiset{(cost, node)};
        if node == goal {
          FoundIsShortest(edges, start, goal, s, cost);
          FoundAllFit(edges, start, goal, s, cost);
          var path := Reconstruct(prev, goal, start, s);
          return Found(cost, path);
        }
        if cost > DistanceOf(dist, node) {
          ReachedNext(edges, start, goal, s, (cost, node), Search(dist, prev, heap, settled));
          continue;
        }
        var overflow;
        dist, prev, heap, overflow := Relax(node, cost, dist, prev, heap, settled + [node]);
        if overflow {
          OverflowComesFirst(edges, start, goal, s, (cost, node));
          return Overflow;
        }
        settled := settled + [node];
        ReachedNext(edges, start, goal, s, (cost, node), Search(dist, prev, heap, settled));
        SettledBound(edges, start, goal, Search(dist, prev, heap, settled));
      }
      NotFoundMeansFar(edges, start, goal, Search(dist, prev, heap, settled));
      return NotFound;
    }
  }
}
