/** Graphs in which nodes as far as the goal are joined by edges of weight zero: there the order of names does not
    tell which of them the search settles before it finds the goal. */
module Ties {
  import opened Walks
  import opened Entries
  import opened Searching
  import opened Levels
  import opened ShortestPath

  lemma UnseenBehindGoal(e: Edges, start: Node, goal: Node, b: Node, x: Node) returns (s: Search)
    requires start != goal && start != b && goal != b && Below(b.name, goal.name)
    requires Adjacent(e, start) == [(goal, 1)] && Adjacent(e, goal) == [(start, 1), (b, 0)]
    requires Adjacent(e, b) == [(goal, 0), (x, MAX)]
    ensures TooHeavyByName(e, start, goal) && !TooHeavyFirst(e, start, goal)
    ensures Reached(e, start, goal, s) && IsFirst(s.heap, (1, goal))
  {
    s := FirstRound(e, start, goal, goal, 1);
    WalkBehind(e, start, goal, b);
    ReachedIsOk(e, start, goal, s);
    UnsettledIsFar(e, start, s, (1, goal), b);
    UnsettledIsFar(e, start, s, (1, goal), goal);
    HeavyBehind(e, start, goal, b, x);
    FoundAllFit(e, start, goal, s, 1);
  }

  lemma WalkBehind(e: Edges, start: Node, goal: Node, b: Node)
    requires (goal, 1) in Adjacent(e, start) && (b, 0) in Adjacent(e, goal)
    ensures HasWalk(e, start, b, 1)
  {
    assert Walk(e, start, [start], start, 0);
    WalkAppend(e, start, [start], start, 0, goal, 1);
    WalkAppend(e, start, [start] + [goal], goal, 1, b, 0);
  }

  lemma HeavyBehind(e: Edges, start: Node, goal: Node, b: Node, x: Node)
    requires HasWalk(e, start, b, 1) && AtLeast(e, start, b, 1) && AtLeast(e, start, goal, 1)
    requires Adjacent(e, b) == [(goal, 0), (x, MAX)] && Below(b.name, goal.name)
    ensures TooHeavyByName(e, start, goal)
  {
    assert TooHeavy(e, start, b, 1, 1);
  }

  /** With an edge of weight zero a node before the goal may be out of sight until the goal is found: B is as far
      as G, comes before it, and has an edge that is too heavy, but only G leads to it. */
  lemma AHeavyEdgeUnseen() returns (e: Edges, s: Search)
    ensures e == WithEdge(WithEdge(WithEdge(map[], Node("S"), Node("G"), 1), Node("G"), Node("B"), 0),
                          Node("B"), Node("X"), MAX)
    ensures TooHeavyByName(e, Node("S"), Node("G")) && !TooHeavyFirst(e, Node("S"), Node("G"))
    ensures Reached(e, Node("S"), Node("G"), s) && IsFirst(s.heap, (1, Node("G")))
  {
    var start, goal, b, x := Node("S"), Node("G"), Node("B"), Node("X");
    e := WithEdge(WithEdge(WithEdge(map[], start, goal, 1), goal, b, 0), b, x, MAX);
    DifferentNames();
    assert Below("B", "G");
    s := UnseenBehindGoal(e, start, goal, b, x);
  }

  lemma DifferentNames()
    ensures Node("S") != Node("G") && Node("S") != Node("B") && Node("S") != Node("X") && Node("S") != Node("Z")
    ensures Node("G") != Node("B") && Node("G") != Node("X") && Node("G") != Node("Z")
    ensures Node("B") != Node("X") && Node("X") != Node("Z")
  {
    assert "S"[0] == 'S' && "G"[0] == 'G' && "B"[0] == 'B' && "X"[0] == 'X' && "Z"[0] == 'Z';
  }

  /** The search after its first round, when the start has a single edge. */
  lemma FirstRound(e: Edges, start: Node, goal: Node, v: Node, w: Weight) returns (s: Search)
    requires Adjacent(e, start) == [(v, w)] && v != start && goal != start && w < MAX
    ensures Reached(e, start, goal, s) && s.heap == multiset{(w, v)} && s.settled == [start]
    ensures v in s.dist && s.dist[v] == w && s.dist.Keys == {start, v}
  {
    s := Improve(Settle(Begin(start), (0, start)), start, v, w);
    var neighbours := Adjacent(e, start);
    assert neighbours[..0] == [];
    assert RelaxFirst(Settle(Begin(start), (0, start)), start, 0, neighbours) == Done(s);
    assert Round(e, goal, Begin(start), (0, start), s);
    ReachedFirst(e, start, goal);
    ReachedNext(e, start, goal, Begin(start), (0, start), s);
  }

  lemma StuckBeforeGoal(e: Edges, start: Node, goal: Node, z: Node, x: Node) returns (s: Search)
    requires start != goal && start != z && goal != z && x != start && x != goal && x != z
    requires !Below(z.name, goal.name)
    requires Adjacent(e, start) == [(z, 1)] && Adjacent(e, goal) == [(z, 0)]
    requires Adjacent(e, z) == [(start, 1), (goal, 0), (x, MAX)] && Adjacent(e, x) == [(z, MAX)]
    requires forall u :: u in e ==> u == start || u == goal || u == z || u == x
    ensures !TooHeavyByName(e, start, goal) && TooHeavyFirst(e, start, goal)
    ensures Reached(e, start, goal, s) && IsFirst(s.heap, (1, z))
    ensures RelaxFirst(Settle(s, (1, z)), z, 1, Adjacent(e, z)).TooLarge?
  {
    s := FirstRound(e, start, goal, z, 1);
    assert Walk(e, start, [start], start, 0);
    WalkAppend(e, start, [start], start, 0, z, 1);
    WalkAppend(e, start, [start] + [z], z, 1, goal, 0);
    forall u, c: nat, i: nat | TooHeavy(e, start, u, c, i) ensures u == z && c == 1 {
      HeavyIsStuck(e, start, goal, z, x, s, u, c, i);
    }
    ThirdEdgeIsTooLarge(Settle(s, (1, z)), z, start, goal, x, Adjacent(e, z));
    OverflowComesFirst(e, start, goal, s, (1, z));
  }

  lemma ThirdEdgeIsTooLarge(s: Search, z: Node, a: Node, b: Node, x: Node, neighbours: seq<(Node, Weight)>)
    requires neighbours == [(a, 1), (b, 0), (x, MAX)]
    ensures RelaxFirst(s, z, 1, neighbours).TooLarge?
  {
    assert neighbours[..2][..1] == neighbours[..1] && neighbours[..1][..0] == neighbours[..0];
    assert |neighbours[..0]| == 0 && neighbours[..3] == neighbours;
    assert neighbours[..3][..2] == neighbours[..2];
  }

  lemma LastEdge(e: Edges, start: Node, path: seq<Node>, v: Node, c: nat) returns (u: Node, w: Weight)
    requires Walk(e, start, path, v, c) && v != start
    ensures (v, w) in Adjacent(e, u) && w <= c
  {
    assert path[0] != path[|path| - 1];
    u := path[|path| - 2];
    w :| LastStep(e, start, path, v, c, w);
  }

  lemma FarBehind(e: Edges, start: Node, goal: Node, z: Node, x: Node, path: seq<Node>, c: nat)
    requires x != start && x != goal && x != z && Walk(e, start, path, x, c)
    requires Adjacent(e, start) == [(z, 1)] && Adjacent(e, goal) == [(z, 0)]
    requires Adjacent(e, z) == [(start, 1), (goal, 0), (x, MAX)] && Adjacent(e, x) == [(z, MAX)]
    requires forall u :: u in e ==> u == start || u == goal || u == z || u == x
    ensures c >= MAX
  {
    var u, w := LastEdge(e, start, path, x, c);
    assert u in e;
  }

  lemma HeavyIsStuck(e: Edges, start: Node, goal: Node, z: Node, x: Node, s: Search, u: Node, c: nat, i: nat)
    requires start != z && goal != z && x != start && x != goal && x != z
    requires Adjacent(e, start) == [(z, 1)] && Adjacent(e, goal) == [(z, 0)]
    requires Adjacent(e, z) == [(start, 1), (goal, 0), (x, MAX)] && Adjacent(e, x) == [(z, MAX)]
    requires forall u :: u in e ==> u == start || u == goal || u == z || u == x
    requires TooHeavy(e, start, u, c, i) && Walk(e, start, [start] + [z], z, 1)
    requires Reached(e, start, goal, s) && IsFirst(s.heap, (1, z)) && z in s.dist && s.dist[z] == 1 && z !in s.settled
    ensures u == z && c == 1
  {
    var path :| Walk(e, start, path, u, c);
    if u == x { FarBehind(e, start, goal, z, x, path, c); }
    if u == z {
      ReachedIsOk(e, start, goal, s);
      UnsettledIsFar(e, start, s, (1, z), z);
    }
  }

  /** And an overflow may come before the goal is in sight: G is as far as Z and comes before it, but only Z leads
      to it. */
  lemma AnOverflowBeforeTheGoal() returns (e: Edges, s: Search)
    ensures e == WithEdge(WithEdge(WithEdge(map[], Node("S"), Node("Z"), 1), Node("Z"), Node("G"), 0),
                          Node("Z"), Node("X"), MAX)
    ensures !TooHeavyByName(e, Node("S"), Node("G")) && TooHeavyFirst(e, Node("S"), Node("G"))
    ensures Reached(e, Node("S"), Node("G"), s) && IsFirst(s.heap, (1, Node("Z")))
    ensures RelaxFirst(Settle(s, (1, Node("Z"))), Node("Z"), 1, Adjacent(e, Node("Z"))).TooLarge?
  {
    var start, goal, z, x := Node("S"), Node("G"), Node("Z"), Node("X");
    e := WithEdge(WithEdge(WithEdge(map[], start, z, 1), z, goal, 0), z, x, MAX);
    DifferentNames();
    assert !Below("Z", "G");
    s := StuckBeforeGoal(e, start, goal, z, x);
  }
}
