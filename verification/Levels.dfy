/** The search settles nodes of the same distance in the order of their least keys. */
module Levels {
  import opened Walks
  import opened Entries
  import opened Searching
  import opened Keys

  // ---------------------------------------------------------------- the invariant

  /** keys[v] is the least key of any walk to v, a settled node as far as c. */
  ghost predicate KeyIsLeast(e: Edges, start: Node, v: Node, c: nat, keys: map<Node, Key>) {
    && v in keys && HasKey(e, start, v, c, keys[v])
    && forall k :: HasKey(e, start, v, c, k) ==> AtMost(keys[v], k)
  }

  /** The settled nodes as far as c have these keys, none greater than `top`. */
  ghost predicate KeysOk(e: Edges, start: Node, settled: seq<Node>, c: nat, keys: map<Node, Key>, top: Key) {
    forall v :: v in settled && Distance(e, start, v, c) ==>
      KeyIsLeast(e, start, v, c, keys) && AtMost(keys[v], top)
  }

  /** Going on to an unsettled node gives the same key from all settled nodes that lead to it for nothing. */
  ghost predicate EdgesAgree(e: Edges, start: Node, settled: seq<Node>, c: nat, keys: map<Node, Key>, top: Key) {
    forall p, f :: p in settled && Distance(e, start, p, c) && p in keys && f !in settled && HasEdge(e, p, f, 0) ==>
      Extend(keys[p], f.name) == Extend(top, f.name)
  }

  /** f is reached at cost c by an edge of positive weight, or is where walks start. */
  ghost predicate Enters(e: Edges, start: Node, f: Node, c: nat) {
    || (f == start && c == 0)
    || (exists u, w: Weight :: EntersBy(e, start, f, c, u, w))
  }

  ghost predicate EntersBy(e: Edges, start: Node, f: Node, c: nat, u: Node, w: Weight) {
    0 < w <= c && HasEdge(e, u, f, w) && HasWalk(e, start, u, c - w)
  }

  ghost predicate HasWalk(e: Edges, start: Node, u: Node, c: nat) {
    exists path :: Walk(e, start, path, u, c)
  }

  ghost predicate EntriesAgree(e: Edges, start: Node, settled: seq<Node>, c: nat, top: Key) {
    forall f :: f !in settled && Enters(e, start, f, c) ==> Extend(top, f.name) == [f.name]
  }

  /** The nodes settled so far at distance c came in the order of their least keys, the last of which is `top`. */
  ghost predicate LevelOk(e: Edges, start: Node, settled: seq<Node>, c: nat, keys: map<Node, Key>, top: Key) {
    && KeysOk(e, start, settled, c, keys, top)
    && EdgesAgree(e, start, settled, c, keys, top)
    && EntriesAgree(e, start, settled, c, top)
    && forall n :: n in top ==> Node(n) in settled
  }

  // ---------------------------------------------------------------- the nodes that can be next

  /** x is the first entry and up to date; it settles its node at distance x.0. */
  ghost predicate IsNext(e: Edges, start: Node, s: Search, x: (nat, Node)) {
    Ok(e, start, s) && IsFirst(s.heap, x) && x.1 in s.dist && x.0 == s.dist[x.1] && x.1 !in s.settled
  }

  /** An unsettled node known to be as far as the first entry is that entry's node, or comes after it. */
  lemma KnownIsLater(e: Edges, start: Node, s: Search, x: (nat, Node), f: Node)
    requires IsNext(e, start, s, x) && f in s.dist && f !in s.settled && s.dist[f] <= x.0
    ensures f == x.1 || Below(x.1.name, f.name)
  {
    assert (s.dist[f], f) in s.heap;
  }

  /** An edge from a settled node leads to a node that is settled or known. */
  lemma SettledLeads(e: Edges, start: Node, s: Search, x: (nat, Node), p: Node, f: Node, w: Weight)
    requires IsNext(e, start, s, x) && p in s.settled && p in s.dist && s.dist[p] + w <= x.0 && HasEdge(e, p, f, w)
    requires f !in s.settled
    ensures f == x.1 || Below(x.1.name, f.name)
  {
    var j :| 0 <= j < |Adjacent(e, p)| && Adjacent(e, p)[j] == (f, w);
    assert EdgeOk(e, s, p, j);
    KnownIsLater(e, start, s, x, f);
  }

  lemma WalkOfSettled(e: Edges, start: Node, s: Search, x: (nat, Node), path: seq<Node>, u: Node, c: nat)
    requires IsNext(e, start, s, x) && Walk(e, start, path, u, c) && (c < x.0 || (c == x.0 && u in s.settled))
    ensures u in s.settled && u in s.dist && s.dist[u] <= c
  {
    FirstIsNearest(s.heap, x);
    NearestBounds(s, x);
    WalksAreLonger(e, start, s, x.0, path, u, c);
  }

  lemma EntryIsLater(e: Edges, start: Node, s: Search, x: (nat, Node), f: Node)
    requires IsNext(e, start, s, x) && f !in s.settled && Enters(e, start, f, x.0)
    ensures f == x.1 || Below(x.1.name, f.name)
  {
    if f == start && x.0 == 0 {
      KnownIsLater(e, start, s, x, f);
    } else {
      var u, w: Weight :| EntersBy(e, start, f, x.0, u, w);
      var path :| Walk(e, start, path, u, x.0 - w);
      WalkOfSettled(e, start, s, x, path, u, x.0 - w);
      SettledLeads(e, start, s, x, u, f, w);
    }
  }

  lemma ZeroEdgeIsLater(e: Edges, start: Node, s: Search, x: (nat, Node), p: Node, f: Node)
    requires IsNext(e, start, s, x) && p in s.settled && Distance(e, start, p, x.0) && HasEdge(e, p, f, 0)
    requires f !in s.settled
    ensures f == x.1 || Below(x.1.name, f.name)
  {
    var path :| Walk(e, start, path, p, x.0);
    WalkOfSettled(e, start, s, x, path, p, x.0);
    SettledLeads(e, start, s, x, p, f, 0);
  }

  // ---------------------------------------------------------------- the next key is the least

  lemma NewName(settled: seq<Node>, top: Key, v: Node)
    requires v !in settled && forall n :: n in top ==> Node(n) in settled
    ensures v.name !in top
  {
    assert Node(v.name) == v;
  }

  /** Going on to a later node from `top` does not give a lesser key than going on to y. */
  lemma LaterIsNotLess(settled: seq<Node>, top: Key, y: Node, v: Node)
    requires forall n :: n in top ==> Node(n) in settled
    requires v !in settled && (v == y || Below(y.name, v.name))
    ensures AtMost(Extend(top, y.name), Extend(top, v.name))
  {
    if v != y {
      NewName(settled, top, v);
      ExtendFollowsNames(top, y.name, v.name);
    }
  }

  /** Going on to another unsettled node makes that key greater. */
  lemma GoingOnIsGreater(settled: seq<Node>, top: Key, y: Node, v: Node)
    requires forall n :: n in top ==> Node(n) in settled
    requires v !in settled
    ensures AtMost(Extend(top, y.name), Extend(Extend(top, y.name), v.name))
  {
    if v == y {
      ExtendTwice(top, y.name);
    } else {
      NewName(settled + [y], Extend(top, y.name), v);
      ExtendIsGreater(Extend(top, y.name), v.name);
    }
  }

  /** What the last edge of a cheapest walk says of its key and of the walk before. */
  lemma LastKeyStep(e: Edges, start: Node, path: seq<Node>, v: Node, c: nat, k: Key)
      returns (p: Node, before: Key)
    requires KeyWalk(e, start, path, v, c, k) && AtLeast(e, start, v, c)
    ensures (k == [v.name] && Enters(e, start, v, c)) ||
            (|path| > 1 && KeyWalk(e, start, path[..|path| - 1], p, c, before) && Distance(e, start, p, c)
             && HasEdge(e, p, v, 0) && k == Extend(before, v.name))
  {
    p, before := start, [];
    if |path| > 1 {
      var w: Weight, b: Key :| KeyStep(e, start, path, v, c, k, w, b);
      p, before := path[|path| - 2], b;
      KeyWalkIsWalk(e, start, path[..|path| - 1], p, c - w, before);
      if w > 0 {
        assert EntersBy(e, start, v, c, p, w);
      } else {
        NoNearer(e, start, p, v, c);
      }
    }
  }

  lemma NoNearer(e: Edges, start: Node, p: Node, v: Node, c: nat)
    requires HasEdge(e, p, v, 0) && AtLeast(e, start, v, c)
    ensures AtLeast(e, start, p, c)
  {
    forall path, cost: nat | Walk(e, start, path, p, cost) ensures c <= cost {
      WalkAppend(e, start, path, p, cost, v, 0);
    }
  }

  /** No walk to an unsettled node as far as the first entry has a lesser key than that entry's node is given. */
  lemma {:induction false} NoneIsLess(e: Edges, start: Node, s: Search, x: (nat, Node), keys: map<Node, Key>, top: Key,
                                      path: seq<Node>, v: Node, k: Key)
    requires IsNext(e, start, s, x) && LevelOk(e, start, s.settled, x.0, keys, top)
    requires KeyWalk(e, start, path, v, x.0, k) && AtLeast(e, start, v, x.0) && v !in s.settled
    ensures AtMost(Extend(top, x.1.name), k)
    decreases |path|
  {
    var y := x.1;
    var p, before := LastKeyStep(e, start, path, v, x.0, k);
    if k == [v.name] && Enters(e, start, v, x.0) {
      EntryIsLater(e, start, s, x, v);
      LaterIsNotLess(s.settled, top, y, v);
    } else if p in s.settled {
      assert HasKey(e, start, p, x.0, before);
      ZeroEdgeIsLater(e, start, s, x, p, v);
      LaterIsNotLess(s.settled, top, y, v);
      ExtendKeepsOrder(keys[p], before, v.name);
      LessIsTransitive(Extend(top, y.name), Extend(top, v.name), k);
    } else {
      NoneIsLess(e, start, s, x, keys, top, path[..|path| - 1], p, before);
      ExtendKeepsOrder(Extend(top, y.name), before, v.name);
      GoingOnIsGreater(s.settled, top, y, v);
      LessIsTransitive(Extend(top, y.name), Extend(Extend(top, y.name), v.name), k);
    }
  }

  /** And some walk to that node has the key. */
  lemma NextHasKey(e: Edges, start: Node, s: Search, x: (nat, Node), keys: map<Node, Key>, top: Key)
    requires IsNext(e, start, s, x) && LevelOk(e, start, s.settled, x.0, keys, top)
    ensures Distance(e, start, x.1, x.0) && HasKey(e, start, x.1, x.0, Extend(top, x.1.name))
  {
    var y := x.1;
    NextIsAtDistance(e, start, s, x);
    if y == start {
      assert KeyWalk(e, start, [start], start, 0, [start.name]);
      assert Enters(e, start, start, 0);
    } else {
      ChainsFollow(e, start, s);
      var p, w := ChainStep(e, start, s, y);
      assert Linked(e, s, y, p);
      var path := DistanceIsWalk(e, start, s, p);
      KeyThrough(e, start, s.settled, x.0, keys, top, y, p, w, path);
    }
  }

  lemma NextIsAtDistance(e: Edges, start: Node, s: Search, x: (nat, Node))
    requires IsNext(e, start, s, x)
    ensures Distance(e, start, x.1, x.0)
  {
    FirstIsNearest(s.heap, x);
    UnsettledIsFar(e, start, s, x, x.1);
    ChainsFollow(e, start, s);
    var path := DistanceIsWalk(e, start, s, x.1);
  }

  lemma KeyThrough(e: Edges, start: Node, settled: seq<Node>, c: nat, keys: map<Node, Key>, top: Key,
                   y: Node, p: Node, w: Weight, path: seq<Node>)
    requires LevelOk(e, start, settled, c, keys, top) && p in settled && y !in settled && AtLeast(e, start, y, c)
    requires w <= c && Walk(e, start, path, p, c - w) && HasEdge(e, p, y, w)
    ensures HasKey(e, start, y, c, Extend(top, y.name))
  {
    if w > 0 {
      var k := WalkHasKey(e, start, path, p, c - w);
      KeyWalkAppend(e, start, path, p, c - w, k, y, w);
      assert EntersBy(e, start, y, c, p, w);
    } else {
      NoNearer(e, start, p, y, c);
      assert Distance(e, start, p, c) && KeyIsLeast(e, start, p, c, keys);
      var way :| KeyWalk(e, start, way, p, c, keys[p]);
      KeyWalkAppend(e, start, way, p, c, keys[p], y, 0);
    }
  }

  lemma NextKeyIsLeast(e: Edges, start: Node, s: Search, x: (nat, Node), keys: map<Node, Key>, top: Key,
                       v: Node, k: Key)
    requires IsNext(e, start, s, x) && LevelOk(e, start, s.settled, x.0, keys, top)
    requires HasKey(e, start, v, x.0, k) && AtLeast(e, start, v, x.0) && v !in s.settled
    ensures AtMost(Extend(top, x.1.name), k) && (v != x.1 ==> Less(Extend(top, x.1.name), k))
  {
    var path :| KeyWalk(e, start, path, v, x.0, k);
    NoneIsLess(e, start, s, x, keys, top, path, v, k);
    KeyEnds(e, start, path, v, x.0, k);
    if v != x.1 { assert Node(v.name) == v && Node(x.1.name) == x.1; }
  }

  lemma KeyEnds(e: Edges, start: Node, path: seq<Node>, v: Node, c: nat, k: Key)
    requires KeyWalk(e, start, path, v, c, k)
    ensures |k| > 0 && k[|k| - 1] == v.name
  {
  }

  // ---------------------------------------------------------------- settling keeps the invariant

  /** With that node settled too, its key is the last of the level. */
  lemma NextKeepsLevel(e: Edges, start: Node, s: Search, x: (nat, Node), keys: map<Node, Key>, top: Key)
    requires IsNext(e, start, s, x) && LevelOk(e, start, s.settled, x.0, keys, top)
    ensures var k := Extend(top, x.1.name); LevelOk(e, start, s.settled + [x.1], x.0, keys[x.1 := k], k)
  {
    NextKeepsKeys(e, start, s, x, keys, top);
    NextKeepsEdges(e, start, s, x, keys, top);
    NextKeepsEntries(e, start, s, x, keys, top);
  }

  lemma NextKeepsKeys(e: Edges, start: Node, s: Search, x: (nat, Node), keys: map<Node, Key>, top: Key)
    requires IsNext(e, start, s, x) && LevelOk(e, start, s.settled, x.0, keys, top)
    ensures var k := Extend(top, x.1.name); KeysOk(e, start, s.settled + [x.1], x.0, keys[x.1 := k], k)
  {
    var y, ky := x.1, Extend(top, x.1.name);
    NewName(s.settled, top, y);
    ExtendIsGreater(top, y.name);
    NextHasKey(e, start, s, x, keys, top);
    forall v | v in s.settled + [y] && Distance(e, start, v, x.0)
      ensures KeyIsLeast(e, start, v, x.0, keys[y := ky]) && AtMost(keys[y := ky][v], ky)
    {
      if v == y {
        forall k | HasKey(e, start, y, x.0, k) ensures AtMost(ky, k) {
          NextKeyIsLeast(e, start, s, x, keys, top, y, k);
        }
      } else {
        assert KeyIsLeast(e, start, v, x.0, keys);
        LessIsTransitive(keys[v], top, ky);
      }
    }
  }

  lemma NextKeepsEdges(e: Edges, start: Node, s: Search, x: (nat, Node), keys: map<Node, Key>, top: Key)
    requires IsNext(e, start, s, x) && LevelOk(e, start, s.settled, x.0, keys, top)
    ensures var k := Extend(top, x.1.name); EdgesAgree(e, start, s.settled + [x.1], x.0, keys[x.1 := k], k)
  {
    var y, ky := x.1, Extend(top, x.1.name);
    forall p, f | p in s.settled + [y] && Distance(e, start, p, x.0) && p in keys[y := ky]
                  && f !in s.settled + [y] && HasEdge(e, p, f, 0)
      ensures Extend(keys[y := ky][p], f.name) == Extend(ky, f.name)
    {
      if p != y {
        ZeroEdgeIsLater(e, start, s, x, p, f);
        ExtendForgets(top, y.name, f.name);
      }
    }
  }

  lemma NextKeepsEntries(e: Edges, start: Node, s: Search, x: (nat, Node), keys: map<Node, Key>, top: Key)
    requires IsNext(e, start, s, x) && LevelOk(e, start, s.settled, x.0, keys, top)
    ensures EntriesAgree(e, start, s.settled + [x.1], x.0, Extend(top, x.1.name))
  {
    forall f | f !in s.settled + [x.1] && Enters(e, start, f, x.0)
      ensures Extend(Extend(top, x.1.name), f.name) == [f.name]
    {
      EntryIsLater(e, start, s, x, f);
      ExtendForgets(top, x.1.name, f.name);
    }
  }

  /** Before any node of a distance is settled there are no keys yet. */
  lemma LevelStarts(e: Edges, start: Node, s: Search, c: nat)
    requires Ok(e, start, s) && (s.settled == [] || c > Radius(s))
    ensures LevelOk(e, start, s.settled, c, map[], [])
  {
    ChainsFollow(e, start, s);
    forall v | v in s.settled ensures !Distance(e, start, v, c) {
      var path := DistanceIsWalk(e, start, s, v);
    }
  }

  /** The nodes as far as the one settled last came in the order of their keys. */
  ghost predicate InOrder(e: Edges, start: Node, s: Search) {
    exists keys, top :: LevelOk(e, start, s.settled, Radius(s), keys, top)
  }

  lemma ThisLevel(e: Edges, start: Node, s: Search, x: (nat, Node)) returns (keys: map<Node, Key>, top: Key)
    requires IsNext(e, start, s, x) && InOrder(e, start, s)
    ensures LevelOk(e, start, s.settled, x.0, keys, top)
  {
    if x.0 == Radius(s) {
      keys, top :| LevelOk(e, start, s.settled, x.0, keys, top);
    } else {
      keys, top := map[], [];
      LevelStarts(e, start, s, x.0);
    }
  }

  /** Settling the first entry's node keeps the order, whatever relaxing its edges adds. */
  lemma SettlingKeepsOrder(e: Edges, start: Node, s: Search, x: (nat, Node), t: Search)
    requires IsNext(e, start, s, x) && InOrder(e, start, s)
    requires t.settled == s.settled + [x.1] && Radius(t) == x.0
    ensures InOrder(e, start, t)
  {
    var keys, top := ThisLevel(e, start, s, x);
    NextKeepsLevel(e, start, s, x, keys, top);
  }

  // ---------------------------------------------------------------- who comes first

  /** The node of the first entry comes before the goal if that is another, unsettled node. */
  lemma FirstPrecedes(e: Edges, start: Node, s: Search, x: (nat, Node), goal: Node)
    requires IsNext(e, start, s, x) && InOrder(e, start, s) && goal !in s.settled && goal != x.1
    ensures Precedes(e, start, goal, x.1, x.0)
  {
    var keys, top := ThisLevel(e, start, s, x);
    NextHasKey(e, start, s, x, keys, top);
    FirstIsNearest(s.heap, x);
    UnsettledIsFar(e, start, s, x, goal);
    forall k | HasKey(e, start, goal, x.0, k) ensures Less(Extend(top, x.1.name), k) {
      NextKeyIsLeast(e, start, s, x, keys, top, goal, k);
    }
    assert LessThanAll(e, start, goal, x.0, Extend(top, x.1.name));
  }

  /** No unsettled node comes before the goal when the first entry is the goal's. */
  lemma NonePrecedes(e: Edges, start: Node, s: Search, goal: Node, u: Node, c: nat)
    requires IsNext(e, start, s, (c, goal)) && InOrder(e, start, s) && u !in s.settled && AtLeast(e, start, u, c)
    ensures !Precedes(e, start, goal, u, c)
  {
    var x := (c, goal);
    var keys, top := ThisLevel(e, start, s, x);
    var ky := Extend(top, goal.name);
    NextHasKey(e, start, s, x, keys, top);
    forall k | HasKey(e, start, u, c, k) ensures !LessThanAll(e, start, goal, c, k) {
      NextKeyIsLeast(e, start, s, x, keys, top, u, k);
      if Less(k, ky) {
        LessIsTransitive(k, ky, k);
        LessIsStrict(k);
      }
    }
  }

  /** A nearer node comes first, whatever the keys. */
  lemma NearerPrecedes(e: Edges, start: Node, goal: Node, u: Node, c: nat)
    requires HasWalk(e, start, u, c) && AtLeast(e, start, goal, c + 1)
    ensures Precedes(e, start, goal, u, c)
  {
    var path :| Walk(e, start, path, u, c);
    var k := WalkHasKey(e, start, path, u, c);
    forall k', way | KeyWalk(e, start, way, goal, c, k') ensures Walk(e, start, way, goal, c) {
      KeyWalkIsWalk(e, start, way, goal, c, k');
    }
    assert forall k' :: !HasKey(e, start, goal, c, k');
    assert LessThanAll(e, start, goal, c, k);
  }

  /** An edge that is too heavy starts at a node that comes before the goal. */
  ghost predicate TooHeavyFirst(e: Edges, start: Node, goal: Node) {
    exists u, c: nat, i: nat :: TooHeavy(e, start, u, c, i) && Precedes(e, start, goal, u, c)
  }

  /** It is enough that the node is nearer than the goal, and necessary that it is no farther. */
  lemma TooHeavyBounds(e: Edges, start: Node, goal: Node)
    ensures TooHeavyBefore(e, start, goal, 1) ==> TooHeavyFirst(e, start, goal)
    ensures TooHeavyFirst(e, start, goal) ==> TooHeavyBefore(e, start, goal, 0)
  {
    if TooHeavyBefore(e, start, goal, 1) {
      var u, c: nat, i: nat :| TooHeavy(e, start, u, c, i) && AtLeast(e, start, goal, c + 1);
      NearerPrecedes(e, start, goal, u, c);
    }
    if TooHeavyFirst(e, start, goal) {
      var u, c: nat, i: nat :| TooHeavy(e, start, u, c, i) && Precedes(e, start, goal, u, c);
      assert AtLeast(e, start, goal, c + 0);
    }
  }

  // ---------------------------------------------------------------- without edges of weight zero

  lemma KeyIsName(e: Edges, start: Node, v: Node, c: nat)
    requires PositiveAt(e, start, c) && Distance(e, start, v, c)
    ensures forall k :: HasKey(e, start, v, c, k) <==> k == [v.name]
  {
    forall k, path | KeyWalk(e, start, path, v, c, k) ensures k == [v.name] {
      var p, before := LastKeyStep(e, start, path, v, c, k);
    }
    var path :| Walk(e, start, path, v, c);
    var k := WalkHasKey(e, start, path, v, c);
  }

  /** If no walk of cost c can be prolonged for nothing, the order within that distance is that of the names. */
  lemma PrecedesByName(e: Edges, start: Node, goal: Node, u: Node, c: nat)
    requires PositiveAt(e, start, c) && Distance(e, start, u, c)
    ensures Precedes(e, start, goal, u, c) <==> FirstByName(e, start, goal, u, c)
  {
    if AtLeast(e, start, goal, c + 1) {
      NearerPrecedes(e, start, goal, u, c);
    } else if AtLeast(e, start, goal, c) {
      NamesDecide(e, start, goal, u, c);
    }
  }

  lemma NamesDecide(e: Edges, start: Node, goal: Node, u: Node, c: nat)
    requires PositiveAt(e, start, c) && Distance(e, start, u, c) && Distance(e, start, goal, c)
    ensures Precedes(e, start, goal, u, c) <==> Below(u.name, goal.name)
  {
    BelowIsTotal(u.name, goal.name);
    assert Less([u.name], [goal.name]) <==> Below(u.name, goal.name);
    KeyIsName(e, start, u, c);
    KeyIsName(e, start, goal, c);
    assert HasKey(e, start, u, c, [u.name]) && HasKey(e, start, goal, c, [goal.name]);
    assert LessThanAll(e, start, goal, c, [u.name]) <==> Below(u.name, goal.name);
  }

  /** If no edge of weight zero leaves nodes as far as the goal, names alone decide. */
  lemma TooHeavyByNames(e: Edges, start: Node, goal: Node)
    requires NoZeroAtGoal(e, start, goal)
    ensures TooHeavyFirst(e, start, goal) <==> TooHeavyByName(e, start, goal)
  {
    forall u, c: nat, i: nat | TooHeavy(e, start, u, c, i)
      ensures Precedes(e, start, goal, u, c) <==> FirstByName(e, start, goal, u, c)
    {
      if AtLeast(e, start, goal, c + 1) { NearerPrecedes(e, start, goal, u, c); }
      else if AtLeast(e, start, goal, c) { PrecedesByName(e, start, goal, u, c); }
    }
  }
}
