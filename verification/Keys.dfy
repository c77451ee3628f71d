/** The order in which nodes of the same distance leave the heap. A walk has a key: of the names behind its last edge
    of positive weight, those that are greater than all that follow. Where distances are equal, the node that has the
    lesser key comes first. */
module Keys {
  import opened Walks
  import opened Entries

  type Key = seq<string>

  /** The order of keys: that of their first difference, or a beginning before what it is a beginning of. */
  predicate Less(a: Key, b: Key) {
    b != [] && (a == [] || if a[0] == b[0] then Less(a[1..], b[1..]) else Below(a[0], b[0]))
  }

  predicate AtMost(a: Key, b: Key) {
    a == b || Less(a, b)
  }

  /** The key of a walk that goes on to `name` for nothing. */
  function Extend(k: Key, name: string): (r: Key)
    ensures |r| > 0 && r[|r| - 1] == name
    ensures forall n :: n in r ==> n in k || n == name
  {
    if k != [] && Below(name, k[0]) then [k[0]] + Extend(k[1..], name) else [name]
  }

  // ---------------------------------------------------------------- laws of the order

  lemma {:induction false} LessIsTransitive(a: Key, b: Key, c: Key)
    requires AtMost(a, b) && AtMost(b, c)
    ensures AtMost(a, c) && (Less(a, b) || Less(b, c) ==> Less(a, c))
  {
    if a != b && b != c && a != [] {
      if a[0] == b[0] == c[0] {
        LessIsTransitive(a[1..], b[1..], c[1..]);
      } else if a[0] != b[0] && b[0] != c[0] {
        BelowIsTransitive(a[0], b[0], c[0]);
        BelowIsTotal(a[0], b[0]);
      }
    }
  }

  lemma {:induction false} LessIsStrict(a: Key)
    ensures !Less(a, a)
  {
    if a != [] { LessIsStrict(a[1..]); }
  }

  /** A lesser key stays so when both go on to the same node. */
  lemma {:induction false} ExtendKeepsOrder(k: Key, k': Key, name: string)
    requires AtMost(k, k')
    ensures AtMost(Extend(k, name), Extend(k', name))
  {
    if k != [] && k' != [] {
      BelowIsTotal(name, k[0]);
      BelowIsTotal(name, k'[0]);
      if k[0] == k'[0] {
        ExtendKeepsOrder(k[1..], k'[1..], name);
      } else if Below(name, k[0]) {
        BelowIsTransitive(name, k[0], k'[0]);
      }
    }
  }

  /** Going on to a lesser name gives a lesser key. */
  lemma {:induction false} ExtendFollowsNames(k: Key, a: string, b: string)
    requires Below(a, b) && b !in k
    ensures Less(Extend(k, a), Extend(k, b))
  {
    BelowIsTotal(a, b);
    if k != [] {
      BelowIsTotal(b, k[0]);
      if Below(b, k[0]) {
        BelowIsTransitive(a, b, k[0]);
        ExtendFollowsNames(k[1..], a, b);
      }
    }
  }

  /** Going on to another node makes a key greater. */
  lemma {:induction false} ExtendIsGreater(k: Key, name: string)
    requires name !in k
    ensures Less(k, Extend(k, name))
  {
    if k != [] {
      BelowIsTotal(name, k[0]);
      if Below(name, k[0]) { ExtendIsGreater(k[1..], name); }
    }
  }

  lemma {:induction false} ExtendTwice(k: Key, name: string)
    ensures Extend(Extend(k, name), name) == Extend(k, name)
  {
    BelowIsTotal(name, name);
    if k != [] && Below(name, k[0]) {
      ExtendTwice(k[1..], name);
      assert Extend(k, name)[1..] == Extend(k[1..], name);
    }
  }

  /** A lesser name leaves no trace when a greater one follows. */
  lemma {:induction false} ExtendForgets(k: Key, a: string, b: string)
    requires Below(a, b)
    ensures Extend(Extend(k, a), b) == Extend(k, b)
  {
    BelowIsTotal(a, b);
    if k != [] && Below(a, k[0]) {
      ExtendForgets(k[1..], a, b);
      assert Extend(k, a)[1..] == Extend(k[1..], a);
    } else if k != [] && Below(b, k[0]) {
      BelowIsTransitive(a, b, k[0]);
    }
  }

  ghost predicate Descends(k: Key) {
    forall i, j :: 0 <= i < j < |k| ==> Below(k[j], k[i])
  }

  /** A key that goes on keeps just the names that are greater than the new one, in descending order. */
  lemma {:induction false} ExtendMeans(k: Key, name: string)
    requires Descends(k)
    ensures Descends(Extend(k, name))
    ensures forall n :: n in Extend(k, name) <==> n == name || (n in k && Below(name, n))
  {
    BelowIsTotal(name, name);
    if k != [] && Below(name, k[0]) {
      ExtendMeans(k[1..], name);
      assert forall n :: n in k <==> n == k[0] || n in k[1..];
      assert forall i :: 1 <= i < |k| ==> k[i] == k[1..][i - 1];
    } else {
      forall n | n in k ensures !Below(name, n) {
        BelowIsTotal(name, k[0]);
        var i :| 0 <= i < |k| && k[i] == n;
        if i > 0 && Below(name, n) { BelowIsTransitive(name, n, k[0]); }
      }
    }
  }

  // ---------------------------------------------------------------- keys of walks

  /** `path` is a walk from start to v that costs c and has the key k. */
  ghost predicate KeyWalk(e: Edges, start: Node, path: seq<Node>, v: Node, c: nat, k: Key)
    decreases |path|
  {
    && |path| > 0 && path[0] == start && path[|path| - 1] == v
    && if |path| == 1 then c == 0 && k == [v.name]
       else exists w: Weight, before: Key :: KeyStep(e, start, path, v, c, k, w, before)
  }

  ghost predicate KeyStep(e: Edges, start: Node, path: seq<Node>, v: Node, c: nat, k: Key, w: Weight, before: Key)
    requires |path| > 1
    decreases |path|, 0
  {
    && w <= c && (v, w) in Adjacent(e, path[|path| - 2])
    && KeyWalk(e, start, path[..|path| - 1], path[|path| - 2], c - w, before)
    && k == if w == 0 then Extend(before, v.name) else [v.name]
  }

  /** Some walk to v that costs c has the key k. */
  ghost predicate HasKey(e: Edges, start: Node, v: Node, c: nat, k: Key) {
    exists path :: KeyWalk(e, start, path, v, c, k)
  }

  lemma {:induction false} KeyWalkIsWalk(e: Edges, start: Node, path: seq<Node>, v: Node, c: nat, k: Key)
    requires KeyWalk(e, start, path, v, c, k)
    ensures Walk(e, start, path, v, c)
  {
    if |path| > 1 {
      var w: Weight, before: Key :| KeyStep(e, start, path, v, c, k, w, before);
      KeyWalkIsWalk(e, start, path[..|path| - 1], path[|path| - 2], c - w, before);
      assert LastStep(e, start, path, v, c, w);
    }
  }

  lemma {:induction false} WalkHasKey(e: Edges, start: Node, path: seq<Node>, v: Node, c: nat) returns (k: Key)
    requires Walk(e, start, path, v, c)
    ensures KeyWalk(e, start, path, v, c, k)
  {
    if |path| == 1 {
      k := [v.name];
    } else {
      var w: Weight :| LastStep(e, start, path, v, c, w);
      var before := WalkHasKey(e, start, path[..|path| - 1], path[|path| - 2], c - w);
      k := if w == 0 then Extend(before, v.name) else [v.name];
      assert KeyStep(e, start, path, v, c, k, w, before);
    }
  }

  lemma KeyWalkAppend(e: Edges, start: Node, path: seq<Node>, u: Node, c: nat, before: Key, v: Node, w: Weight)
    requires KeyWalk(e, start, path, u, c, before) && (v, w) in Adjacent(e, u)
    ensures KeyWalk(e, start, path + [v], v, c + w, if w == 0 then Extend(before, v.name) else [v.name])
  {
    assert (path + [v])[..|path|] == path;
    assert KeyStep(e, start, path + [v], v, c + w, if w == 0 then Extend(before, v.name) else [v.name], w, before);
  }

  /** u comes before the goal: the goal is not nearer than c, and if it is as far, a walk to u has a lesser key
      than any to the goal. */
  ghost predicate Precedes(e: Edges, start: Node, goal: Node, u: Node, c: nat) {
    AtLeast(e, start, goal, c) && exists k :: HasKey(e, start, u, c, k) && LessThanAll(e, start, goal, c, k)
  }

  ghost predicate LessThanAll(e: Edges, start: Node, goal: Node, c: nat, k: Key) {
    forall k' :: HasKey(e, start, goal, c, k') ==> Less(k, k')
  }
}
