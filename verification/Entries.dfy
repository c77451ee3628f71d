/** The entries of the heap, and the order in which they leave it: by cost, and by the name of the node where costs
    are equal. */
module Entries {
  import opened Walks

  /** The order of strings: that of their first difference, or a prefix before what it is a prefix of. */
  predicate Below(a: string, b: string) {
    b != [] && (a == [] || a[0] < b[0] || (a[0] == b[0] && Below(a[1..], b[1..])))
  }

  /** a and b are the same up to i, where a ends or has the lesser character. */
  predicate IsLessFrom(a: string, b: string, i: nat) {
    i <= |a| && i < |b| && a[..i] == b[..i] && (i == |a| || a[i] < b[i])
  }

  /** A name is below another if it is a proper prefix of it, or has the lesser character where they first differ. */
  lemma {:induction false} BelowMeans(a: string, b: string)
    ensures Below(a, b) <==> exists i: nat :: IsLessFrom(a, b, i)
  {
    if a == [] || b == [] {
      assert IsLessFrom(a, b, 0) <==> Below(a, b);
    } else if a[0] != b[0] {
      assert IsLessFrom(a, b, 0) <==> a[0] < b[0];
      forall i: nat | 0 < i <= |a| && i <= |b| ensures a[..i] != b[..i] {
        assert a[..i][0] == a[0] && b[..i][0] == b[0];
      }
    } else {
      BelowMeans(a[1..], b[1..]);
      assert !IsLessFrom(a, b, 0);
      forall i: nat ensures IsLessFrom(a[1..], b[1..], i) <==> IsLessFrom(a, b, i + 1) {
        if i < |a| && i < |b| { HeadAndTail(a, b, i); }
      }
      if Below(a, b) {
        var i: nat :| IsLessFrom(a[1..], b[1..], i);
        assert IsLessFrom(a, b, i + 1);
      }
      forall i: nat | IsLessFrom(a, b, i) ensures i > 0 && IsLessFrom(a[1..], b[1..], i - 1) {
      }
    }
  }

  lemma HeadAndTail(a: string, b: string, i: nat)
    requires i < |a| && i < |b| && a[0] == b[0]
    ensures a[..i + 1] == b[..i + 1] <==> a[1..][..i] == b[1..][..i]
  {
    assert a[..i + 1] == [a[0]] + a[1..][..i] && b[..i + 1] == [b[0]] + b[1..][..i];
  }

  lemma {:induction false} BelowIsTotal(a: string, b: string)
    ensures Below(a, b) || Below(b, a) || a == b
    ensures !(Below(a, b) && Below(b, a)) && !Below(a, a)
  {
    if a != [] && b != [] { BelowIsTotal(a[1..], b[1..]); }
    if a != [] { BelowIsTotal(a[1..], a[1..]); }
  }

  lemma {:induction false} BelowIsTransitive(a: string, b: string, c: string)
    requires Below(a, b) && Below(b, c)
    ensures Below(a, c)
  {
    if a != [] { if a[0] == b[0] == c[0] { BelowIsTransitive(a[1..], b[1..], c[1..]); } }
  }

  /** The order in which entries leave the heap. */
  predicate Before(x: (nat, Node), y: (nat, Node)) {
    x.0 < y.0 || (x.0 == y.0 && Below(x.1.name, y.1.name))
  }

  lemma BeforeTrans(x: (nat, Node), y: (nat, Node), z: (nat, Node))
    requires (x == y || Before(x, y)) && Before(y, z)
    ensures Before(x, z)
  {
    if x != y && x.0 == y.0 == z.0 { BelowIsTransitive(x.1.name, y.1.name, z.1.name); }
  }

  /** The entry that the heap gives next. */
  predicate IsFirst(heap: multiset<(nat, Node)>, x: (nat, Node)) {
    x in heap && forall y :: y in heap ==> y == x || Before(x, y)
  }

  ghost predicate IsNearest(heap: multiset<(nat, Node)>, x: (nat, Node)) {
    x in heap && forall y :: y in heap ==> x.0 <= y.0
  }

  lemma FirstIsNearest(heap: multiset<(nat, Node)>, x: (nat, Node))
    requires IsFirst(heap, x)
    ensures IsNearest(heap, x)
  {
  }

  lemma {:induction false} SomeFirst(heap: multiset<(nat, Node)>)
    requires |heap| > 0
    ensures exists x :: IsFirst(heap, x)
    decreases |heap|
  {
    var x :| x in heap;
    var rest := heap - multiset{x};
    assert forall z :: z in heap ==> z == x || z in rest;
    if |rest| > 0 {
      SomeFirst(rest);
      var y :| IsFirst(rest, y);
      EarlierIsFirst(heap, rest, x, y);
    } else {
      assert IsFirst(heap, x);
    }
  }

  lemma EarlierIsFirst(heap: multiset<(nat, Node)>, rest: multiset<(nat, Node)>, x: (nat, Node), y: (nat, Node))
    requires x in heap && IsFirst(rest, y) && y in heap
    requires forall z :: z in heap ==> z == x || z in rest
    ensures IsFirst(heap, if Before(y, x) then y else x)
  {
    BelowIsTotal(x.1.name, y.1.name);
    forall z | z in heap ensures z == (if Before(y, x) then y else x) || Before(if Before(y, x) then y else x, z) {
      if z != x && z != y && !Before(y, x) { BeforeTrans(x, y, z); }
    }
  }

  lemma RemoveOnce(heap: multiset<(nat, Node)>, x: (nat, Node), y: (nat, Node))
    requires heap[x] == 1
    ensures y in heap - multiset{x} <==> y in heap && y != x
    ensures y != x ==> (heap - multiset{x})[y] == heap[y]
  {
  }
}
