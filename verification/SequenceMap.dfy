/** The map from proxy sequence numbers to pending client requests (src/dap_mux/seq.py). */
module SequenceMap {
  import opened Messages

  datatype PendingRequest = PendingRequest(client: ClientId, clientSeq: Json, timestamp: real)

  /** A SeqMap's fields as a value: what its methods are specified by. */
  datatype SeqState = SeqState(next: int, pending: map<int, PendingRequest>)

  const EMPTY := SeqState(1, map[])

  predicate Stale(p: PendingRequest, op: Op) {
    match op
    case Cleanup(c) => p.client == c
    case Expire(now, timeout) => p.timestamp < now - timeout
    case _ => false
  }

  function Matching(s: SeqState, op: Op): (stale: set<int>) {
    set n | n in s.pending && Stale(s.pending[n], op)
  }

  /** One call of a method, with the clock's reading where the method reads it. */
  datatype Op =
    | Allocate(client: ClientId, clientSeq: Json, now: real)
    | Resolve(proxySeq: int)
    | Cleanup(client: ClientId)
    | Expire(now: real, timeout: real)

  function Apply(s: SeqState, op: Op): SeqState {
    match op
    case Allocate(c, q, now) => SeqState(s.next + 1, s.pending[s.next := PendingRequest(c, q, now)])
    case Resolve(n) => s.(pending := s.pending - {n})
    case _ => s.(pending := s.pending - Matching(s, op))
  }

  function AfterOps(ops: seq<Op>): SeqState {
    if ops == [] then EMPTY else Apply(AfterOps(ops[..|ops| - 1]), ops[|ops| - 1])
  }

  class SeqMap {
    var nextSeq: int
    var pending: map<int, PendingRequest>

    function View(): SeqState
      reads this
    {
      SeqState(nextSeq, pending)
    }

    constructor ()
      ensures View() == EMPTY
    {
      nextSeq, pending := 1, map[];
    }

    method Allocate(client: ClientId, clientSeq: Json, now: real) returns (proxySeq: int)
      modifies this
      ensures proxySeq == old(nextSeq)
      ensures View() == Apply(old(View()), Op.Allocate(client, clientSeq, now))
      ensures nextSeq == proxySeq + 1
      ensures pending == old(pending)[proxySeq := PendingRequest(client, clientSeq, now)]
    {
      proxySeq := nextSeq;
      nextSeq := nextSeq + 1;
      pending := pending[proxySeq := PendingRequest(client, clientSeq, now)];
    }

    method Resolve(proxySeq: int) returns (r: Option<PendingRequest>)
      modifies this
      ensures r == if proxySeq in old(pending) then Some(old(pending)[proxySeq]) else None
      ensures View() == Apply(old(View()), Op.Resolve(proxySeq))
      ensures nextSeq == old(nextSeq) && pending == old(pending) - {proxySeq}
    {
      r := if proxySeq in pending then Some(pending[proxySeq]) else None;
      pending := pending - {proxySeq};
    }

    method Cleanup(client: ClientId) returns (removed: nat)
      modifies this
      ensures View() == Apply(old(View()), Op.Cleanup(client))
      ensures forall n :: n in pending <==> n in old(pending) && old(pending)[n].client != client
      ensures nextSeq == old(nextSeq) && forall n :: n in pending ==> pending[n] == old(pending)[n]
      ensures removed == old(PendingCount()) - PendingCount()
    {
      var stale := set n | n in pending && pending[n].client == client;
      assert forall n :: n in stale <==> n in Matching(View(), Op.Cleanup(client));
      assert stale == Matching(View(), Op.Cleanup(client));
      removed := |stale|;
      RemoveAll(stale);
      MapMinus(old(pending), stale);
    }

    method Expire(now: real, timeout: real) returns (removed: nat)
      modifies this
      ensures View() == Apply(old(View()), Op.Expire(now, timeout))
      ensures forall n :: n in pending <==> n in old(pending) && old(pending)[n].timestamp >= now - timeout
      ensures nextSeq == old(nextSeq) && forall n :: n in pending ==> pending[n] == old(pending)[n]
      ensures removed == old(PendingCount()) - PendingCount()
    {
      var cutoff := now - timeout;
      var stale := set n | n in pending && pending[n].timestamp < cutoff;
      assert forall n :: n in stale <==> n in Matching(View(), Op.Expire(now, timeout));
      assert stale == Matching(View(), Op.Expire(now, timeout));
      removed := |stale|;
      RemoveAll(stale);
      MapMinus(old(pending), stale);
    }

    /** The deletion loop of both: one key at a time. */
    method RemoveAll(stale: set<int>)
      modifies this`pending
      ensures pending == old(pending) - stale
    {
      var rest := stale;
      while rest != {}
        invariant rest <= stale
        invariant pending == old(pending) - (stale - rest)
        decreases rest
      {
        assert (forall n :: n !in rest) ==> rest == {};
        var n :| n in rest;
        pending := pending - {n};
        rest := rest - {n};
      }
      assert stale - {} == stale;
    }

    function PendingCount(): nat
      reads this
    {
      |pending|
    }
  }

  lemma MapMinus(m: map<int, PendingRequest>, keys: set<int>)
    requires keys <= m.Keys
    ensures |m - keys| == |m| - |keys|
  {
    assert (m - keys).Keys == m.Keys - keys;
  }

  // ---------------------------------------------------------------- conservation

  /** What a call takes out of the map. */
  function Removed(s: SeqState, op: Op): set<int> {
    match op
    case Allocate(_, _, _) => {}
    case Resolve(n) => if n in s.pending then {n} else {}
    case _ => Matching(s, op)
  }

  /** The number of entries that a sequence of calls reported as resolved, cleaned up or expired. */
  function RemovedCount(ops: seq<Op>): nat {
    if ops == [] then 0
    else RemovedCount(ops[..|ops| - 1]) + |Removed(AfterOps(ops[..|ops| - 1]), ops[|ops| - 1])|
  }

  /** The allocations among the calls, oldest first: the n-th got proxy number n. */
  function Allocations(ops: seq<Op>): seq<PendingRequest> {
    if ops == [] then []
    else Allocations(ops[..|ops| - 1]) + Allocated(ops[|ops| - 1])
  }

  function Allocated(op: Op): seq<PendingRequest> {
    match op
    case Allocate(c, q, now) => [PendingRequest(c, q, now)]
    case _ => []
  }

  /** Some call took the entry of proxy number n out. */
  ghost predicate TakenOut(ops: seq<Op>, n: int) {
    exists i :: 0 <= i < |ops| && n in Removed(AfterOps(ops[..i]), ops[i])
  }

  lemma ApplyRemoves(s: SeqState, op: Op)
    requires s.next !in s.pending
    ensures Apply(s, op).pending.Keys ==
            s.pending.Keys - Removed(s, op) + if op.Allocate? then {s.next} else {}
    ensures |Apply(s, op).pending| == |s.pending| - |Removed(s, op)| + if op.Allocate? then 1 else 0
  {
    var t := Apply(s, op);
    assert Removed(s, op) <= s.pending.Keys;
    assert t.pending.Keys == s.pending.Keys - Removed(s, op) + if op.Allocate? then {s.next} else {};
    assert |t.pending| == |t.pending.Keys| && |s.pending| == |s.pending.Keys|;
  }

  lemma ApplyPointwise(s: SeqState, op: Op, n: int)
    ensures n in Apply(s, op).pending <==>
            (n in s.pending && n !in Removed(s, op)) || (op.Allocate? && n == s.next)
    ensures Apply(s, op).next == s.next + if op.Allocate? then 1 else 0
    ensures n in Removed(s, op) ==> n in s.pending
  {
  }

  lemma TakenOutAppend(ops: seq<Op>, op: Op, n: int)
    ensures TakenOut(ops + [op], n) <==> TakenOut(ops, n) || n in Removed(AfterOps(ops), op)
  {
    var all := ops + [op];
    assert forall i :: 0 <= i <= |ops| ==> all[..i] == ops[..i];
    assert ops[..|ops|] == ops && all[|ops|] == op;
    if TakenOut(ops, n) {
      var i :| 0 <= i < |ops| && n in Removed(AfterOps(ops[..i]), ops[i]);
      assert n in Removed(AfterOps(all[..i]), all[i]);
    }
  }

  lemma {:induction false} NumbersCount(ops: seq<Op>)
    ensures var s := AfterOps(ops);
      && s.next == |Allocations(ops)| + 1
      && (forall n :: n in s.pending ==> 1 <= n < s.next)
      && (forall n :: n in s.pending ==> s.pending[n] == Allocations(ops)[n - 1])
  {
    if ops != [] { NumbersCount(ops[..|ops| - 1]); }
  }

  lemma {:induction false} PendingWhatIsNotTakenOut(ops: seq<Op>, n: int)
    ensures n in AfterOps(ops).pending <==> 1 <= n < AfterOps(ops).next && !TakenOut(ops, n)
    ensures TakenOut(ops, n) ==> 1 <= n < AfterOps(ops).next
  {
    if ops != [] {
      var first, op := ops[..|ops| - 1], ops[|ops| - 1];
      PendingWhatIsNotTakenOut(first, n);
      NumbersCount(first);
      ApplyPointwise(AfterOps(first), op, n);
      assert ops == first + [op];
      TakenOutAppend(first, op, n);
    }
  }

  lemma {:induction false} NothingIsLost(ops: seq<Op>)
    ensures AfterOps(ops).next - 1 == |AfterOps(ops).pending| + RemovedCount(ops)
  {
    if ops != [] {
      var first := ops[..|ops| - 1];
      NothingIsLost(first);
      NumbersCount(first);
      ApplyRemoves(AfterOps(first), ops[|ops| - 1]);
    }
  }

  /** Through any sequence of calls the map holds exactly the allocations that no call took out, under the
      numbers they got; and nothing is lost: all numbers handed out are pending or reported as removed. */
  lemma SeqMapConserves(ops: seq<Op>)
    ensures var s := AfterOps(ops);
      && s.next == |Allocations(ops)| + 1
      && s.next - 1 == |s.pending| + RemovedCount(ops)
      && (forall n :: n in s.pending <==> 1 <= n < s.next && !TakenOut(ops, n))
      && (forall n :: n in s.pending ==> s.pending[n] == Allocations(ops)[n - 1])
      && (forall n :: TakenOut(ops, n) ==> 1 <= n < s.next)
  {
    NumbersCount(ops);
    NothingIsLost(ops);
    forall n
      ensures n in AfterOps(ops).pending <==> 1 <= n < AfterOps(ops).next && !TakenOut(ops, n)
      ensures TakenOut(ops, n) ==> 1 <= n < AfterOps(ops).next
    {
      PendingWhatIsNotTakenOut(ops, n);
    }
  }
}
