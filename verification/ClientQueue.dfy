/** What one client's queue holds, told from the adapter's messages alone: which events it was sent
    and in what order, and what it can conclude from them about the debuggee. */
module ClientQueue {
  import opened Messages
  import opened MuxModel

  /** The stop that a reader of `log` believes in: the last one not followed by continued or terminated. */
  function StopIn(log: seq<Message>): Option<Message> {
    if log == [] then None else StopAfter(StopIn(log[..|log| - 1]), log[|log| - 1])
  }

  /** The last initialized event in `log`. */
  function InitializedIn(log: seq<Message>): Option<Message> {
    if log == [] then None else InitializedAfter(InitializedIn(log[..|log| - 1]), log[|log| - 1])
  }

  function BroadcastsIn(log: seq<Message>): seq<Message> {
    if log == [] then []
    else BroadcastsIn(log[..|log| - 1]) + if IsBroadcast(log[|log| - 1]) then [log[|log| - 1]] else []
  }

  function MessagesOf(q: seq<Delivery>): (log: seq<Message>)
    ensures |log| == |q|
  {
    seq(|q|, i requires 0 <= i < |q| => q[i].msg)
  }

  /** The events that reached a queue as broadcasts, oldest first. */
  function EventsOf(q: seq<Delivery>): seq<Message> {
    if q == [] then []
    else EventsOf(q[..|q| - 1]) + if q[|q| - 1].origin.Event? then [q[|q| - 1].msg] else []
  }

  predicate Greeted(q: seq<Delivery>) {
    exists i :: 0 <= i < |q| && q[i].origin.Greeting?
  }

  function Cached(event: Option<Message>, k: nat): seq<Delivery> {
    match event case None => [] case Some(m) => [Delivery(m, Replay(k))]
  }

  /** What a late joiner is sent after its initialize response: the handshake and the current stop. */
  function ReplayBlock(log: seq<Message>): seq<Delivery> {
    Cached(InitializedIn(log), |log|) + Cached(StopIn(log), |log|)
  }

  /** Which adapter message a delivery passes on; -1 for none. */
  function AdapterIndex(o: Origin): int {
    match o
    case Answer(_, k) => k
    case Event(k) => k
    case Reverse(k) => k
    case _ => -1
  }

  /** Messages from the adapter keep the adapter's order, and none is there twice. */
  ghost predicate Ordered(q: seq<Delivery>, bound: nat) {
    && (forall i :: 0 <= i < |q| ==> AdapterIndex(q[i].origin) < bound)
    && (forall i, j :: 0 <= i < j < |q| && AdapterIndex(q[j].origin) >= 0 ==>
          AdapterIndex(q[i].origin) < AdapterIndex(q[j].origin))
  }

  /** After each greeting comes the replay block of that moment. */
  ghost predicate BlocksOk(log: seq<Message>, q: seq<Delivery>) {
    forall i :: 0 <= i < |q| && q[i].origin.Greeting? ==> BlockAt(log, q, i + 1, q[i].origin.k)
  }

  ghost predicate BlockAt(log: seq<Message>, q: seq<Delivery>, i: nat, k: nat) {
    && k <= |log|
    && i + |ReplayBlock(log[..k])| <= |q|
    && q[i..i + |ReplayBlock(log[..k])|] == ReplayBlock(log[..k])
  }

  /** Replays stand in such a block and nowhere else. */
  ghost predicate ReplaysOk(log: seq<Message>, q: seq<Delivery>) {
    forall i {:trigger Replayed(log, q, i)} :: 0 <= i < |q| && q[i].origin.Replay? ==> Replayed(log, q, i)
  }

  ghost predicate Replayed(log: seq<Message>, q: seq<Delivery>, i: nat) {
    exists j: nat :: InBlock(log, q, j, i)
  }

  /** The i-th message is in the block behind the greeting at j. */
  ghost predicate InBlock(log: seq<Message>, q: seq<Delivery>, j: nat, i: nat) {
    && j < i < |q| && q[j].origin.Greeting? && q[j].origin.k <= |log|
    && i <= j + |ReplayBlock(log[..q[j].origin.k])|
  }

  /** Longer queues and longer logs leave it there. */
  lemma InBlockStays(log: seq<Message>, q: seq<Delivery>, log': seq<Message>, q': seq<Delivery>)
    requires log <= log' && q <= q'
    ensures forall i: nat :: Replayed(log, q, i) ==> Replayed(log', q', i)
  {
    forall i: nat, j: nat | InBlock(log, q, j, i) ensures InBlock(log', q', j, i) {
      assert log'[..q[j].origin.k] == log[..q[j].origin.k];
    }
  }

  /** The client's own view is empty or that of the whole log; after a greeting it is that of the log. */
  ghost predicate Agrees(seen: Option<Message>, truth: Option<Message>, greeted: bool) {
    seen == truth || (seen.None? && !greeted)
  }

  /** The queue of a client that was connected while the adapter sent log[from..to]. */
  ghost predicate QueueOk(log: seq<Message>, q: seq<Delivery>, from: nat, to: nat)
  {
    && from <= to <= |log|
    && EventsOf(q) == BroadcastsIn(log[from..to])
    && BlocksOk(log, q) && ReplaysOk(log, q)
    && Agrees(StopIn(MessagesOf(q)), StopIn(log[..to]), Greeted(q))
    && Agrees(InitializedIn(MessagesOf(q)), InitializedIn(log[..to]), Greeted(q))
  }

  // ---------------------------------------------------------------- appending

  lemma FoldAppend(log: seq<Message>, m: Message)
    ensures StopIn(log + [m]) == StopAfter(StopIn(log), m)
    ensures InitializedIn(log + [m]) == InitializedAfter(InitializedIn(log), m)
    ensures BroadcastsIn(log + [m]) == BroadcastsIn(log) + if IsBroadcast(m) then [m] else []
  {
    assert (log + [m])[..|log|] == log;
  }

  lemma QueueAppend(q: seq<Delivery>, d: Delivery)
    ensures StopIn(MessagesOf(q + [d])) == StopAfter(StopIn(MessagesOf(q)), d.msg)
    ensures InitializedIn(MessagesOf(q + [d])) == InitializedAfter(InitializedIn(MessagesOf(q)), d.msg)
    ensures EventsOf(q + [d]) == EventsOf(q) + if d.origin.Event? then [d.msg] else []
  {
    assert (q + [d])[..|q|] == q;
    assert MessagesOf(q + [d]) == MessagesOf(q) + [d.msg];
    FoldAppend(MessagesOf(q), d.msg);
  }

  lemma GreetedAppend(q: seq<Delivery>, d: Delivery)
    ensures Greeted(q + [d]) <==> Greeted(q) || d.origin.Greeting?
  {
    if Greeted(q) {
      var i :| 0 <= i < |q| && q[i].origin.Greeting?;
      assert (q + [d])[i].origin.Greeting?;
    }
    if d.origin.Greeting? { assert (q + [d])[|q|].origin.Greeting?; }
  }

  lemma OrderedAppend(q: seq<Delivery>, d: Delivery, bound: nat, bound': nat)
    requires Ordered(q, bound) && bound <= bound'
    requires AdapterIndex(d.origin) == -1 || bound <= AdapterIndex(d.origin) < bound'
    ensures Ordered(q + [d], bound')
  {
  }

  lemma BlocksAppend(log: seq<Message>, q: seq<Delivery>, d: Delivery)
    requires BlocksOk(log, q) && ReplaysOk(log, q) && !d.origin.Greeting? && !d.origin.Replay?
    ensures BlocksOk(log, q + [d]) && ReplaysOk(log, q + [d])
  {
    var q' := q + [d];
    forall i | 0 <= i < |q'| && q'[i].origin.Greeting? ensures BlockAt(log, q', i + 1, q'[i].origin.k) {
      assert q[i] == q'[i];
      var n := |ReplayBlock(log[..q[i].origin.k])|;
      assert q'[i + 1..i + 1 + n] == q[i + 1..i + 1 + n];
    }
    InBlockStays(log, q, log, q');
    forall i | 0 <= i < |q'| && q'[i].origin.Replay? ensures Replayed(log, q', i) {
      assert q'[i] == q[i] && Replayed(log, q, i);
    }
  }

  /** The adapter's log grew by a message that is no concern of this client any more. */
  lemma LogGrows(log: seq<Message>, m: Message, q: seq<Delivery>, from: nat, to: nat)
    requires QueueOk(log, q, from, to)
    ensures QueueOk(log + [m], q, from, to)
  {
    var log' := log + [m];
    assert log'[from..to] == log[from..to] && log'[..to] == log[..to];
    forall i | 0 <= i < |q| && q[i].origin.Greeting? ensures BlockAt(log', q, i + 1, q[i].origin.k) {
      assert BlockAt(log, q, i + 1, q[i].origin.k);
      assert log'[..q[i].origin.k] == log[..q[i].origin.k];
    }
    InBlockStays(log, q, log', q);
    forall i | 0 <= i < |q| && q[i].origin.Replay? ensures Replayed(log', q, i) {
      assert Replayed(log, q, i);
    }
  }

  /** The adapter's log grew by a message that is not broadcast. */
  lemma QuietMessage(log: seq<Message>, m: Message, q: seq<Delivery>, from: nat)
    requires QueueOk(log, q, from, |log|) && !IsBroadcast(m)
    ensures QueueOk(log + [m], q, from, |log| + 1)
  {
    var log' := log + [m];
    LogGrows(log, m, q, from, |log|);
    FoldAppend(log, m);
    FoldAppend(log[from..], m);
    assert log'[from..|log| + 1] == log[from..] + [m] && log'[..|log| + 1] == log + [m];
    assert log[from..|log|] == log[from..] && log[..|log|] == log;
  }

  /** A message that is not an event is queued. */
  lemma QuietDelivery(log: seq<Message>, q: seq<Delivery>, d: Delivery, from: nat, to: nat)
    requires QueueOk(log, q, from, to) && !IsEvent(d.msg)
    requires d.origin.Answer? || d.origin.Synthetic? || d.origin.Reverse?
    ensures QueueOk(log, q + [d], from, to)
  {
    QueueAppend(q, d);
    GreetedAppend(q, d);
    BlocksAppend(log, q, d);
  }

  /** An event is broadcast. */
  lemma Broadcast(log: seq<Message>, m: Message, q: seq<Delivery>, from: nat)
    requires QueueOk(log, q, from, |log|) && IsBroadcast(m)
    ensures QueueOk(log + [m], q + [Delivery(m, Event(|log|))], from, |log| + 1)
  {
    var log', d := log + [m], Delivery(m, Event(|log|));
    LogGrows(log, m, q, from, |log|);
    BlocksAppend(log', q, d);
    QueueAppend(q, d);
    GreetedAppend(q, d);
    FoldAppend(log, m);
    FoldAppend(log[from..], m);
    assert log'[from..|log| + 1] == log[from..] + [m] && log'[..|log| + 1] == log + [m];
    assert log[from..|log|] == log[from..] && log[..|log|] == log;
  }

  /** The events that the log is folded to have their effect whatever came before, and none on the other fold. */
  lemma {:induction false} Idempotent(log: seq<Message>, stop: Option<Message>, initialized: Option<Message>)
    ensures StopIn(log).Some? ==>
              StopAfter(stop, StopIn(log).value) == StopIn(log)
              && InitializedAfter(initialized, StopIn(log).value) == initialized
    ensures InitializedIn(log).Some? ==>
              InitializedAfter(initialized, InitializedIn(log).value) == InitializedIn(log)
              && StopAfter(stop, InitializedIn(log).value) == stop
  {
    if log != [] { Idempotent(log[..|log| - 1], stop, initialized); }
  }

  /** The view of a client after a replay block is that of the log. */
  lemma ReplayView(log: seq<Message>, q: seq<Delivery>)
    requires Agrees(StopIn(MessagesOf(q)), StopIn(log), false)
    requires Agrees(InitializedIn(MessagesOf(q)), InitializedIn(log), false)
    ensures StopIn(MessagesOf(q + ReplayBlock(log))) == StopIn(log)
    ensures InitializedIn(MessagesOf(q + ReplayBlock(log))) == InitializedIn(log)
    ensures EventsOf(q + ReplayBlock(log)) == EventsOf(q)
  {
    var a, b := Cached(InitializedIn(log), |log|), Cached(StopIn(log), |log|);
    InitializedReplayed(log, q);
    StopReplayed(log, q + a);
    assert q + ReplayBlock(log) == q + a + b;
  }

  lemma InitializedReplayed(log: seq<Message>, q: seq<Delivery>)
    requires Agrees(InitializedIn(MessagesOf(q)), InitializedIn(log), false)
    ensures var q' := q + Cached(InitializedIn(log), |log|);
      && StopIn(MessagesOf(q')) == StopIn(MessagesOf(q)) && InitializedIn(MessagesOf(q')) == InitializedIn(log)
      && EventsOf(q') == EventsOf(q)
  {
    Idempotent(log, StopIn(MessagesOf(q)), InitializedIn(MessagesOf(q)));
    if InitializedIn(log).Some? { QueueAppend(q, Delivery(InitializedIn(log).value, Replay(|log|))); }
    else { assert q + [] == q; }
  }

  lemma StopReplayed(log: seq<Message>, q: seq<Delivery>)
    requires Agrees(StopIn(MessagesOf(q)), StopIn(log), false)
    ensures var q' := q + Cached(StopIn(log), |log|);
      && StopIn(MessagesOf(q')) == StopIn(log) && InitializedIn(MessagesOf(q')) == InitializedIn(MessagesOf(q))
      && EventsOf(q') == EventsOf(q)
  {
    Idempotent(log, StopIn(MessagesOf(q)), InitializedIn(MessagesOf(q)));
    if StopIn(log).Some? { QueueAppend(q, Delivery(StopIn(log).value, Replay(|log|))); }
    else { assert q + [] == q; }
  }

  lemma BlocksGreet(log: seq<Message>, q: seq<Delivery>, g: Delivery)
    requires BlocksOk(log, q) && ReplaysOk(log, q) && g.origin.Greeting? && g.origin.k == |log|
    ensures BlocksOk(log, q + [g] + ReplayBlock(log)) && ReplaysOk(log, q + [g] + ReplayBlock(log))
  {
    var q' := q + [g] + ReplayBlock(log);
    forall i | 0 <= i < |q'| && q'[i].origin.Greeting? ensures BlockAt(log, q', i + 1, q'[i].origin.k) {
      if i < |q| {
        assert q'[i] == q[i];
        var n := |ReplayBlock(log[..q[i].origin.k])|;
        assert BlockAt(log, q, i + 1, q[i].origin.k);
        assert q'[i + 1..i + 1 + n] == q[i + 1..i + 1 + n];
      } else {
        assert log[..|log|] == log;
        assert q'[|q| + 1..] == ReplayBlock(log);
      }
    }
    InBlockStays(log, q, log, q');
    forall i | 0 <= i < |q'| && q'[i].origin.Replay? ensures Replayed(log, q', i) {
      if i < |q| { assert q'[i] == q[i] && Replayed(log, q, i); }
      else { assert log[..|log|] == log && InBlock(log, q', |q|, i); }
    }
  }

  /** An initialize is answered by the multiplexer. */
  lemma GreetQueue(log: seq<Message>, q: seq<Delivery>, g: Delivery, from: nat)
    requires QueueOk(log, q, from, |log|) && !IsEvent(g.msg)
    requires g.origin.Greeting? && g.origin.k == |log|
    ensures QueueOk(log, q + [g] + ReplayBlock(log), from, |log|)
  {
    assert log[..|log|] == log;
    QueueAppend(q, g);
    ReplayView(log, q + [g]);
    BlocksGreet(log, q, g);
  }
}
