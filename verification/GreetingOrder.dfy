/** A client's initializes are answered by the multiplexer in the order in which they came, buffered or not. */
module GreetingOrder {
  import opened Messages
  import opened MuxModel
  import opened MuxInvariant

  /** The greetings in a queue are for ever later requests. */
  ghost predicate Ascends(q: seq<Delivery>) {
    forall i, j :: 0 <= i < j < |q| && q[i].origin.Greeting? && q[j].origin.Greeting? ==>
      q[i].origin.req < q[j].origin.req
  }

  ghost predicate AllAscend(s: State) {
    forall c :: c in s.queues ==> Ascends(s.queues[c])
  }

  /** Those in the queue are all for requests before r. */
  ghost predicate OnlyBefore(q: seq<Delivery>, r: nat) {
    forall i :: 0 <= i < |q| && q[i].origin.Greeting? ==> q[i].origin.req < r
  }

  ghost predicate AllBefore(s: State, r: nat) {
    forall c :: c in s.queues ==> OnlyBefore(s.queues[c], r)
  }

  // ---------------------------------------------------------------- steps

  lemma PostAscends(s: State, c: ClientId, d: Delivery, f: Fate, r: nat)
    requires AllAscend(s) && (d.origin.Greeting? ==> OnlyBefore(QueueOf(s, c), d.origin.req))
    ensures AllAscend(Settle(Post(s, c, d), r, f)) && AllAscend(Post(s, c, d))
  {
    var q, q' := QueueOf(s, c), QueueOf(s, c) + [d];
    assert Ascends(q') by { assert Ascends(q); }
    assert Post(s, c, d).queues == s.queues[c := q'];
  }

  lemma PostBefore(s: State, c: ClientId, d: Delivery, r: nat)
    requires AllBefore(s, r) && (d.origin.Greeting? ==> d.origin.req < r)
    ensures AllBefore(Post(s, c, d), r)
  {
    assert Post(s, c, d).queues == s.queues[c := QueueOf(s, c) + [d]];
  }

  lemma ReplayAscends(s: State, c: ClientId, event: Option<Message>, r: nat)
    requires AllAscend(s)
    ensures AllAscend(ReplayCached(s, c, event)) && (AllBefore(s, r) ==> AllBefore(ReplayCached(s, c, event), r))
  {
    if event.Some? {
      var d := Delivery(event.value, Replay(|s.adapter|));
      PostAscends(s, c, d, Waiting, 0);
      if AllBefore(s, r) { PostBefore(s, c, d, r); }
    }
  }

  lemma GreetAscends(s: State, c: ClientId, msg: Message, r: nat, n: nat)
    requires AllAscend(s) && AllBefore(s, r) && r < n
    ensures AllAscend(Greet(s, c, msg, r)) && AllBefore(Greet(s, c, msg, r), n)
  {
    assert AllBefore(s, n);
    if c in s.clients {
      var d := Delivery(GreetingReply(msg, s.capabilities), Greeting(r, |s.adapter|));
      var f := AnsweredLocally(|QueueOf(s, c)|);
      var t := Settle(Post(s, c, d), r, f);
      PostAscends(s, c, d, f, r);
      PostBefore(s, c, d, n);
      ReplayAscends(t, c, s.initializedEvent, n);
      ReplayAscends(ReplayCached(t, c, s.initializedEvent), c, s.stoppedEvent, n);
    }
  }

  lemma {:induction false} DrainAscends(s: State)
    requires AllAscend(s) && (s.buffered != [] ==> AllBefore(s, s.buffered[0].req))
    requires forall i, j :: 0 <= i < j < |s.buffered| ==> s.buffered[i].req < s.buffered[j].req
    ensures AllAscend(Drain(s))
    decreases |s.buffered|
  {
    if s.buffered != [] {
      var b := s.buffered[0];
      var t := s.(buffered := s.buffered[1..]);
      var n := if t.buffered == [] then b.req + 1 else t.buffered[0].req;
      GreetAscends(t, b.client, b.msg, b.req, n);
      GreetFrame(t, b.client, b.msg, b.req);
      DrainAscends(Greet(t, b.client, b.msg, b.req));
    }
  }

  lemma NoneGreetedYet(s: State, r: nat)
    requires Inv(s) && s.phase.Rank() < 2
    ensures AllBefore(s, r)
  {
    forall c, i | c in s.queues && 0 <= i < |s.queues[c]| ensures !s.queues[c][i].origin.Greeting? {
      assert ContentOk(s, s.queues[c][i]);
    }
  }

  lemma GreetedAreKnown(s: State)
    requires Inv(s)
    ensures AllBefore(s, |s.requests|)
  {
    forall c, i | c in s.queues && 0 <= i < |s.queues[c]| && s.queues[c][i].origin.Greeting?
      ensures s.queues[c][i].origin.req < |s.requests|
    {
      assert ContentOk(s, s.queues[c][i]);
    }
  }

  lemma ResponseAscends(s: State, m: Message, k: nat)
    requires Inv(s) && AllAscend(s)
    ensures AllAscend(RouteResponse(s, m, k))
  {
    var t := s.(phase := Initialized, capabilities := Get(m, Body));
    if s.phase.Initializing? {
      if s.buffered != [] { NoneGreetedYet(s, s.buffered[0].req); }
      DrainAscends(t);
    }
    ResolveAscends(CacheCapabilities(s, m), m, k);
  }

  lemma ResolveAscends(s: State, m: Message, k: nat)
    requires AllAscend(s)
    ensures AllAscend(Resolve(s, m, k))
  {
    var key := KeyOf(Get(m, RequestSeq));
    if key.Some? && key.value in s.pending {
      var p, r := s.pending[key.value], ReqOf(s, key.value);
      var t := s.(pending := s.pending - {key.value});
      PostAscends(t, p.client, Delivery(m[RequestSeq := p.clientSeq], Answer(r, k)),
                  AnsweredByAdapter(|QueueOf(s, p.client)|, k), r);
    }
  }

  lemma BroadcastAscends(s: State, m: Message, k: nat)
    requires AllAscend(s)
    ensures AllAscend(BroadcastEvent(s, m, k))
  {
    var t := BroadcastEvent(s, m, k);
    forall c | c in t.queues ensures Ascends(t.queues[c]) {
      assert Ascends(s.queues[c]) && t.queues[c][..|s.queues[c]|] == s.queues[c];
    }
  }

  lemma DispatchAscends(s: State, msg: Message, k: nat, routing: Routing)
    requires Inv(s) && AllAscend(s)
    ensures AllAscend(Dispatch(s, msg, k, routing))
  {
    match routing
    case ToSender => ResponseAscends(s, RewriteStaleVariableError(msg), k);
    case ToAll => BroadcastAscends(s, msg, k);
    case ToTarget =>
      var target := PickReverseRequestTarget(s.initOrder, s.initArgs, msg);
      if target.Some? { PostAscends(s, target.value, Delivery(msg, Reverse(k)), Waiting, 0); }
    case Dropped =>
  }

  lemma HandleAscends(s: State, c: ClientId, msg: Message, r: nat, kind: Kind)
    requires AllAscend(s) && AllBefore(s, r)
    ensures AllAscend(HandleRequest(s, c, msg, r, kind))
  {
    if kind.Initialize? {
      GreetAscends(Register(s, c, msg), c, msg, r, r + 1);
    } else if Intercepted(s.phase, kind) {
      PostAscends(s, c, Delivery(SyntheticReply(msg), Synthetic(r)), AnsweredLocally(|QueueOf(s, c)|), r);
    } else {
      ForwardFrame(Configure(s, kind), c, msg, r);
    }
  }

  lemma NextAscends(s: State, step: Step)
    requires Inv(s) && AllAscend(s)
    ensures AllAscend(Next(s, step))
  {
    match step
    case FromClient(c, msg) =>
      if IsRequest(msg) {
        GreetedAreKnown(s);
        HandleAscends(Record(s, c, msg), c, msg, |s.requests|, KindOf(msg));
      }
    case FromAdapter(msg) =>
      LogKeeps(s, msg);
      DispatchAscends(s.(adapter := s.adapter + [msg]), msg, |s.adapter|, RoutingOf(msg));
    case _ =>
  }

  // ---------------------------------------------------------------- runs

  lemma {:induction false} RunAscends(run: Run, i: nat)
    requires Legal(run) && i < |run.states|
    ensures AllAscend(run.states[i])
  {
    if i > 0 {
      RunAscends(run, i - 1);
      RunInvariant(run, i - 1);
      assert Follows(run, i - 1);
      NextAscends(run.states[i - 1], run.steps[i - 1]);
    }
  }

  /** The answers to a client's initializes come in the order of these. */
  lemma InitializesAreAnsweredInOrder(s: State, c: ClientId, i: nat, j: nat)
    requires Reachable(s) && i < j < |QueueOf(s, c)|
    requires QueueOf(s, c)[i].origin.Greeting? && QueueOf(s, c)[j].origin.Greeting?
    ensures QueueOf(s, c)[i].origin.req < QueueOf(s, c)[j].origin.req < |s.requests|
  {
    var run :| Legal(run) && s in run.states;
    var n :| 0 <= n < |run.states| && run.states[n] == s;
    RunAscends(run, n);
    RunInvariant(run, n);
    GreetedAreKnown(s);
  }
}
