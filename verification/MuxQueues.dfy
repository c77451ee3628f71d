/** In every reachable state each client's queue is as module ClientQueue describes, and the cached
    events are those of the adapter's whole log. */
module MuxQueues {
  import opened Messages
  import opened MuxModel
  import opened MuxInvariant
  import opened ClientQueue

  ghost predicate CacheOk(s: State) {
    s.stoppedEvent == StopIn(s.adapter) && s.initializedEvent == InitializedIn(s.adapter)
  }

  /** How much of the adapter's log a client has been connected for. */
  function EndOf(s: State, c: ClientId): nat {
    if c in s.left then s.left[c] else |s.adapter|
  }

  ghost predicate QueuesOk(s: State, bound: nat) {
    forall c {:trigger ClientOk(s, c, s.queues[c], bound)} :: c in s.queues ==> ClientOk(s, c, s.queues[c], bound)
  }

  ghost predicate ClientOk(s: State, c: ClientId, q: seq<Delivery>, bound: nat) {
    c in s.joined && QueueOk(s.adapter, q, s.joined[c], EndOf(s, c)) && Ordered(q, bound)
  }

  /** One queue changes and stays right. */
  lemma OneQueue(s: State, t: State, c: ClientId, bound: nat, bound': nat)
    requires QueuesOk(s, bound) && bound <= bound'
    requires c in t.queues && t == s.(queues := s.queues[c := t.queues[c]], fates := t.fates)
    requires ClientOk(s, c, t.queues[c], bound')
    ensures QueuesOk(t, bound')
  {
    forall x | x in t.queues ensures ClientOk(t, x, t.queues[x], bound') {
      if x != c { assert ClientOk(s, x, s.queues[x], bound); }
    }
  }

  ghost predicate Untouched(s: State, t: State) {
    && t.queues == s.queues && t.joined == s.joined && t.left == s.left && t.adapter == s.adapter
    && t.stoppedEvent == s.stoppedEvent && t.initializedEvent == s.initializedEvent
  }

  /** Nothing that the predicate reads changes. */
  lemma QueuesSame(s: State, t: State, bound: nat)
    requires QueuesOk(s, bound) && Untouched(s, t)
    ensures QueuesOk(t, bound) && (CacheOk(s) ==> CacheOk(t))
  {
    forall c | c in t.queues ensures ClientOk(t, c, t.queues[c], bound) {
      assert ClientOk(s, c, s.queues[c], bound);
    }
  }

  lemma DeliverKeeps(s: State, c: ClientId, d: Delivery, r: nat, f: Fate, bound: nat, bound': nat)
    requires Shape(s) && c in s.clients && QueuesOk(s, bound) && bound <= bound' && !IsEvent(d.msg)
    requires d.origin.Answer? || d.origin.Synthetic? || d.origin.Reverse?
    requires AdapterIndex(d.origin) == -1 || bound <= AdapterIndex(d.origin) < bound'
    ensures QueuesOk(Settle(Post(s, c, d), r, f), bound')
  {
    var q := QueueOf(s, c);
    assert ClientOk(s, c, q, bound);
    QuietDelivery(s.adapter, q, d, s.joined[c], |s.adapter|);
    OrderedAppend(q, d, bound, bound');
    OneQueue(s, Settle(Post(s, c, d), r, f), c, bound, bound');
  }

  lemma OrderedReplay(q: seq<Delivery>, log: seq<Message>, bound: nat)
    requires Ordered(q, bound)
    ensures Ordered(q + ReplayBlock(log), bound)
  {
  }

  lemma GreetingIsResponse(msg: Message, capabilities: Json)
    ensures IsResponse(GreetingReply(msg, capabilities)) && !IsEvent(GreetingReply(msg, capabilities))
    ensures IsResponse(SyntheticReply(msg)) && !IsEvent(SyntheticReply(msg))
  {
  }

  lemma ReplayQueue(s: State, c: ClientId, event: Option<Message>)
    requires c in s.queues
    ensures ReplayCached(s, c, event).queues == s.queues[c := s.queues[c] + Cached(event, |s.adapter|)]
    ensures ReplayCached(s, c, event).adapter == s.adapter
  {
    if event.None? {
      assert s.queues[c] + [] == s.queues[c];
      assert s.queues[c := s.queues[c]] == s.queues;
    }
  }

  lemma GreetQueues(s: State, c: ClientId, msg: Message, r: nat)
    requires CacheOk(s) && c in s.clients && c in s.queues
    ensures Greet(s, c, msg, r).queues ==
            s.queues[c := s.queues[c] + [Delivery(GreetingReply(msg, s.capabilities), Greeting(r, |s.adapter|))]
                          + ReplayBlock(s.adapter)]
  {
    var g := Delivery(GreetingReply(msg, s.capabilities), Greeting(r, |s.adapter|));
    var s1 := Settle(Post(s, c, g), r, AnsweredLocally(|QueueOf(s, c)|));
    var s2 := ReplayCached(s1, c, s.initializedEvent);
    ReplayQueue(s1, c, s.initializedEvent);
    ReplayQueue(s2, c, s.stoppedEvent);
    ThreeAppends(s.queues, c, [g], Cached(s.initializedEvent, |s.adapter|), Cached(s.stoppedEvent, |s.adapter|));
  }

  lemma ThreeAppends(queues: map<ClientId, seq<Delivery>>, c: ClientId,
                     x: seq<Delivery>, y: seq<Delivery>, z: seq<Delivery>)
    requires c in queues
    ensures queues[c := queues[c] + x][c := queues[c] + x + y][c := queues[c] + x + y + z] ==
            queues[c := queues[c] + x + (y + z)]
  {
    assert queues[c] + x + y + z == queues[c] + x + (y + z);
  }

  lemma GreetKeepsQueues(s: State, c: ClientId, msg: Message, r: nat, bound: nat)
    requires Shape(s) && CacheOk(s) && QueuesOk(s, bound)
    ensures QueuesOk(Greet(s, c, msg, r), bound)
  {
    if c in s.clients {
      var q := QueueOf(s, c);
      var g := Delivery(GreetingReply(msg, s.capabilities), Greeting(r, |s.adapter|));
      assert ClientOk(s, c, q, bound);
      GreetingIsResponse(msg, s.capabilities);
      GreetQueue(s.adapter, q, g, s.joined[c]);
      OrderedAppend(q, g, bound, bound);
      OrderedReplay(q + [g], s.adapter, bound);
      GreetQueues(s, c, msg, r);
      GreetFrame(s, c, msg, r);
      OneQueue(s, Greet(s, c, msg, r), c, bound, bound);
    }
  }

  lemma {:induction false} DrainKeepsQueues(s: State, bound: nat)
    requires Inv(s) && s.phase.Rank() >= 2 && CacheOk(s) && QueuesOk(s, bound)
    ensures QueuesOk(Drain(s), bound)
    decreases |s.buffered|
  {
    if s.buffered != [] {
      var b := s.buffered[0];
      var t := s.(buffered := s.buffered[1..]);
      TakeKeeps(s);
      assert BufferedOk(s, b);
      QueuesSame(s, t, bound);
      GreetKeeps(t, b.client, b.msg, b.req);
      GreetKeepsQueues(t, b.client, b.msg, b.req, bound);
      GreetFrame(t, b.client, b.msg, b.req);
      DrainKeepsQueues(Greet(t, b.client, b.msg, b.req), bound);
    }
  }

  /** The adapter says something that is not broadcast. */
  lemma QuietKeeps(s: State, m: Message, bound: nat)
    requires Shape(s) && CacheOk(s) && QueuesOk(s, bound) && !IsBroadcast(m)
    ensures CacheOk(s.(adapter := s.adapter + [m])) && QueuesOk(s.(adapter := s.adapter + [m]), bound)
  {
    var t := s.(adapter := s.adapter + [m]);
    FoldAppend(s.adapter, m);
    forall c | c in t.queues ensures ClientOk(t, c, t.queues[c], bound) {
      var q := s.queues[c];
      assert ClientOk(s, c, q, bound);
      if c in s.left { LogGrows(s.adapter, m, q, s.joined[c], s.left[c]); }
      else { QuietMessage(s.adapter, m, q, s.joined[c]); }
    }
  }

  lemma BroadcastKeepsClients(s: State, m: Message)
    requires Shape(s) && CacheOk(s) && QueuesOk(s, |s.adapter|) && IsBroadcast(m)
    ensures CacheOk(BroadcastEvent(s.(adapter := s.adapter + [m]), m, |s.adapter|))
    ensures QueuesOk(BroadcastEvent(s.(adapter := s.adapter + [m]), m, |s.adapter|), |s.adapter| + 1)
  {
    var k := |s.adapter|;
    var t := BroadcastEvent(s.(adapter := s.adapter + [m]), m, k);
    FoldAppend(s.adapter, m);
    forall c | c in t.queues ensures ClientOk(t, c, t.queues[c], k + 1) {
      var q := s.queues[c];
      assert ClientOk(s, c, q, k);
      if c in s.left {
        LogGrows(s.adapter, m, q, s.joined[c], s.left[c]);
      } else {
        Broadcast(s.adapter, m, q, s.joined[c]);
        OrderedAppend(q, Delivery(m, Event(k)), k, k + 1);
      }
    }
  }

  lemma ResponseKeepsClients(s: State, msg: Message)
    requires Inv(s) && CacheOk(s) && QueuesOk(s, |s.adapter|) && IsResponse(msg)
    ensures CacheOk(AdapterMessage(s, msg)) && QueuesOk(AdapterMessage(s, msg), |s.adapter| + 1)
  {
    QuietKeeps(s, msg, |s.adapter|);
    LogKeeps(s, msg);
    RouteResponseKeepsClients(s.(adapter := s.adapter + [msg]), RewriteStaleVariableError(msg), |s.adapter|);
  }

  lemma RouteResponseKeepsClients(s: State, m: Message, k: nat)
    requires Inv(s) && CacheOk(s) && QueuesOk(s, k) && IsResponse(m)
    ensures CacheOk(RouteResponse(s, m, k)) && QueuesOk(RouteResponse(s, m, k), k + 1)
  {
    CacheCapabilitiesKeeps(s, m);
    CacheCapabilitiesFrame(s, m);
    CacheCapabilitiesKeepsClients(s, m, k);
    Loosen(s, k);
    Loosen(CacheCapabilities(s, m), k);
    AnswerKeepsClients(CacheCapabilities(s, m), m, k);
  }

  lemma CacheCapabilitiesKeepsClients(s: State, m: Message, bound: nat)
    requires Inv(s) && CacheOk(s) && QueuesOk(s, bound)
    ensures QueuesOk(CacheCapabilities(s, m), bound)
  {
    if IsInitializeSuccess(m) && s.phase.Initializing? {
      var t := s.(phase := Initialized, capabilities := Get(m, Body));
      LearnKeeps(s, Get(m, Body));
      QueuesSame(s, t, bound);
      DrainKeepsQueues(t, bound);
    }
  }

  lemma AnswerKeepsClients(s: State, m: Message, k: nat)
    requires Inv(s) && CacheOk(s) && QueuesOk(s, k) && QueuesOk(s, k + 1) && IsResponse(m)
    ensures CacheOk(Resolve(s, m, k)) && QueuesOk(Resolve(s, m, k), k + 1)
  {
    var n := KeyOf(Get(m, RequestSeq));
    if n.Some? && n.value in s.pending { DeliverAnswerKeepsClients(s, n.value, m, k); }
  }

  lemma DeliverAnswerKeepsClients(s: State, n: int, m: Message, k: nat)
    requires Shape(s) && CacheOk(s) && QueuesOk(s, k) && QueuesOk(s, k + 1) && IsResponse(m) && n in s.pending
    ensures CacheOk(DeliverAnswer(s, n, m, k)) && QueuesOk(DeliverAnswer(s, n, m, k), k + 1)
  {
    var p, r := s.pending[n], ReqOf(s, n);
    var t := s.(pending := s.pending - {n});
    QueuesSame(s, t, k);
    QueuesSame(s, t, k + 1);
    if p.client in s.clients {
      NotAnEvent(m, p.clientSeq);
      assert Shape(t);
      DeliverKeeps(t, p.client, Delivery(m[RequestSeq := p.clientSeq], Answer(r, k)), r,
                   AnsweredByAdapter(|QueueOf(s, p.client)|, k), k, k + 1);
    }
  }

  lemma NotAnEvent(m: Message, number: Json)
    requires IsResponse(m)
    ensures !IsEvent(m[RequestSeq := number])
  {
  }

  lemma Loosen(s: State, bound: nat)
    requires QueuesOk(s, bound)
    ensures QueuesOk(s, bound + 1)
  {
    forall c | c in s.queues ensures ClientOk(s, c, s.queues[c], bound + 1) {
      assert ClientOk(s, c, s.queues[c], bound);
    }
  }

  lemma ReverseKeepsClients(s: State, msg: Message)
    requires Inv(s) && CacheOk(s) && QueuesOk(s, |s.adapter|) && !IsResponse(msg) && !IsEvent(msg)
    ensures CacheOk(AdapterMessage(s, msg)) && QueuesOk(AdapterMessage(s, msg), |s.adapter| + 1)
  {
    var k := |s.adapter|;
    var t := s.(adapter := s.adapter + [msg]);
    QuietKeeps(s, msg, k);
    Loosen(t, k);
    if IsKnownReverseRequest(msg) { RouteKeepsClients(t, msg, k); }
  }

  lemma RouteKeepsClients(s: State, msg: Message, k: nat)
    requires Shape(s) && CacheOk(s) && QueuesOk(s, k) && QueuesOk(s, k + 1) && !IsEvent(msg)
    ensures CacheOk(RouteReverseRequest(s, msg, k)) && QueuesOk(RouteReverseRequest(s, msg, k), k + 1)
  {
    var target := PickReverseRequestTarget(s.initOrder, s.initArgs, msg);
    if target.Some? && target.value in s.clients {
      DeliverKeeps(s, target.value, Delivery(msg, Reverse(k)), |s.fates|, Waiting, k, k + 1);
    }
  }

  lemma ClientRequestKeepsClients(s: State, c: ClientId, msg: Message)
    requires Inv(s) && CacheOk(s) && QueuesOk(s, |s.adapter|) && c in s.clients
    ensures CacheOk(ClientRequest(s, c, msg)) && QueuesOk(ClientRequest(s, c, msg), |s.adapter|)
  {
    QueuesSame(s, Record(s, c, msg), |s.adapter|);
    RecordShape(s, c, msg);
    HandleKeepsClients(Record(s, c, msg), c, msg, |s.requests|, KindOf(msg));
  }

  lemma HandleKeepsClients(s: State, c: ClientId, msg: Message, r: nat, kind: Kind)
    requires Shape(s) && CacheOk(s) && QueuesOk(s, |s.adapter|)
    ensures var t := HandleRequest(s, c, msg, r, kind); CacheOk(t) && QueuesOk(t, |s.adapter|)
  {
    if kind.Initialize? { InitializeKeepsClients(s, c, msg, r); }
    else if Intercepted(s.phase, kind) { SyntheticKeepsClients(s, c, msg, r); }
    else {
      ForwardFrame(Configure(s, kind), c, msg, r);
      QueuesSame(s, Forward(Configure(s, kind), c, msg, r), |s.adapter|);
    }
  }

  lemma RecordShape(s: State, c: ClientId, msg: Message)
    requires Shape(s) && c in s.clients
    ensures Shape(Record(s, c, msg))
  {
  }

  lemma InitializeKeepsClients(s: State, c: ClientId, msg: Message, r: nat)
    requires Shape(s) && CacheOk(s) && QueuesOk(s, |s.adapter|)
    ensures CacheOk(InitializeRequest(s, c, msg, r)) && QueuesOk(InitializeRequest(s, c, msg, r), |s.adapter|)
  {
    var u := Register(s, c, msg);
    QueuesSame(s, u, |s.adapter|);
    match s.phase
    case PreInit =>
      ForwardFrame(u.(phase := Initializing), c, msg, r);
      QueuesSame(s, Forward(u.(phase := Initializing), c, msg, r), |s.adapter|);
    case Initializing => QueuesSame(s, u.(buffered := u.buffered + [Buffered(c, msg, r)]), |s.adapter|);
    case _ =>
      GreetKeepsQueues(u, c, msg, r, |s.adapter|);
      GreetFrame(u, c, msg, r);
  }

  lemma SyntheticKeepsClients(s: State, c: ClientId, msg: Message, r: nat)
    requires Shape(s) && CacheOk(s) && QueuesOk(s, |s.adapter|)
    ensures CacheOk(ReplySynthetic(s, c, msg, r)) && QueuesOk(ReplySynthetic(s, c, msg, r), |s.adapter|)
  {
    if c in s.clients {
      GreetingIsResponse(msg, Null);
      DeliverKeeps(s, c, Delivery(SyntheticReply(msg), Synthetic(r)), r, AnsweredLocally(|QueueOf(s, c)|),
                   |s.adapter|, |s.adapter|);
    }
  }

  lemma ArrivalsKeepClients(s: State, step: Step)
    requires Inv(s) && CacheOk(s) && QueuesOk(s, |s.adapter|) && Enabled(s, step)
    requires step.Accept? || step.Disconnect?
    ensures CacheOk(Next(s, step)) && QueuesOk(Next(s, step), |s.adapter|)
  {
    var t := Next(s, step);
    forall c | c in t.queues ensures ClientOk(t, c, t.queues[c], |s.adapter|) {
      if c in s.queues { assert ClientOk(s, c, s.queues[c], |s.adapter|); }
      else { assert t.adapter[|t.adapter|..|t.adapter|] == []; }
    }
  }

  lemma NextKeepsClients(s: State, step: Step)
    requires Inv(s) && CacheOk(s) && QueuesOk(s, |s.adapter|) && Enabled(s, step)
    ensures CacheOk(Next(s, step)) && QueuesOk(Next(s, step), |Next(s, step).adapter|)
  {
    match step
    case FromClient(c, msg) => if IsRequest(msg) { ClientRequestKeepsClients(s, c, msg); RequestFrame(s, c, msg); }
    case FromAdapter(msg) =>
      AdapterFrame(s, msg);
      if IsResponse(msg) { ResponseKeepsClients(s, msg); }
      else if IsBroadcast(msg) { BroadcastKeepsClients(s, msg); }
      else if IsEvent(msg) { QuietKeeps(s, msg, |s.adapter|); Loosen(Next(s, step), |s.adapter|); }
      else { ReverseKeepsClients(s, msg); }
    case _ => ArrivalsKeepClients(s, step);
  }

  lemma {:induction false} RunQueues(run: Run, i: nat)
    requires Legal(run) && i < |run.states|
    ensures CacheOk(run.states[i]) && QueuesOk(run.states[i], |run.states[i].adapter|)
  {
    if i > 0 {
      RunQueues(run, i - 1);
      RunInvariant(run, i - 1);
      assert Follows(run, i - 1);
      NextKeepsClients(run.states[i - 1], run.steps[i - 1]);
    }
  }

  lemma ReachableQueues(s: State)
    requires Reachable(s)
    ensures CacheOk(s) && QueuesOk(s, |s.adapter|)
  {
    var run :| Legal(run) && s in run.states;
    var i :| 0 <= i < |run.states| && run.states[i] == s;
    RunQueues(run, i);
  }
}
