/** A client that has left does not come back, and nothing more is queued to it. */
module Departures {
  import opened Messages
  import opened MuxModel
  import opened MuxInvariant

  ghost predicate Untouched(s: State, t: State, c: ClientId) {
    QueueOf(t, c) == QueueOf(s, c)
  }

  /** Nothing is queued to a client that is not connected. */
  lemma PostSkips(s: State, c': ClientId, d: Delivery, r: nat, f: Fate, c: ClientId)
    requires c' != c
    ensures Untouched(s, Settle(Post(s, c', d), r, f), c)
  {
  }

  lemma ReplaySkips(s: State, c': ClientId, event: Option<Message>, c: ClientId)
    requires c' != c
    ensures Untouched(s, ReplayCached(s, c', event), c)
  {
  }

  lemma GreetSkips(s: State, c': ClientId, msg: Message, r: nat, c: ClientId)
    requires c !in s.clients
    ensures Untouched(s, Greet(s, c', msg, r), c)
  {
    if c' in s.clients {
      var d, f := Delivery(GreetingReply(msg, s.capabilities), Greeting(r, |s.adapter|)),
                  AnsweredLocally(|QueueOf(s, c')|);
      var t := Settle(Post(s, c', d), r, f);
      PostSkips(s, c', d, r, f, c);
      ReplaySkips(t, c', s.initializedEvent, c);
      ReplaySkips(ReplayCached(t, c', s.initializedEvent), c', s.stoppedEvent, c);
    }
  }

  lemma {:induction false} DrainSkips(s: State, c: ClientId)
    requires c !in s.clients
    ensures Untouched(s, Drain(s), c)
    decreases |s.buffered|
  {
    if s.buffered != [] {
      var b := s.buffered[0];
      var t := s.(buffered := s.buffered[1..]);
      GreetSkips(t, b.client, b.msg, b.req, c);
      GreetFrame(t, b.client, b.msg, b.req);
      DrainSkips(Greet(t, b.client, b.msg, b.req), c);
    }
  }

  lemma ResponseSkips(s: State, m: Message, k: nat, c: ClientId)
    requires c !in s.clients
    ensures Untouched(s, RouteResponse(s, m, k), c)
  {
    DrainSkips(s.(phase := Initialized, capabilities := Get(m, Body)), c);
    CacheCapabilitiesFrame(s, m);
    ResolveSkips(CacheCapabilities(s, m), m, k, c);
  }

  lemma ResolveSkips(s: State, m: Message, k: nat, c: ClientId)
    requires c !in s.clients
    ensures Untouched(s, Resolve(s, m, k), c)
  {
  }

  lemma DispatchSkips(s: State, msg: Message, k: nat, routing: Routing, c: ClientId)
    requires c !in s.clients
    ensures Untouched(s, Dispatch(s, msg, k, routing), c)
  {
    ResponseSkips(s, RewriteStaleVariableError(msg), k, c);
  }

  lemma HandleSkips(s: State, c': ClientId, msg: Message, r: nat, kind: Kind, c: ClientId)
    requires c !in s.clients
    ensures Untouched(s, HandleRequest(s, c', msg, r, kind), c)
  {
    if kind.Initialize? {
      GreetSkips(Register(s, c', msg), c', msg, r, c);
    } else if Intercepted(s.phase, kind) {
      if c' in s.clients {
        PostSkips(s, c', Delivery(SyntheticReply(msg), Synthetic(r)), r, AnsweredLocally(|QueueOf(s, c')|), c);
      }
    } else {
      ForwardFrame(Configure(s, kind), c', msg, r);
    }
  }

  ghost predicate Gone(s: State, c: ClientId) {
    c < s.nextClient && c !in s.clients
  }

  lemma NextSkips(s: State, step: Step, c: ClientId)
    requires Gone(s, c)
    ensures Gone(Next(s, step), c) && Untouched(s, Next(s, step), c)
  {
    match step
    case Accept =>
    case FromClient(c', msg) =>
      if IsRequest(msg) {
        RequestFrame(s, c', msg);
        HandleSkips(Record(s, c', msg), c', msg, |s.requests|, KindOf(msg), c);
      }
    case FromAdapter(msg) =>
      AdapterFrame(s, msg);
      DispatchSkips(s.(adapter := s.adapter + [msg]), msg, |s.adapter|, RoutingOf(msg), c);
    case Disconnect(c') => WithoutContents(s.clients, c');
  }

  /** A client that has left does not come back, and its queue stays as it was. */
  lemma {:induction false} LeftForGood(run: Run, i: nat, j: nat, c: ClientId)
    requires Legal(run) && i <= j < |run.states| && Gone(run.states[i], c)
    ensures Gone(run.states[j], c) && Untouched(run.states[i], run.states[j], c)
    decreases j
  {
    if i < j {
      LeftForGood(run, i, j - 1, c);
      assert Follows(run, j - 1);
      NextSkips(run.states[j - 1], run.steps[j - 1], c);
    }
  }
}
