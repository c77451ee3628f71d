/** The multiplexer with its mutable fields (src/dap_mux/mux.py). Every handler is proved to do to the
    ghost field `model` what `MuxModel.Next` does, and to extend the ghost field `run` by its step; the fields
    always agree with the model, and the model is the last state of the run. So whatever holds of reachable
    states and of runs holds of this class (`ModelIsReachable`). */
module Mux {
  import opened Messages
  import opened MuxModel
  import MuxInvariant
  import opened ClientQueue
  import opened SequenceMap
  import opened Connections

  class Multiplexer {
    const seqMap: SeqMap
    const upstream: SendQueue
    // The dict of clients: its entries and their insertion order.
    var clients: map<ClientId, SendQueue>
    var clientOrder: seq<ClientId>
    var clientCounter: ClientId
    var phase: Phase
    var pendingInitialize: seq<(ClientId, Message)>
    var cachedCapabilities: Json
    // The dict of initialize arguments, likewise.
    var clientInitArgs: map<ClientId, Json>
    var initOrder: seq<ClientId>
    var initializedEvent: Option<Message>
    var lastStoppedEvent: Option<Message>

    ghost var model: State
    ghost var run: Run

    ghost function Queues(): set<object>
      reads this
    {
      set c | c in clients :: clients[c]
    }

    ghost function Footprint(): set<object>
      reads this
    {
      {this, seqMap, upstream} + Queues()
    }

    /** The fields hold what the model holds. */
    ghost predicate Valid()
      reads Footprint()
    {
      Agrees() && BufferAgrees()
    }

    /** And the model is where the steps so far have led. */
    ghost predicate Sound()
      reads Footprint()
    {
      Valid() && Legal(run) && run.states[|run.steps|] == model
    }

    /** The model has taken a step. */
    ghost method Took(step: Step)
      requires Valid() && Legal(run)
      requires Enabled(run.states[|run.steps|], step) && model == Next(run.states[|run.steps|], step)
      modifies this`run
      ensures Sound() && run.steps == old(run).steps + [step]
    {
      run := MuxInvariant.OneMore(run, step);
    }

    ghost predicate BufferAgrees()
      reads this
    {
      && |pendingInitialize| == |model.buffered|
      && forall i :: 0 <= i < |pendingInitialize| ==>
           pendingInitialize[i] == (model.buffered[i].client, model.buffered[i].msg)
    }

    /** All but the buffer. */
    ghost predicate Agrees()
      reads Footprint()
    {
      && phase == model.phase && cachedCapabilities == model.capabilities
      && clientInitArgs == model.initArgs && initOrder == model.initOrder
      && initializedEvent == model.initializedEvent && lastStoppedEvent == model.stoppedEvent
      && clientOrder == model.clients && clientCounter == model.nextClient
      && ClientsOk() && PendingAgrees() && QueuesAgree()
    }

    ghost predicate ClientsOk()
      reads this
    {
      && (forall c: ClientId :: c in clients <==> c in clientOrder)
      && (forall c :: c in clients ==> c < clientCounter && clients[c].owner == Some(c))
      && upstream.owner == None && MuxInvariant.Ascending(clientOrder)
    }

    ghost predicate PendingAgrees()
      reads this, seqMap
    {
      && seqMap.nextSeq == model.nextSeq
      && (forall n :: n in seqMap.pending <==> n in model.pending)
      && (forall n :: n in seqMap.pending ==>
            Pending(seqMap.pending[n].client, seqMap.pending[n].clientSeq) == model.pending[n])
    }

    ghost predicate QueuesAgree()
      reads Footprint()
    {
      && upstream.Everything() == UpstreamMessages(model.upstream)
      && forall c :: c in clients ==> c in model.queues && clients[c].Everything() == MessagesOf(model.queues[c])
    }

    static function UpstreamMessages(log: seq<Forwarded>): seq<Message> {
      seq(|log|, i requires 0 <= i < |log| => log[i].msg)
    }

    constructor ()
      ensures Sound() && run.steps == [] && model == INITIAL && fresh(Footprint())
    {
      seqMap := new SeqMap();
      upstream := new SendQueue(None);
      clients, clientOrder, clientCounter := map[], [], 0;
      phase, pendingInitialize, cachedCapabilities := PreInit, [], Null;
      clientInitArgs, initOrder, initializedEvent, lastStoppedEvent := map[], [], None, None;
      model, run := INITIAL, Run([], [INITIAL]);
      new;
      MuxInvariant.EmptyRun();
    }

    /** `_accept_client`. */
    method AcceptClient() returns (c: ClientId)
      requires Sound()
      modifies this
      ensures Sound() && run.steps == old(run).steps + [Accept] && model == Next(old(model), Accept)
      ensures c == old(clientCounter) && clients.Keys == old(clients).Keys + {c} && fresh(clients[c])
      ensures forall x :: x in old(clients) ==> clients[x] == old(clients)[x]
    {
      c := clientCounter;
      var client := new SendQueue(Some(c));
      Enroll(client);
      Took(Accept);
    }

    method Enroll(client: SendQueue)
      requires Valid() && client.Everything() == [] && client.owner == Some(clientCounter)
      modifies this`clients, this`clientOrder, this`clientCounter, this`model
      ensures Valid() && model == MuxModel.AcceptClient(old(model))
      ensures clients == old(clients)[old(clientCounter) := client]
    {
      var c := clientCounter;
      clientCounter := clientCounter + 1;
      clients := clients[c := client];
      clientOrder := clientOrder + [c];
      model := MuxModel.AcceptClient(model);
      assert forall x :: x in clientOrder <==> x in old(clientOrder) || x == c;
      MuxInvariant.AscendingAppend(old(clientOrder), c);
    }

    // ---------------------------------------------------------------- sending

    /** `client.send(msg)` for a connected client. */
    method SendTo(c: ClientId, msg: Message, ghost origin: Origin)
      requires Agrees() && c in clients
      modifies clients[c], this`model
      ensures Agrees() && model == Post(old(model), c, Delivery(msg, origin))
    {
      clients[c].Send(msg);
      ghost var d := Delivery(msg, origin);
      assert MessagesOf(model.queues[c] + [d]) == MessagesOf(model.queues[c]) + [msg];
      model := Post(model, c, d);
    }

    ghost method Settled(r: nat, f: Fate)
      requires Agrees()
      modifies this`model
      ensures Agrees() && model == Settle(old(model), r, f)
    {
      model := Settle(model, r, f);
    }

    /** `_respond_synthetic_success`. */
    method RespondSyntheticSuccess(c: ClientId, msg: Message, ghost r: nat)
      requires Agrees()
      modifies Queues(), this`model
      ensures Agrees() && model == ReplySynthetic(old(model), c, msg, r)
    {
      if c in clients {
        var response: Message := map[
          Seq := Number(0), Type := String("response"), RequestSeq := Get(msg, Seq),
          Success := Bool(true), Command := GetOr(msg, Command, String(""))];
        ghost var at := |QueueOf(model, c)|;
        SendTo(c, response, Synthetic(r));
        Settled(r, AnsweredLocally(at));
      }
    }

    method ReplayEvent(c: ClientId, event: Option<Message>)
      requires Agrees() && c in clients
      modifies clients[c], this`model
      ensures Agrees() && model == ReplayCached(old(model), c, event)
    {
      if event.Some? { SendTo(c, event.value, Replay(|model.adapter|)); }
    }

    /** `_respond_with_cached_initialize`. */
    method RespondWithCachedInitialize(c: ClientId, msg: Message, ghost r: nat)
      requires Agrees()
      modifies Queues(), this`model
      ensures Agrees() && model == Greet(old(model), c, msg, r)
    {
      if c in clients {
        var response: Message := map[
          Seq := Number(0), Type := String("response"), RequestSeq := Get(msg, Seq),
          Success := Bool(true), Command := String("initialize")];
        if cachedCapabilities != Null {
          response := response[Body := cachedCapabilities];
        }
        ghost var at := |QueueOf(model, c)|;
        SendTo(c, response, Greeting(r, |model.adapter|));
        Settled(r, AnsweredLocally(at));
        ReplayEvent(c, initializedEvent);
        ReplayEvent(c, lastStoppedEvent);
      }
    }

    // ---------------------------------------------------------------- client messages

    /** Allocate a proxy number and put the request on the upstream queue; `now` is the clock. */
    method ForwardRequest(c: ClientId, msg: Message, now: real, ghost r: nat)
      requires Valid() && Seq in msg
      modifies seqMap, upstream, this`model
      ensures Valid() && model == Forward(old(model), c, msg, r)
    {
      var proxySeq := seqMap.Allocate(c, msg[Seq], now);
      var forwarded := msg[Seq := Number(proxySeq)];
      upstream.Send(forwarded);
      ghost var log := model.upstream;
      model := Forward(model, c, msg, r);
      assert UpstreamMessages(model.upstream) == UpstreamMessages(log) + [forwarded];
    }

    /** `_handle_client_message`. */
    method HandleClientMessage(c: ClientId, msg: Message, now: real)
      requires Sound() && Enabled(model, FromClient(c, msg))
      modifies Footprint()
      ensures Sound() && run.steps == old(run).steps + [FromClient(c, msg)]
      ensures model == Next(old(model), FromClient(c, msg))
      ensures clients == old(clients)
    {
      if IsRequest(msg) {
        ghost var r := |model.requests|;
        model := Record(model, c, msg);
        RouteRequest(c, msg, KindOf(msg), now, r);
      }
      Took(FromClient(c, msg));
    }

    /** The branches of `_handle_client_message`, in their order. */
    method RouteRequest(c: ClientId, msg: Message, kind: Kind, now: real, ghost r: nat)
      requires Valid() && Seq in msg
      modifies Footprint()
      ensures Valid() && model == HandleRequest(old(model), c, msg, r, kind)
      ensures clients == old(clients) && run == old(run)
    {
      if kind.Initialize? {
        RouteInitialize(c, msg, now, r);
        return;
      }
      RouteOther(c, msg, kind, now, r);
    }

    /** Likewise, for all but initialize. */
    method RouteOther(c: ClientId, msg: Message, kind: Kind, now: real, ghost r: nat)
      requires Valid() && Seq in msg && !kind.Initialize?
      modifies Footprint()
      ensures Valid() && model == HandleRequest(old(model), c, msg, r, kind)
      ensures clients == old(clients) && run == old(run)
    {
      if kind.Start? && phase.Configured? {
        RespondSyntheticSuccess(c, msg, r);
        return;
      }
      if kind.ConfigurationDone? {
        RouteConfigurationDone(c, msg, kind, now, r);
        return;
      }
      if kind.Ending? {
        RespondSyntheticSuccess(c, msg, r);
        return;
      }
      ForwardRequest(c, msg, now, r);
    }

    method RouteConfigurationDone(c: ClientId, msg: Message, kind: Kind, now: real, ghost r: nat)
      requires Valid() && Seq in msg && kind.ConfigurationDone?
      modifies Footprint()
      ensures Valid() && model == HandleRequest(old(model), c, msg, r, kind)
      ensures clients == old(clients) && run == old(run)
    {
      if phase.Configured? {
        RespondSyntheticSuccess(c, msg, r);
        return;
      }
      ForwardInPhase(Configured, c, msg, now, r);
    }

    /** Enter a phase before forwarding, so that a request in the meantime is treated accordingly. */
    method ForwardInPhase(next: Phase, c: ClientId, msg: Message, now: real, ghost r: nat)
      requires Valid() && Seq in msg
      modifies seqMap, upstream, this`phase, this`model
      ensures Valid() && model == Forward(old(model).(phase := next), c, msg, r)
    {
      EnterPhase(next);
      ForwardRequest(c, msg, now, r);
    }

    method EnterPhase(next: Phase)
      requires Valid()
      modifies this`phase, this`model
      ensures Valid() && model == old(model).(phase := next)
    {
      phase, model := next, model.(phase := next);
    }

    method BufferInitialize(c: ClientId, msg: Message, ghost r: nat)
      requires Valid()
      modifies this`pendingInitialize, this`model
      ensures Valid() && model == old(model).(buffered := old(model).buffered + [Buffered(c, msg, r)])
    {
      pendingInitialize := pendingInitialize + [(c, msg)];
      model := model.(buffered := model.buffered + [Buffered(c, msg, r)]);
    }

    /** `_client_init_args[client_id] = ...`: a new key goes last, a known one keeps its place. */
    method CacheArguments(c: ClientId, msg: Message)
      requires Valid()
      modifies this`clientInitArgs, this`initOrder, this`model
      ensures Valid() && model == Register(old(model), c, msg)
    {
      if c !in clientInitArgs { initOrder := initOrder + [c]; }
      clientInitArgs := clientInitArgs[c := GetOr(msg, Arguments, Object(map[]))];
      model := Register(model, c, msg);
    }

    /** The branches of `_handle_client_message` for initialize. */
    method RouteInitialize(c: ClientId, msg: Message, now: real, ghost r: nat)
      requires Valid() && Seq in msg
      modifies Footprint()
      ensures Valid() && model == InitializeRequest(old(model), c, msg, r)
      ensures clients == old(clients) && run == old(run)
    {
      CacheArguments(c, msg);
      RouteRegistered(c, msg, now, r);
    }

    method RouteRegistered(c: ClientId, msg: Message, now: real, ghost r: nat)
      requires Valid() && Seq in msg
      modifies Footprint()
      ensures Valid() && model == InitializeByPhase(old(model), c, msg, r)
      ensures clients == old(clients) && run == old(run)
    {
      if phase.Initialized? || phase.Configured? {
        MuxInvariant.GreetFrame(model, c, msg, r);
        RespondWithCachedInitialize(c, msg, r);
        return;
      }
      RouteUncached(c, msg, now, r);
    }

    method RouteUncached(c: ClientId, msg: Message, now: real, ghost r: nat)
      requires Valid() && Seq in msg && (phase.PreInit? || phase.Initializing?)
      modifies seqMap, upstream, this`phase, this`model, this`pendingInitialize
      ensures Valid() && model == InitializeByPhase(old(model), c, msg, r)
    {
      if phase.Initializing? {
        BufferInitialize(c, msg, r);
        return;
      }
      ForwardInPhase(Initializing, c, msg, now, r);
    }

    // ---------------------------------------------------------------- adapter messages

    /** `_handle_upstream_message`. */
    method HandleUpstreamMessage(msg: Message)
      requires Sound() && Enabled(model, FromAdapter(msg))
      modifies Footprint()
      ensures Sound() && run.steps == old(run).steps + [FromAdapter(msg)]
      ensures model == Next(old(model), FromAdapter(msg))
      ensures clients == old(clients)
    {
      RouteUpstreamMessage(msg);
      Took(FromAdapter(msg));
    }

    method RouteUpstreamMessage(msg: Message)
      requires Valid()
      modifies Footprint()
      ensures Valid() && model == AdapterMessage(old(model), msg)
      ensures clients == old(clients) && run == old(run)
    {
      ghost var k := |model.adapter|;
      Log(msg);
      RouteLogged(msg, k);
    }

    method RouteLogged(msg: Message, ghost k: nat)
      requires Valid()
      modifies Footprint()
      ensures Valid() && model == Dispatch(old(model), msg, k, RoutingOf(msg))
      ensures clients == old(clients) && run == old(run)
    {
      if IsResponse(msg) {
        RouteResponseMessage(RewriteStaleVariableError(msg), k);
      } else if IsEvent(msg) {
        if ShouldFilterEvent(msg) { return; }
        BroadcastEventMessage(msg, k);
      } else if IsKnownReverseRequest(msg) {
        RouteReverse(msg, k);
      }
    }

    ghost method Log(msg: Message)
      requires Valid()
      modifies this`model
      ensures Valid() && model == old(model).(adapter := old(model).adapter + [msg])
    {
      model := model.(adapter := model.adapter + [msg]);
    }

    /** `_route_response`. */
    method RouteResponseMessage(m: Message, ghost k: nat)
      requires Valid()
      modifies Footprint()
      ensures Valid() && model == RouteResponse(old(model), m, k)
      ensures clients == old(clients) && run == old(run)
    {
      if Get(m, RequestSeq).Null? { return; }
      LearnCapabilities(m);
      var key := KeyOf(Get(m, RequestSeq));
      if key.Some? { ResolveResponse(key.value, m, k); }
    }

    /** Cache the capabilities of the first initialize response. */
    method LearnCapabilities(m: Message)
      requires Valid()
      modifies this`phase, this`cachedCapabilities, this`pendingInitialize, this`model, Queues()
      ensures Valid() && model == CacheCapabilities(old(model), m)
    {
      if IsInitializeSuccess(m) && phase.Initializing? {
        phase, cachedCapabilities := Initialized, Get(m, Body);
        model := model.(phase := Initialized, capabilities := Get(m, Body));
        AnswerBuffered();
      }
    }

    /** The loop over the buffered initializes, and the clearing of the buffer. */
    method AnswerBuffered()
      requires Valid()
      modifies Queues(), this`model, this`pendingInitialize
      ensures Valid() && model == Drain(old(model))
    {
      AnswerEach();
      pendingInitialize := [];
    }

    method AnswerEach()
      requires Valid()
      modifies Queues(), this`model
      ensures Agrees() && model == Drain(old(model)) && model.buffered == []
    {
      ghost var start := model;
      for i := 0 to |pendingInitialize|
        invariant Agrees()
        invariant model.buffered == start.buffered[i..] && Drain(model) == Drain(start)
      {
        AnswerOldest(pendingInitialize[i].0, pendingInitialize[i].1);
      }
    }

    method AnswerOldest(c: ClientId, msg: Message)
      requires Agrees() && model.buffered != [] && c == model.buffered[0].client && msg == model.buffered[0].msg
      modifies Queues(), this`model
      ensures Agrees() && Drain(model) == Drain(old(model)) && model.buffered == old(model).buffered[1..]
    {
      ghost var b := model.buffered[0];
      TakeOldest();
      MuxInvariant.GreetFrame(model, c, msg, b.req);
      RespondWithCachedInitialize(c, msg, b.req);
    }

    ghost method TakeOldest()
      requires Agrees() && model.buffered != []
      modifies this`model
      ensures Agrees() && model == old(model).(buffered := old(model).buffered[1..])
    {
      model := model.(buffered := model.buffered[1..]);
    }

    /** Resolve the request number and send the response to the client that asked. */
    method ResolveResponse(n: int, m: Message, ghost k: nat)
      requires Valid()
      modifies seqMap, Queues(), this`model
      ensures Valid()
      ensures model == if n in old(model).pending then DeliverAnswer(old(model), n, m, k) else old(model)
    {
      ghost var r := ReqOf(model, n);
      var pending := TakePending(n);
      if pending.None? || pending.value.client !in clients { return; }
      SendAnswer(pending.value.client, m[RequestSeq := pending.value.clientSeq], r, k);
    }

    method TakePending(n: int) returns (pending: Option<PendingRequest>)
      requires Valid()
      modifies seqMap, this`model
      ensures Valid() && model == old(model).(pending := old(model).pending - {n})
      ensures pending.Some? <==> n in old(model).pending
      ensures pending.Some? ==>
        Pending(pending.value.client, pending.value.clientSeq) == old(model).pending[n]
    {
      pending := seqMap.Resolve(n);
      model := model.(pending := model.pending - {n});
    }

    method SendAnswer(c: ClientId, msg: Message, ghost r: nat, ghost k: nat)
      requires Agrees() && c in clients
      modifies clients[c], this`model
      ensures Agrees()
      ensures model == Settle(Post(old(model), c, Delivery(msg, Answer(r, k))), r,
                              AnsweredByAdapter(|QueueOf(old(model), c)|, k))
    {
      ghost var at := |QueueOf(model, c)|;
      SendTo(c, msg, Answer(r, k));
      Settled(r, AnsweredByAdapter(at, k));
    }

    /** The loop that sends an event to every client, in the order of the dict. */
    method SendToAll(msg: Message)
      requires ClientsOk()
      modifies Queues()
      ensures forall c :: c in clients ==> clients[c].Everything() == old(clients[c].Everything()) + [msg]
    {
      for i := 0 to |clientOrder|
        invariant forall c :: c in clients ==>
          clients[c].Everything() == old(clients[c].Everything()) + (if c in clientOrder[..i] then [msg] else [])
      {
        var c := clientOrder[i];
        MuxInvariant.AscendingIsNew(clientOrder, i);
        assert clientOrder[..i + 1] == clientOrder[..i] + [c];
        clients[c].Send(msg);
      }
      assert clientOrder[..|clientOrder|] == clientOrder;
    }

    /** `_broadcast_event`. */
    method BroadcastEventMessage(msg: Message, ghost k: nat)
      requires Valid() && IsBroadcast(msg)
      modifies Footprint()
      ensures Valid() && model == BroadcastEvent(old(model), msg, k)
      ensures clients == old(clients) && run == old(run)
    {
      CacheEvent(msg);
      QueueToAll(msg, k);
    }

    method QueueToAll(msg: Message, ghost k: nat)
      requires Valid()
      modifies Queues(), this`model
      ensures Valid() && model == old(model).(queues := BroadcastEvent(old(model), msg, k).queues)
    {
      ghost var before := model;
      SendToAll(msg);
      model := model.(queues := BroadcastEvent(model, msg, k).queues);
      forall c | c in clients
        ensures c in model.queues && clients[c].Everything() == MessagesOf(model.queues[c])
      {
        assert model.queues[c] == before.queues[c] + [Delivery(msg, Event(k))];
      }
    }

    /** Remember the handshake and the current stop for late joiners. */
    method CacheEvent(msg: Message)
      requires Valid() && IsBroadcast(msg)
      modifies this`initializedEvent, this`lastStoppedEvent, this`model
      ensures Valid()
      ensures model == old(model).(initializedEvent := InitializedAfter(old(model).initializedEvent, msg),
                                   stoppedEvent := StopAfter(old(model).stoppedEvent, msg))
    {
      var name := Text(msg, EventName);
      if name == "initialized" {
        initializedEvent := Some(msg);
      } else if name == "stopped" {
        lastStoppedEvent := Some(msg);
      } else if name == "continued" || name == "terminated" {
        lastStoppedEvent := None;
      }
      model := model.(initializedEvent := InitializedAfter(model.initializedEvent, msg),
                      stoppedEvent := StopAfter(model.stoppedEvent, msg));
    }

    /** `_route_reverse_request`. */
    method RouteReverse(msg: Message, ghost k: nat)
      requires Valid()
      modifies Queues(), this`model
      ensures Valid() && model == RouteReverseRequest(old(model), msg, k)
    {
      var target := PickReverseRequestTarget(initOrder, clientInitArgs, msg);
      if target.None? || target.value !in clients { return; }
      SendTo(target.value, msg, Reverse(k));
    }

    // ---------------------------------------------------------------- disconnect

    /** `_handle_client_disconnect`, up to the closing of the socket. */
    method HandleClientDisconnect(c: ClientId)
      requires Sound() && Enabled(model, Disconnect(c))
      modifies Footprint()
      ensures Sound() && run.steps == old(run).steps + [Disconnect(c)] && model == Next(old(model), Disconnect(c))
      ensures clients == old(clients) - {c}
    {
      Clean(c);
      Took(Disconnect(c));
    }

    method Clean(c: ClientId)
      requires Valid()
      modifies Footprint()
      ensures Valid() && model == DisconnectClient(old(model), c)
      ensures clients == old(clients) - {c} && run == old(run)
    {
      CleanFirst(model, c);
      CleanPending(c);
      RemoveClient(c);
    }

    method CleanPending(c: ClientId)
      requires Valid()
      modifies seqMap, this`model
      ensures Valid() && model == old(model).(pending := DisconnectClient(old(model), c).pending)
    {
      var removed := seqMap.Cleanup(c);
      model := model.(pending := DisconnectClient(model, c).pending);
    }

    /** The pending map may be cleaned before the dicts are. */
    static lemma CleanFirst(s: State, c: ClientId)
      ensures DisconnectClient(s.(pending := DisconnectClient(s, c).pending), c) == DisconnectClient(s, c)
    {
    }

    /** Drop a client from both dicts. */
    method RemoveClient(c: ClientId)
      requires Valid() && forall n :: n in model.pending ==> model.pending[n].client != c
      modifies this`clients, this`clientOrder, this`clientInitArgs, this`initOrder, this`model
      ensures Valid() && model == DisconnectClient(old(model), c)
      ensures clients == old(clients) - {c}
    {
      MuxInvariant.WithoutContents(clientOrder, c);
      MuxInvariant.WithoutAscending(clientOrder, c);
      clientInitArgs, initOrder := clientInitArgs - {c}, Without(initOrder, c);
      clients, clientOrder := clients - {c}, Without(clientOrder, c);
      model := DisconnectClient(model, c);
      assert forall n :: n in model.pending <==> n in old(model).pending;
    }
  }

  lemma ModelIsReachable(mux: Multiplexer)
    requires mux.Sound()
    ensures Reachable(mux.model)
  {
    assert mux.run.states[|mux.run.steps|] in mux.run.states;
  }
}
