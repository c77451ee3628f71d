/** The multiplexer as a state machine (src/dap_mux/mux.py). A handler runs to completion before the
    next one starts: its only suspension points are puts on unbounded queues.

    `State` holds the fields of `Multiplexer` and of its `SeqMap`, followed by history: everything
    that ever arrived and everything ever queued. No step reads the history except to extend it. */
module MuxModel {
  import opened Messages

  datatype Phase = PreInit | Initializing | Initialized | Configured {
    function Rank(): nat {
      match this case PreInit => 0 case Initializing => 1 case Initialized => 2 case Configured => 3
    }
  }

  datatype Pending = Pending(client: ClientId, clientSeq: Json)

  /** A request some client sent. Requests are named by their position in the history. */
  datatype Request = Request(client: ClientId, msg: Message)

  datatype Buffered = Buffered(client: ClientId, msg: Message, req: nat)

  /** A request put on the upstream queue: which one, and how many messages the adapter had sent by then. */
  datatype Forwarded = Forwarded(msg: Message, req: nat, at: nat)

  /** Why a message was queued to a client. `k` counts adapter messages. */
  datatype Origin =
    | Answer(req: nat, k: nat)  // the adapter's response to a forwarded request
    | Greeting(req: nat, k: nat) // the multiplexer's own response to initialize
    | Synthetic(req: nat)       // the multiplexer's own response to an intercepted request
    | Event(k: nat)             // a broadcast event
    | Reverse(k: nat)           // a reverse request
    | Replay(k: nat)            // a cached event, sent when the adapter had sent k messages

  datatype Delivery = Delivery(msg: Message, origin: Origin)

  /** What has become of a request; `at` is a position in its client's queue. */
  datatype Fate =
    | Waiting
    | Upstream(proxy: int)
    | AnsweredLocally(at: nat)
    | AnsweredByAdapter(at: nat, k: nat)
    | Discarded

  datatype State = State(
    phase: Phase,
    clients: seq<ClientId>,
    nextClient: ClientId,
    nextSeq: int,
    pending: map<int, Pending>,
    buffered: seq<Buffered>,
    capabilities: Json,
    initOrder: seq<ClientId>,
    initArgs: map<ClientId, Json>,
    initializedEvent: Option<Message>,
    stoppedEvent: Option<Message>,
    // history
    requests: seq<Request>,
    fates: seq<Fate>,
    upstream: seq<Forwarded>,
    adapter: seq<Message>,
    queues: map<ClientId, seq<Delivery>>,
    joined: map<ClientId, nat>,
    left: map<ClientId, nat>)

  const INITIAL := State(PreInit, [], 0, 1, map[], [], Null, [], map[], None, None,
                         [], [], [], [], map[], map[], map[])

  datatype Step =
    | Accept
    | FromClient(client: ClientId, msg: Message)
    | FromAdapter(msg: Message)
    | Disconnect(client: ClientId)

  /** The handler finishes without an exception: a request has a number. */
  predicate ClientMessageHandled(msg: Message) {
    IsRequest(msg) ==> Seq in msg
  }

  /** Likewise: what is looked up in a set or dict can be a key, and an error text that is searched is a string. */
  predicate AdapterMessageHandled(msg: Message) {
    && (IsResponse(msg) ==> Hashable(Get(msg, RequestSeq)))
    && (IsVariableFailure(msg) && ErrorText in msg ==> msg[ErrorText].String?)
    && (IsEvent(msg) ==> Hashable(Get(msg, EventName)))
    && (IsRequest(msg) ==> Hashable(Get(msg, Command)))
  }

  /** Messages come from connected clients only, and only a connected client disconnects. */
  predicate Enabled(s: State, step: Step) {
    match step
    case Accept => true
    case FromClient(c, msg) => c in s.clients && ClientMessageHandled(msg)
    case FromAdapter(msg) => AdapterMessageHandled(msg) && TargetSearchFinishes(s.initOrder, s.initArgs, msg)
    case Disconnect(c) => c in s.clients
  }

  function Next(s: State, step: Step): State {
    match step
    case Accept => AcceptClient(s)
    case FromClient(c, msg) => if IsRequest(msg) then ClientRequest(s, c, msg) else s
    case FromAdapter(msg) => AdapterMessage(s, msg)
    case Disconnect(c) => DisconnectClient(s, c)
  }

  // ---------------------------------------------------------------- queues and fates

  function QueueOf(s: State, c: ClientId): seq<Delivery> {
    if c in s.queues then s.queues[c] else []
  }

  function Post(s: State, c: ClientId, d: Delivery): State {
    s.(queues := s.queues[c := QueueOf(s, c) + [d]])
  }

  function Settle(s: State, r: nat, f: Fate): State {
    if r < |s.fates| then s.(fates := s.fates[r := f]) else s
  }

  /** The request forwarded under a proxy number. */
  function ReqOf(s: State, n: int): nat {
    if 1 <= n <= |s.upstream| then s.upstream[n - 1].req else 0
  }

  // ---------------------------------------------------------------- clients come and go

  function AcceptClient(s: State): State {
    var c := s.nextClient;
    s.(nextClient := c + 1, clients := s.clients + [c],
       queues := s.queues[c := []], joined := s.joined[c := |s.adapter|])
  }

  function Without(order: seq<ClientId>, c: ClientId): seq<ClientId> {
    if order == [] then []
    else if order[0] == c then Without(order[1..], c)
    else [order[0]] + Without(order[1..], c)
  }

  function Unsettled(f: Fate): bool { f.Waiting? || f.Upstream? }

  function DisconnectClient(s: State, c: ClientId): State {
    s.(pending := map n | n in s.pending && s.pending[n].client != c :: s.pending[n],
       initOrder := Without(s.initOrder, c),
       initArgs := s.initArgs - {c},
       clients := Without(s.clients, c),
       left := if c in s.clients then s.left[c := |s.adapter|] else s.left,
       fates := seq(|s.fates|, r requires 0 <= r < |s.fates| =>
         if r < |s.requests| && s.requests[r].client == c && Unsettled(s.fates[r])
         then Discarded else s.fates[r]))
  }

  // ---------------------------------------------------------------- requests

  function Record(s: State, c: ClientId, msg: Message): State {
    s.(requests := s.requests + [Request(c, msg)], fates := s.fates + [Waiting])
  }

  /** The requests that the multiplexer answers itself, besides initialize: attach, launch and
      configurationDone once the session is configured, and whatever would end the session. */
  predicate Intercepted(phase: Phase, kind: Kind) {
    kind.Ending? || (phase.Configured? && (kind.Start? || kind.ConfigurationDone?))
  }

  function ClientRequest(s: State, c: ClientId, msg: Message): State {
    HandleRequest(Record(s, c, msg), c, msg, |s.requests|, KindOf(msg))
  }

  function HandleRequest(s: State, c: ClientId, msg: Message, r: nat, kind: Kind): State {
    if kind.Initialize? then InitializeRequest(s, c, msg, r)
    else if Intercepted(s.phase, kind) then ReplySynthetic(s, c, msg, r)
    else Forward(Configure(s, kind), c, msg, r)
  }

  /** The first configurationDone configures the session, whatever the phase. */
  function Configure(s: State, kind: Kind): State {
    if kind.ConfigurationDone? then s.(phase := Configured) else s
  }

  /** Remember the arguments of a client's latest initialize. */
  function Register(s: State, c: ClientId, msg: Message): State {
    s.(initArgs := s.initArgs[c := GetOr(msg, Arguments, Object(map[]))],
       initOrder := if c in s.initArgs then s.initOrder else s.initOrder + [c])
  }

  function InitializeRequest(s: State, c: ClientId, msg: Message, r: nat): State {
    InitializeByPhase(Register(s, c, msg), c, msg, r)
  }

  function InitializeByPhase(s: State, c: ClientId, msg: Message, r: nat): State {
    match s.phase
    case PreInit => Forward(s.(phase := Initializing), c, msg, r)
    case Initializing => s.(buffered := s.buffered + [Buffered(c, msg, r)])
    case _ => Greet(s, c, msg, r)
  }

  function Forward(s: State, c: ClientId, msg: Message, r: nat): State {
    var n := s.nextSeq;
    Settle(s.(nextSeq := n + 1,
              pending := s.pending[n := Pending(c, Get(msg, Seq))],
              upstream := s.upstream + [Forwarded(msg[Seq := Number(n)], r, |s.adapter|)]),
           r, Upstream(n))
  }

  function SyntheticReply(msg: Message): Message {
    map[Seq := Number(0), Type := String("response"), RequestSeq := Get(msg, Seq),
        Success := Bool(true), Command := GetOr(msg, Command, String(""))]
  }

  function ReplySynthetic(s: State, c: ClientId, msg: Message, r: nat): State {
    if c !in s.clients then s
    else Settle(Post(s, c, Delivery(SyntheticReply(msg), Synthetic(r))), r, AnsweredLocally(|QueueOf(s, c)|))
  }

  function GreetingReply(msg: Message, capabilities: Json): Message {
    var response := map[Seq := Number(0), Type := String("response"), RequestSeq := Get(msg, Seq),
                        Success := Bool(true), Command := String("initialize")];
    if capabilities.Null? then response else response[Body := capabilities]
  }

  function ReplayCached(s: State, c: ClientId, event: Option<Message>): State {
    match event
    case None => s
    case Some(m) => Post(s, c, Delivery(m, Replay(|s.adapter|)))
  }

  /** Answer an initialize from the cache and replay the cached events. */
  function Greet(s: State, c: ClientId, msg: Message, r: nat): State {
    if c !in s.clients then s
    else
      var s1 := Settle(Post(s, c, Delivery(GreetingReply(msg, s.capabilities), Greeting(r, |s.adapter|))),
                       r, AnsweredLocally(|QueueOf(s, c)|));
      ReplayCached(ReplayCached(s1, c, s.initializedEvent), c, s.stoppedEvent)
  }

  // ---------------------------------------------------------------- adapter messages

  /** Whom an adapter message concerns: the sender of the request it responds to, all clients, the target of a
      reverse request, or nobody. */
  datatype Routing = ToSender | ToAll | ToTarget | Dropped

  function RoutingOf(msg: Message): Routing {
    if IsResponse(msg) then ToSender
    else if IsEvent(msg) then (if ShouldFilterEvent(msg) then Dropped else ToAll)
    else if IsKnownReverseRequest(msg) then ToTarget
    else Dropped
  }

  function AdapterMessage(s: State, msg: Message): State {
    Dispatch(s.(adapter := s.adapter + [msg]), msg, |s.adapter|, RoutingOf(msg))
  }

  function Dispatch(s: State, msg: Message, k: nat, routing: Routing): State {
    match routing
    case ToSender => RouteResponse(s, RewriteStaleVariableError(msg), k)
    case ToAll => BroadcastEvent(s, msg, k)
    case ToTarget => RouteReverseRequest(s, msg, k)
    case Dropped => s
  }

  predicate IsInitializeSuccess(m: Message) {
    Text(m, Command) == "initialize" && Truthy(Get(m, Success))
  }

  /** Answer the buffered initializes, oldest first. */
  function Drain(s: State): State
    decreases |s.buffered|
  {
    if s.buffered == [] then s
    else
      var b := s.buffered[0];
      Drain(Greet(s.(buffered := s.buffered[1..]), b.client, b.msg, b.req))
  }

  function CacheCapabilities(s: State, m: Message): State {
    if IsInitializeSuccess(m) && s.phase.Initializing?
    then Drain(s.(phase := Initialized, capabilities := Get(m, Body)))
    else s
  }

  function RouteResponse(s: State, m: Message, k: nat): State {
    if Get(m, RequestSeq).Null? then s
    else Resolve(CacheCapabilities(s, m), m, k)
  }

  function Resolve(s: State, m: Message, k: nat): State {
    match KeyOf(Get(m, RequestSeq))
    case None => s
    case Some(n) => if n in s.pending then DeliverAnswer(s, n, m, k) else s
  }

  function DeliverAnswer(s: State, n: int, m: Message, k: nat): State
    requires n in s.pending
  {
    var p := s.pending[n];
    var r := ReqOf(s, n);
    var s := s.(pending := s.pending - {n});
    if p.client !in s.clients then s
    else Settle(Post(s, p.client, Delivery(m[RequestSeq := p.clientSeq], Answer(r, k))),
                r, AnsweredByAdapter(|QueueOf(s, p.client)|, k))
  }

  /** The effect of an event on the cached stop. */
  function StopAfter(stop: Option<Message>, m: Message): Option<Message> {
    if !IsBroadcast(m) then stop
    else if Text(m, EventName) == "stopped" then Some(m)
    else if Text(m, EventName) == "continued" || Text(m, EventName) == "terminated" then None
    else stop
  }

  function InitializedAfter(event: Option<Message>, m: Message): Option<Message> {
    if IsBroadcast(m) && Text(m, EventName) == "initialized" then Some(m) else event
  }

  function BroadcastEvent(s: State, m: Message, k: nat): State {
    s.(initializedEvent := InitializedAfter(s.initializedEvent, m),
       stoppedEvent := StopAfter(s.stoppedEvent, m),
       queues := map c | c in s.queues ::
         if c in s.clients then s.queues[c] + [Delivery(m, Event(k))] else s.queues[c])
  }

  function RouteReverseRequest(s: State, m: Message, k: nat): State {
    match PickReverseRequestTarget(s.initOrder, s.initArgs, m)
    case None => s
    case Some(c) => if c in s.clients then Post(s, c, Delivery(m, Reverse(k))) else s
  }

  // ---------------------------------------------------------------- runs

  /** The steps taken, and the states before, between and after them. */
  datatype Run = Run(steps: seq<Step>, states: seq<State>)

  ghost predicate Legal(run: Run) {
    && |run.states| == |run.steps| + 1 && run.states[0] == INITIAL
    && forall i {:trigger Follows(run, i)} :: 0 <= i < |run.steps| ==> Follows(run, i)
  }

  /** The i-th step could happen, and led to the next state. */
  ghost predicate Follows(run: Run, i: nat)
    requires |run.states| == |run.steps| + 1 && i < |run.steps|
  {
    Enabled(run.states[i], run.steps[i]) && run.states[i + 1] == Next(run.states[i], run.steps[i])
  }

  /** Some run goes through s. */
  ghost predicate Reachable(s: State) {
    exists run :: Legal(run) && s in run.states
  }
}
