/** More of what every reachable state satisfies: in which phase what is sent upstream, which of the
    adapter's responses is taken for the answer, who is registered for reverse requests, and where the
    cached capabilities come from. */
module MuxProtocol {
  import opened Messages
  import opened MuxModel
  import opened MuxInvariant

  // ---------------------------------------------------------------- upstream discipline

  ghost predicate Disciplined(s: State) {
    && (forall i :: 0 <= i < |s.upstream| ==> SentInPhase(KindOf(s.upstream[i].msg), s.phase))
    && (forall i, j :: 0 <= i < j < |s.upstream| ==>
          MayFollow(KindOf(s.upstream[i].msg), KindOf(s.upstream[j].msg)))
  }

  predicate SentInPhase(kind: Kind, phase: Phase) {
    match kind
    case Initialize => phase.Rank() >= 1
    case ConfigurationDone => phase.Configured?
    case Ending => false
    case _ => true
  }

  predicate MayFollow(earlier: Kind, later: Kind) {
    && !(earlier.Initialize? && later.Initialize?)
    && !(earlier.ConfigurationDone? && (later.ConfigurationDone? || later.Start?))
  }

  lemma KindSurvives(msg: Message, n: int)
    ensures KindOf(msg[Seq := Number(n)]) == KindOf(msg)
  {
    assert Text(msg[Seq := Number(n)], Command) == Text(msg, Command);
  }

  lemma ForwardDisciplined(s: State, c: ClientId, msg: Message, r: nat, phase: Phase)
    requires Disciplined(s) && s.phase.Rank() <= phase.Rank() && SentInPhase(KindOf(msg), phase)
    requires KindOf(msg).Initialize? ==> s.phase.PreInit?
    requires KindOf(msg).ConfigurationDone? || KindOf(msg).Start? ==> !s.phase.Configured?
    ensures Disciplined(Forward(s.(phase := phase), c, msg, r))
  {
    var t := Forward(s.(phase := phase), c, msg, r);
    ForwardFrame(s.(phase := phase), c, msg, r);
    KindSurvives(msg, s.nextSeq);
    assert t.upstream[|s.upstream|].msg == msg[Seq := Number(s.nextSeq)];
  }

  /** Only a forwarded request changes what was sent upstream. */
  lemma NextUpstream(s: State, step: Step)
    requires Enabled(s, step) && !(step.FromClient? && IsRequest(step.msg))
    ensures Next(s, step).upstream == s.upstream
    ensures s.phase.Rank() <= Next(s, step).phase.Rank()
    ensures Next(s, step).phase.Configured? ==> s.phase.Configured?
  {
    if step.FromAdapter? {
      var t := s.(adapter := s.adapter + [step.msg]);
      DispatchUpstream(t, step.msg, |s.adapter|, RoutingOf(step.msg));
    }
  }

  lemma DispatchUpstream(s: State, msg: Message, k: nat, routing: Routing)
    ensures var t := Dispatch(s, msg, k, routing);
      && t.upstream == s.upstream && s.phase.Rank() <= t.phase.Rank()
      && (t.phase.Configured? ==> s.phase.Configured?)
  {
    ResponseUpstream(s, RewriteStaleVariableError(msg), k);
  }

  lemma ResponseUpstream(s: State, m: Message, k: nat)
    ensures var t := RouteResponse(s, m, k);
      && t.upstream == s.upstream && s.phase.Rank() <= t.phase.Rank()
      && (t.phase.Configured? ==> s.phase.Configured?)
  {
    CacheCapabilitiesFrame(s, m);
    CachePhase(s, m);
  }

  lemma CachePhase(s: State, m: Message)
    ensures CacheCapabilities(s, m).phase ==
            if IsInitializeSuccess(m) && s.phase.Initializing? then Initialized else s.phase
  {
    DrainFrame(s.(phase := Initialized, capabilities := Get(m, Body)));
  }

  lemma RequestDisciplined(s: State, c: ClientId, msg: Message)
    requires Disciplined(s)
    ensures Disciplined(ClientRequest(s, c, msg)) && s.phase.Rank() <= ClientRequest(s, c, msg).phase.Rank()
  {
    HandleDisciplined(Record(s, c, msg), c, msg, |s.requests|, KindOf(msg));
  }

  lemma HandleDisciplined(s: State, c: ClientId, msg: Message, r: nat, kind: Kind)
    requires Disciplined(s) && kind == KindOf(msg)
    ensures var t := HandleRequest(s, c, msg, r, kind); Disciplined(t) && s.phase.Rank() <= t.phase.Rank()
  {
    if kind.Initialize? {
      InitializeDisciplined(s, c, msg, r);
    } else if Intercepted(s.phase, kind) {
      SyntheticFrame(s, c, msg, r);
      DisciplinedFrame(s, ReplySynthetic(s, c, msg, r));
    } else {
      ForwardDisciplined(s, c, msg, r, Configure(s, kind).phase);
    }
  }

  lemma DisciplinedFrame(s: State, t: State)
    requires Disciplined(s) && t.upstream == s.upstream && t.phase == s.phase
    ensures Disciplined(t)
  {
  }

  lemma InitializeDisciplined(s: State, c: ClientId, msg: Message, r: nat)
    requires Disciplined(s) && KindOf(msg).Initialize?
    ensures var t := InitializeRequest(s, c, msg, r); Disciplined(t) && s.phase.Rank() <= t.phase.Rank()
  {
    var u := Register(s, c, msg);
    DisciplinedFrame(s, u);
    if s.phase.PreInit? { ForwardDisciplined(u, c, msg, r, Initializing); }
    else { GreetFrame(u, c, msg, r); DisciplinedFrame(s, InitializeRequest(s, c, msg, r)); }
  }

  lemma NextDisciplined(s: State, step: Step)
    requires Disciplined(s) && Enabled(s, step)
    ensures Disciplined(Next(s, step)) && s.phase.Rank() <= Next(s, step).phase.Rank()
  {
    if step.FromClient? && IsRequest(step.msg) { RequestDisciplined(s, step.client, step.msg); }
    else { NextUpstream(s, step); }
  }

  // ---------------------------------------------------------------- which response is the answer

  predicate Responds(m: Message, n: int) {
    IsResponse(m) && KeyOf(Get(m, RequestSeq)) == Some(n)
  }

  ghost predicate NoResponse(log: seq<Message>, n: int, from: nat, to: nat) {
    forall k :: from <= k < to && k < |log| ==> !Responds(log[k], n)
  }

  /** The k-th adapter message is the first response to n from position `from` on. */
  ghost predicate FirstResponse(log: seq<Message>, n: int, from: nat, k: nat) {
    from <= k < |log| && Responds(log[k], n) && NoResponse(log, n, from, k)
  }

  ghost predicate ResponsesOk(s: State, bound: nat) {
    forall i :: 0 <= i < |s.upstream| ==> ResponseOk(s, i + 1, s.upstream[i], bound)
  }

  /** The adapter has not answered a request that is pending, and gave the recorded answer first. */
  ghost predicate ResponseOk(s: State, n: nat, f: Forwarded, bound: nat) {
    && f.at <= bound && f.req < |s.fates|
    && match s.fates[f.req]
       case Upstream(_) => NoResponse(s.adapter, n, f.at, bound)
       case AnsweredByAdapter(_, k) => FirstResponse(s.adapter, n, f.at, k)
       case _ => true
  }

  predicate OfAdapter(f: Fate) { f.Upstream? || f.AnsweredByAdapter? }

  /** The fates that depend on the adapter are those of s, or lost. */
  ghost predicate FatesFrame(s: State, t: State) {
    && |t.fates| == |s.fates| && t.upstream == s.upstream && t.adapter == s.adapter
    && forall r :: 0 <= r < |s.fates| && OfAdapter(t.fates[r]) ==> t.fates[r] == s.fates[r]
  }

  lemma ResponsesFrame(s: State, t: State, bound: nat)
    requires ResponsesOk(s, bound) && FatesFrame(s, t)
    ensures ResponsesOk(t, bound)
  {
    forall i | 0 <= i < |t.upstream| ensures ResponseOk(t, i + 1, t.upstream[i], bound) {
      assert ResponseOk(s, i + 1, s.upstream[i], bound);
    }
  }

  lemma GreetFates(s: State, c: ClientId, msg: Message, r: nat)
    ensures FatesFrame(s, Greet(s, c, msg, r))
  {
    GreetFrame(s, c, msg, r);
  }

  lemma {:induction false} DrainFates(s: State)
    ensures FatesFrame(s, Drain(s))
    decreases |s.buffered|
  {
    if s.buffered != [] {
      var b := s.buffered[0];
      var t := s.(buffered := s.buffered[1..]);
      GreetFates(t, b.client, b.msg, b.req);
      GreetFrame(t, b.client, b.msg, b.req);
      DrainFates(Greet(t, b.client, b.msg, b.req));
    }
  }

  lemma RequestResponses(s: State, c: ClientId, msg: Message)
    requires Inv(s) && ResponsesOk(s, |s.adapter|)
    ensures ResponsesOk(ClientRequest(s, c, msg), |s.adapter|)
  {
    var t := Record(s, c, msg);
    forall i | 0 <= i < |t.upstream| ensures ResponseOk(t, i + 1, t.upstream[i], |s.adapter|) {
      assert ResponseOk(s, i + 1, s.upstream[i], |s.adapter|);
    }
    HandleResponses(t, c, msg, |s.requests|, KindOf(msg));
  }

  lemma HandleResponses(s: State, c: ClientId, msg: Message, r: nat, kind: Kind)
    requires ResponsesOk(s, |s.adapter|) && r < |s.fates| && s.nextSeq == |s.upstream| + 1
    requires forall i :: 0 <= i < |s.upstream| ==> s.upstream[i].req < r
    ensures ResponsesOk(HandleRequest(s, c, msg, r, kind), |s.adapter|)
  {
    if kind.Initialize? {
      var u := Register(s, c, msg);
      ResponsesFrame(s, u, |s.adapter|);
      match s.phase
      case PreInit => ForwardResponses(u, c, msg, r, Initializing);
      case Initializing => ResponsesFrame(u, u.(buffered := u.buffered + [Buffered(c, msg, r)]), |s.adapter|);
      case _ => GreetFates(u, c, msg, r); ResponsesFrame(u, Greet(u, c, msg, r), |s.adapter|);
    } else if Intercepted(s.phase, kind) {
      ResponsesFrame(s, ReplySynthetic(s, c, msg, r), |s.adapter|);
    } else {
      ForwardResponses(s, c, msg, r, Configure(s, kind).phase);
    }
  }

  lemma ForwardResponses(s: State, c: ClientId, msg: Message, r: nat, phase: Phase)
    requires ResponsesOk(s, |s.adapter|) && r < |s.fates| && s.nextSeq == |s.upstream| + 1
    requires forall i :: 0 <= i < |s.upstream| ==> s.upstream[i].req < r
    ensures ResponsesOk(Forward(s.(phase := phase), c, msg, r), |s.adapter|)
  {
    var t := Forward(s.(phase := phase), c, msg, r);
    forall i | 0 <= i < |t.upstream| ensures ResponseOk(t, i + 1, t.upstream[i], |s.adapter|) {
      if i < |s.upstream| { assert ResponseOk(s, i + 1, s.upstream[i], |s.adapter|); }
    }
  }

  /** The adapter's log grows; what the new message answers is looked at below. */
  lemma LogResponses(s: State, msg: Message)
    requires ResponsesOk(s, |s.adapter|)
    ensures ResponsesOk(s.(adapter := s.adapter + [msg]), |s.adapter|)
  {
    var t := s.(adapter := s.adapter + [msg]);
    forall i | 0 <= i < |t.upstream| ensures ResponseOk(t, i + 1, t.upstream[i], |s.adapter|) {
      assert ResponseOk(s, i + 1, s.upstream[i], |s.adapter|);
    }
  }

  /** A message that responds to none of the pending requests. */
  lemma UnansweredResponses(s: State, k: nat)
    requires Inv(s) && ResponsesOk(s, k) && k + 1 == |s.adapter|
    requires forall n :: n in s.pending ==> !Responds(s.adapter[k], n)
    ensures ResponsesOk(s, k + 1)
  {
    forall i | 0 <= i < |s.upstream| ensures ResponseOk(s, i + 1, s.upstream[i], k + 1) {
      assert ResponseOk(s, i + 1, s.upstream[i], k);
      UpstreamFate(s, i);
    }
  }

  predicate UpstreamFateOk(s: State, n: nat, f: Fate, c: ClientId) {
    match f
    case Upstream(proxy) => proxy == n && n in s.pending
    case AnsweredByAdapter(_, _) => n !in s.pending
    case Discarded => c !in s.clients && n !in s.pending
    case _ => false
  }

  /** A forwarded request is pending, or answered by the adapter, or lost with its client. */
  lemma UpstreamFate(s: State, i: nat)
    requires Inv(s) && i < |s.upstream|
    ensures s.upstream[i].req < |s.fates| && s.upstream[i].req < |s.requests|
    ensures UpstreamFateOk(s, i + 1, s.fates[s.upstream[i].req], s.requests[s.upstream[i].req].client)
  {
    var f := s.upstream[i];
    assert ForwardedOk(s, i, f);
    assert FateOk(s, |s.requests|, f.req, s.fates[f.req]);
    assert ReqOf(s, i + 1) == f.req;
  }

  lemma ResolveResponses(s: State, m: Message, k: nat)
    requires Inv(s) && ResponsesOk(s, k) && k + 1 == |s.adapter|
    requires IsResponse(s.adapter[k]) && m == RewriteStaleVariableError(s.adapter[k])
    ensures ResponsesOk(Resolve(s, m, k), k + 1)
  {
    var key := KeyOf(Get(m, RequestSeq));
    if key.None? || key.value !in s.pending {
      UnansweredResponses(s, k);
    } else {
      var n := key.value;
      var t := Resolve(s, m, k);
      var r := ReqOf(s, n);
      assert s.pending[n].client in s.clients by { assert FateOk(s, |s.requests|, r, s.fates[r]); }
      assert t.upstream == s.upstream && t.adapter == s.adapter
             && t.fates == s.fates[r := AnsweredByAdapter(|QueueOf(s, s.pending[n].client)|, k)];
      forall i | 0 <= i < |t.upstream| ensures ResponseOk(t, i + 1, t.upstream[i], k + 1) {
        assert ResponseOk(s, i + 1, s.upstream[i], k);
        UpstreamFate(s, i);
      }
    }
  }

  lemma DispatchResponses(s: State, msg: Message, k: nat, routing: Routing)
    requires Inv(s) && ResponsesOk(s, k) && k + 1 == |s.adapter| && s.adapter[k] == msg && routing == RoutingOf(msg)
    ensures ResponsesOk(Dispatch(s, msg, k, routing), k + 1)
  {
    var m := RewriteStaleVariableError(msg);
    if routing.ToSender? && !Get(m, RequestSeq).Null? {
      var u := CacheCapabilities(s, m);
      CacheCapabilitiesKeeps(s, m);
      CacheCapabilitiesFrame(s, m);
      DrainFates(s.(phase := Initialized, capabilities := Get(m, Body)));
      ResponsesFrame(s, u, k);
      ResolveResponses(u, m, k);
    } else {
      UnansweredResponses(s, k);
      if !routing.ToSender? { QuietFates(s, msg, k); ResponsesFrame(s, Dispatch(s, msg, k, routing), k + 1); }
    }
  }

  lemma AdapterResponses(s: State, msg: Message)
    requires Inv(s) && ResponsesOk(s, |s.adapter|)
    ensures ResponsesOk(AdapterMessage(s, msg), |s.adapter| + 1)
  {
    LogResponses(s, msg);
    LogKeeps(s, msg);
    DispatchResponses(s.(adapter := s.adapter + [msg]), msg, |s.adapter|, RoutingOf(msg));
  }

  lemma QuietFates(s: State, msg: Message, k: nat)
    ensures FatesFrame(s, BroadcastEvent(s, msg, k)) && FatesFrame(s, RouteReverseRequest(s, msg, k))
  {
  }

  lemma NextResponses(s: State, step: Step)
    requires Inv(s) && ResponsesOk(s, |s.adapter|) && Enabled(s, step)
    ensures ResponsesOk(Next(s, step), |Next(s, step).adapter|)
  {
    match step
    case Accept => ResponsesFrame(s, Next(s, step), |s.adapter|);
    case FromClient(c, msg) =>
      if IsRequest(msg) { RequestResponses(s, c, msg); RequestFrame(s, c, msg); }
    case FromAdapter(msg) => AdapterResponses(s, msg); AdapterFrame(s, msg);
    case Disconnect(c) => ResponsesFrame(s, DisconnectClient(s, c), |s.adapter|);
  }

  // ---------------------------------------------------------------- who is registered

  predicate IsInitializeOf(request: Request, c: ClientId) {
    request.client == c && KindOf(request.msg).Initialize?
  }

  /** The first initialize of a client, or |requests|. */
  function FirstInitialize(requests: seq<Request>, c: ClientId): (f: nat)
    ensures f <= |requests|
    ensures f < |requests| ==> IsInitializeOf(requests[f], c)
    ensures forall r :: 0 <= r < f ==> !IsInitializeOf(requests[r], c)
  {
    if requests == [] then 0
    else
      var f := FirstInitialize(requests[..|requests| - 1], c);
      if f < |requests| - 1 || IsInitializeOf(requests[|requests| - 1], c) then f else f + 1
  }

  /** The arguments of a client's latest initialize. */
  function LatestArguments(requests: seq<Request>, c: ClientId): Option<Json> {
    if requests == [] then None
    else if IsInitializeOf(requests[|requests| - 1], c)
    then Some(GetOr(requests[|requests| - 1].msg, Arguments, Object(map[])))
    else LatestArguments(requests[..|requests| - 1], c)
  }

  /** The registered clients are the connected ones that sent initialize, earliest first. */
  ghost predicate RegistrationOk(s: State) {
    && (forall c :: c in s.clients && LatestArguments(s.requests, c).Some? ==> c in s.initOrder)
    && (forall c :: c in s.initOrder ==>
          c in s.initArgs && LatestArguments(s.requests, c) == Some(s.initArgs[c]))
    && EarliestFirst(s.requests, s.initOrder)
  }

  ghost predicate EarliestFirst(requests: seq<Request>, order: seq<ClientId>) {
    forall i, j :: 0 <= i < j < |order| ==> FirstInitialize(requests, order[i]) < FirstInitialize(requests, order[j])
  }

  lemma RequestAppend(requests: seq<Request>, request: Request, c: ClientId)
    ensures FirstInitialize(requests + [request], c) ==
            if FirstInitialize(requests, c) < |requests| || IsInitializeOf(request, c)
            then FirstInitialize(requests, c) else |requests| + 1
    ensures LatestArguments(requests + [request], c) ==
            if IsInitializeOf(request, c) then Some(GetOr(request.msg, Arguments, Object(map[])))
            else LatestArguments(requests, c)
  {
    assert (requests + [request])[..|requests|] == requests;
  }

  lemma {:induction false} InitializeKnown(requests: seq<Request>, c: ClientId)
    ensures FirstInitialize(requests, c) < |requests| <==> LatestArguments(requests, c).Some?
  {
    if requests != [] { InitializeKnown(requests[..|requests| - 1], c); }
  }

  lemma RegistrationFrame(s: State, t: State)
    requires RegistrationOk(s) && t.requests == s.requests && t.clients == s.clients
    requires t.initOrder == s.initOrder && t.initArgs == s.initArgs
    ensures RegistrationOk(t)
  {
  }

  lemma RequestRegistration(s: State, c: ClientId, msg: Message)
    requires Inv(s) && RegistrationOk(s) && c in s.clients
    ensures RegistrationOk(ClientRequest(s, c, msg))
  {
    var t, r := Record(s, c, msg), |s.requests|;
    if KindOf(msg).Initialize? {
      RegisterArguments(s, c, msg);
      RegisterOrder(s, c, msg);
      AfterRegistering(Register(t, c, msg), t, c, msg, r);
    } else {
      RecordRegistration(s, c, msg);
      HandleRegistration(t, c, msg, r, KindOf(msg));
    }
  }

  lemma HandleRegistration(s: State, c: ClientId, msg: Message, r: nat, kind: Kind)
    requires RegistrationOk(s) && !kind.Initialize?
    ensures RegistrationOk(HandleRequest(s, c, msg, r, kind))
  {
    SyntheticFrame(s, c, msg, r);
    ForwardFrame(Configure(s, kind), c, msg, r);
    RegistrationFrame(s, HandleRequest(s, c, msg, r, kind));
  }

  lemma AfterRegistering(u: State, t: State, c: ClientId, msg: Message, r: nat)
    requires u == Register(t, c, msg) && RegistrationOk(u)
    ensures RegistrationOk(InitializeRequest(t, c, msg, r))
  {
    GreetFrame(u, c, msg, r);
    RegistrationFrame(u, InitializeRequest(t, c, msg, r));
  }

  lemma RecordRegistration(s: State, c: ClientId, msg: Message)
    requires RegistrationOk(s) && !KindOf(msg).Initialize?
    ensures RegistrationOk(Record(s, c, msg))
  {
    var t := Record(s, c, msg);
    forall x ensures LatestArguments(t.requests, x) == LatestArguments(s.requests, x) {
      RequestAppend(s.requests, Request(c, msg), x);
    }
    EarliestGrows(s.requests, Request(c, msg), s.initOrder);
  }

  lemma EarliestGrows(requests: seq<Request>, request: Request, order: seq<ClientId>)
    requires EarliestFirst(requests, order)
    requires forall c :: c in order ==> LatestArguments(requests, c).Some?
    ensures EarliestFirst(requests + [request], order)
  {
    forall c | c in order
      ensures FirstInitialize(requests + [request], c) == FirstInitialize(requests, c)
    {
      RequestAppend(requests, request, c);
      InitializeKnown(requests, c);
    }
  }

  lemma RegisterArguments(s: State, c: ClientId, msg: Message)
    requires Registered(s) && RegistrationOk(s) && KindOf(msg).Initialize?
    ensures var t := Register(Record(s, c, msg), c, msg);
      && (forall x :: x in t.clients && LatestArguments(t.requests, x).Some? ==> x in t.initOrder)
      && (forall x :: x in t.initOrder ==> x in t.initArgs && LatestArguments(t.requests, x) == Some(t.initArgs[x]))
  {
    var t := Register(Record(s, c, msg), c, msg);
    forall x ensures LatestArguments(t.requests, x)
                     == if x == c then Some(t.initArgs[c]) else LatestArguments(s.requests, x)
    {
      RequestAppend(s.requests, Request(c, msg), x);
    }
    assert forall x :: x in t.initOrder <==> x in s.initOrder || x == c;
  }

  lemma RegisterOrder(s: State, c: ClientId, msg: Message)
    requires Registered(s) && RegistrationOk(s) && c in s.clients && KindOf(msg).Initialize?
    ensures var t := Register(Record(s, c, msg), c, msg); EarliestFirst(t.requests, t.initOrder)
  {
    var t := Register(Record(s, c, msg), c, msg);
    EarliestGrows(s.requests, Request(c, msg), s.initOrder);
    if c !in s.initArgs {
      RequestAppend(s.requests, Request(c, msg), c);
      InitializeKnown(s.requests, c);
      forall i | 0 <= i < |s.initOrder|
        ensures FirstInitialize(t.requests, s.initOrder[i]) < |s.requests|
      {
        assert s.initOrder[i] in s.initOrder;
        RequestAppend(s.requests, Request(c, msg), s.initOrder[i]);
        InitializeKnown(s.requests, s.initOrder[i]);
      }
    }
  }

  lemma WithoutEarliest(requests: seq<Request>, order: seq<ClientId>, c: ClientId)
    requires EarliestFirst(requests, order)
    ensures EarliestFirst(requests, Without(order, c))
  {
    if order != [] {
      WithoutEarliest(requests, order[1..], c);
      WithoutContents(order[1..], c);
      var rest := Without(order[1..], c);
      forall j | 0 <= j < |rest|
        ensures FirstInitialize(requests, order[0]) < FirstInitialize(requests, rest[j])
      {
        assert rest[j] in rest;
        var i :| 0 <= i < |order[1..]| && order[1..][i] == rest[j];
        assert order[i + 1] == rest[j];
      }
    }
  }

  lemma DisconnectRegistration(s: State, c: ClientId)
    requires RegistrationOk(s) && Registered(s)
    ensures RegistrationOk(DisconnectClient(s, c))
  {
    WithoutContents(s.clients, c);
    WithoutContents(s.initOrder, c);
    WithoutEarliest(s.requests, s.initOrder, c);
  }

  /** A new client has not sent anything yet. */
  lemma AcceptRegistration(s: State)
    requires Inv(s) && RegistrationOk(s)
    ensures RegistrationOk(AcceptClient(s))
  {
    InitializeKnown(s.requests, s.nextClient);
  }

  lemma NextRegistration(s: State, step: Step)
    requires Inv(s) && RegistrationOk(s) && Enabled(s, step)
    ensures RegistrationOk(Next(s, step))
  {
    match step
    case Accept => AcceptRegistration(s);
    case FromClient(c, msg) => if IsRequest(msg) { RequestRegistration(s, c, msg); }
    case FromAdapter(msg) => AdapterFrame(s, msg); RegistrationFrame(s, AdapterMessage(s, msg));
    case Disconnect(c) => DisconnectRegistration(s, c);
  }

  // ---------------------------------------------------------------- capabilities

  /** The cached capabilities are those of a successful initialize response of the adapter, if any are cached. */
  ghost predicate CapabilitiesOk(s: State) {
    s.capabilities.Null? || exists k :: 0 <= k < |s.adapter| && Announces(s.adapter[k], s.capabilities)
  }

  predicate Announces(m: Message, capabilities: Json) {
    IsResponse(m) && IsInitializeSuccess(m) && Get(m, Body) == capabilities
  }

  lemma CacheCapabilitiesBody(s: State, m: Message)
    ensures CacheCapabilities(s, m).capabilities ==
            if IsInitializeSuccess(m) && s.phase.Initializing? then Get(m, Body) else s.capabilities
  {
    DrainFrame(s.(phase := Initialized, capabilities := Get(m, Body)));
  }

  lemma DispatchCapabilities(s: State, msg: Message, k: nat, routing: Routing)
    requires routing.ToSender? ==> IsResponse(msg)
    ensures var t := Dispatch(s, msg, k, routing);
      t.capabilities == s.capabilities || Announces(msg, t.capabilities)
  {
    CacheCapabilitiesBody(s, RewriteStaleVariableError(msg));
  }

  lemma AdapterCapabilities(s: State, msg: Message)
    ensures AdapterMessage(s, msg).capabilities == s.capabilities
            || Announces(msg, AdapterMessage(s, msg).capabilities)
  {
    DispatchCapabilities(s.(adapter := s.adapter + [msg]), msg, |s.adapter|, RoutingOf(msg));
  }

  lemma NextCapabilities(s: State, step: Step)
    requires CapabilitiesOk(s) && Enabled(s, step)
    ensures CapabilitiesOk(Next(s, step))
  {
    var t := Next(s, step);
    if step.FromAdapter? {
      AdapterCapabilities(s, step.msg);
      AdapterFrame(s, step.msg);
      if t.capabilities != s.capabilities { assert Announces(t.adapter[|s.adapter|], t.capabilities); }
      else if !s.capabilities.Null? {
        var k :| 0 <= k < |s.adapter| && Announces(s.adapter[k], s.capabilities);
        assert Announces(t.adapter[k], t.capabilities);
      }
    } else if step.FromClient? && IsRequest(step.msg) {
      RequestFrame(s, step.client, step.msg);
    }
  }

  // ---------------------------------------------------------------- runs

  ghost predicate ProtocolOk(s: State) {
    Disciplined(s) && ResponsesOk(s, |s.adapter|) && RegistrationOk(s) && CapabilitiesOk(s)
  }

  lemma {:induction false} RunProtocol(run: Run, i: nat)
    requires Legal(run) && i < |run.states|
    ensures ProtocolOk(run.states[i])
  {
    if i > 0 {
      var s, step := run.states[i - 1], run.steps[i - 1];
      RunProtocol(run, i - 1);
      RunInvariant(run, i - 1);
      assert Follows(run, i - 1);
      NextDisciplined(s, step);
      NextResponses(s, step);
      NextRegistration(s, step);
      NextCapabilities(s, step);
    }
  }

  lemma ReachableProtocol(s: State)
    requires Reachable(s)
    ensures ProtocolOk(s)
  {
    var run :| Legal(run) && s in run.states;
    var i :| 0 <= i < |run.states| && run.states[i] == s;
    RunProtocol(run, i);
  }
}
