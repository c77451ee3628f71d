/** Which requests the adapter gets. The multiplexer decides by its phase, which clients and adapter change
    between them; seen from outside, the decision depends on the earlier requests alone. */
module MuxForwarding {
  import opened Messages
  import opened MuxModel
  import opened MuxInvariant

  /** Some client sent a request of this kind. */
  predicate WasSent(requests: seq<Request>, kind: Kind) {
    requests != [] &&
    (KindOf(requests[|requests| - 1].msg) == kind || WasSent(requests[..|requests| - 1], kind))
  }

  /** The adapter gets every ordinary request; attach and launch until some client has sent configurationDone;
      the first configurationDone; the first initialize unless configurationDone came before it; and never
      what would end the session. */
  predicate GoesUpstream(before: seq<Request>, kind: Kind) {
    match kind
    case Ordinary => true
    case Ending => false
    case Start => !WasSent(before, ConfigurationDone)
    case ConfigurationDone => !WasSent(before, ConfigurationDone)
    case Initialize => !WasSent(before, ConfigurationDone) && !WasSent(before, Initialize)
  }

  /** The positions of the requests that go upstream. */
  function Selected(requests: seq<Request>): (rs: seq<nat>)
    ensures forall i :: 0 <= i < |rs| ==> rs[i] < |requests|
    ensures forall i, j :: 0 <= i < j < |rs| ==> rs[i] < rs[j]
  {
    if requests == [] then []
    else
      var n := |requests| - 1;
      Selected(requests[..n]) + if GoesUpstream(requests[..n], KindOf(requests[n].msg)) then [n] else []
  }

  function Positions(upstream: seq<Forwarded>): seq<nat> {
    seq(|upstream|, i requires 0 <= i < |upstream| => upstream[i].req)
  }

  /** The phase says which kinds of requests have been sent, and the upstream log is what follows from them. */
  ghost predicate ForwardingOk(s: State) {
    && Positions(s.upstream) == Selected(s.requests)
    && (s.phase.PreInit? <==> !WasSent(s.requests, Initialize) && !WasSent(s.requests, ConfigurationDone))
    && (s.phase.Configured? <==> WasSent(s.requests, ConfigurationDone))
  }

  lemma {:induction false} SelectedExactly(requests: seq<Request>, r: nat)
    ensures r in Selected(requests) <==> r < |requests| && GoesUpstream(requests[..r], KindOf(requests[r].msg))
  {
    if requests != [] {
      var n := |requests| - 1;
      SelectedExactly(requests[..n], r);
      if r < n { assert requests[..n][..r] == requests[..r]; }
    }
  }

  // ---------------------------------------------------------------- steps

  lemma SelectedAppend(requests: seq<Request>, request: Request)
    ensures Selected(requests + [request]) ==
            Selected(requests) + if GoesUpstream(requests, KindOf(request.msg)) then [|requests|] else []
    ensures forall kind :: WasSent(requests + [request], kind) <==>
              WasSent(requests, kind) || KindOf(request.msg) == kind
  {
    assert (requests + [request])[..|requests|] == requests;
  }

  predicate Forwards(phase: Phase, kind: Kind) {
    if kind.Initialize? then phase.PreInit? else !Intercepted(phase, kind)
  }

  function PhaseAfter(phase: Phase, kind: Kind): Phase {
    if kind.ConfigurationDone? then Configured
    else if kind.Initialize? && phase.PreInit? then Initializing
    else phase
  }

  /** What handling a request does to the upstream log and the phase. */
  ghost predicate Handled(s: State, t: State, r: nat, kind: Kind) {
    && s.upstream <= t.upstream
    && Positions(t.upstream) == Positions(s.upstream) + (if Forwards(s.phase, kind) then [r] else [])
    && t.phase == PhaseAfter(s.phase, kind)
  }

  lemma SameUpstream(s: State, t: State, r: nat, kind: Kind)
    requires t.upstream == s.upstream && t.phase == PhaseAfter(s.phase, kind) && !Forwards(s.phase, kind)
    ensures Handled(s, t, r, kind)
  {
  }

  lemma ForwardHandled(s: State, u: State, c: ClientId, msg: Message, r: nat, kind: Kind)
    requires u.upstream == s.upstream && u.phase == PhaseAfter(s.phase, kind) && Forwards(s.phase, kind)
    ensures Handled(s, Forward(u, c, msg, r), r, kind)
  {
    ForwardFrame(u, c, msg, r);
    assert Forward(u, c, msg, r).upstream == u.upstream + [Forwarded(msg[Seq := Number(u.nextSeq)], r, |u.adapter|)];
  }

  lemma InitializeHandled(s: State, c: ClientId, msg: Message, r: nat)
    ensures Handled(s, InitializeRequest(s, c, msg, r), r, Initialize)
  {
    var u := Register(s, c, msg);
    GreetFrame(u, c, msg, r);
    if s.phase.PreInit? { ForwardHandled(s, u.(phase := Initializing), c, msg, r, Initialize); }
    else { SameUpstream(s, InitializeRequest(s, c, msg, r), r, Initialize); }
  }

  lemma HandleSends(s: State, c: ClientId, msg: Message, r: nat, kind: Kind)
    ensures Handled(s, HandleRequest(s, c, msg, r, kind), r, kind)
  {
    if kind.Initialize? {
      InitializeHandled(s, c, msg, r);
    } else if Intercepted(s.phase, kind) {
      SyntheticFrame(s, c, msg, r);
      SameUpstream(s, ReplySynthetic(s, c, msg, r), r, kind);
    } else {
      ForwardHandled(s, Configure(s, kind), c, msg, r, kind);
    }
  }

  lemma RequestSends(s: State, c: ClientId, msg: Message)
    ensures Handled(s, ClientRequest(s, c, msg), |s.requests|, KindOf(msg))
  {
    HandleSends(Record(s, c, msg), c, msg, |s.requests|, KindOf(msg));
  }

  lemma RequestForwarding(s: State, c: ClientId, msg: Message)
    requires ForwardingOk(s)
    ensures ForwardingOk(ClientRequest(s, c, msg))
  {
    RequestSends(s, c, msg);
    RequestFrame(s, c, msg);
    SelectedAppend(s.requests, Request(c, msg));
  }

  /** Responses end the initializing phase at most, and only client requests go upstream. */
  ghost predicate Quiet(s: State, t: State) {
    t.requests == s.requests && t.upstream == s.upstream
    && (t.phase.PreInit? <==> s.phase.PreInit?) && (t.phase.Configured? <==> s.phase.Configured?)
  }

  lemma ResponseQuiet(s: State, m: Message, k: nat)
    ensures Quiet(s, RouteResponse(s, m, k))
  {
    ResponseFrame(s, m, k);
    DrainFrame(s.(phase := Initialized, capabilities := Get(m, Body)));
  }

  lemma DispatchQuiet(s: State, msg: Message, k: nat, routing: Routing)
    ensures Quiet(s, Dispatch(s, msg, k, routing))
  {
    ResponseQuiet(s, RewriteStaleVariableError(msg), k);
  }

  lemma AdapterQuiet(s: State, msg: Message)
    ensures Quiet(s, AdapterMessage(s, msg))
  {
    DispatchQuiet(s.(adapter := s.adapter + [msg]), msg, |s.adapter|, RoutingOf(msg));
  }

  lemma NextForwarding(s: State, step: Step)
    requires ForwardingOk(s)
    ensures ForwardingOk(Next(s, step))
  {
    match step
    case FromClient(c, msg) => if IsRequest(msg) { RequestForwarding(s, c, msg); }
    case FromAdapter(msg) => AdapterQuiet(s, msg);
    case _ =>
  }

  lemma {:induction false} RunForwarding(run: Run, i: nat)
    requires Legal(run) && i < |run.states|
    ensures ForwardingOk(run.states[i])
  {
    if i > 0 {
      RunForwarding(run, i - 1);
      assert Follows(run, i - 1);
      NextForwarding(run.states[i - 1], run.steps[i - 1]);
    }
  }

  lemma ReachableForwarding(s: State)
    requires Reachable(s)
    ensures ForwardingOk(s)
  {
    var run :| Legal(run) && s in run.states;
    var i :| 0 <= i < |run.states| && run.states[i] == s;
    RunForwarding(run, i);
  }

  // ---------------------------------------------------------------- what is not forwarded is answered

  /** Greetings and answers by the adapter leave a request alone that is answered already. */
  ghost predicate KeepsAnswered(s: State, t: State) {
    && |s.fates| <= |t.fates|
    && forall r :: 0 <= r < |s.fates| && s.fates[r].AnsweredLocally? ==> t.fates[r].AnsweredLocally?
  }

  lemma {:induction false} DrainKeepsAnswered(s: State)
    ensures KeepsAnswered(s, Drain(s))
    decreases |s.buffered|
  {
    if s.buffered != [] {
      var b := s.buffered[0];
      var t := s.(buffered := s.buffered[1..]);
      GreetKeepsAnswered(t, b.client, b.msg, b.req);
      GreetFrame(t, b.client, b.msg, b.req);
      DrainKeepsAnswered(Greet(t, b.client, b.msg, b.req));
    }
  }

  lemma GreetKeepsAnswered(s: State, c: ClientId, msg: Message, r: nat)
    ensures KeepsAnswered(s, Greet(s, c, msg, r))
  {
  }

  lemma ResolveKeepsAnswered(s: State, m: Message, k: nat)
    requires Inv(s)
    ensures KeepsAnswered(s, Resolve(s, m, k))
  {
  }

  lemma ResponseKeepsAnswered(s: State, m: Message, k: nat)
    requires Inv(s)
    ensures KeepsAnswered(s, RouteResponse(s, m, k))
  {
    CacheCapabilitiesKeeps(s, m);
    DrainKeepsAnswered(s.(phase := Initialized, capabilities := Get(m, Body)));
    ResolveKeepsAnswered(CacheCapabilities(s, m), m, k);
  }

  lemma AdapterKeepsAnswered(s: State, msg: Message)
    requires Inv(s)
    ensures KeepsAnswered(s, AdapterMessage(s, msg))
  {
    LogKeeps(s, msg);
    DispatchKeepsAnswered(s.(adapter := s.adapter + [msg]), msg, |s.adapter|, RoutingOf(msg));
  }

  lemma DispatchKeepsAnswered(s: State, msg: Message, k: nat, routing: Routing)
    requires Inv(s)
    ensures KeepsAnswered(s, Dispatch(s, msg, k, routing))
  {
    ResponseKeepsAnswered(s, RewriteStaleVariableError(msg), k);
  }

  lemma HandleKeepsAnswered(s: State, c: ClientId, msg: Message, r: nat, kind: Kind)
    requires r < |s.fates| && s.fates[r].Waiting?
    ensures KeepsAnswered(s, HandleRequest(s, c, msg, r, kind))
    ensures Intercepted(s.phase, kind) && c in s.clients ==>
              kind.Initialize? || HandleRequest(s, c, msg, r, kind).fates[r].AnsweredLocally?
  {
    if kind.Initialize? { InitializeKeepsAnswered(s, c, msg, r); }
    else if Intercepted(s.phase, kind) { SyntheticKeepsAnswered(s, c, msg, r); }
    else { ForwardKeepsAnswered(Configure(s, kind), c, msg, r); }
  }

  lemma InitializeKeepsAnswered(s: State, c: ClientId, msg: Message, r: nat)
    requires r < |s.fates| && s.fates[r].Waiting?
    ensures KeepsAnswered(s, InitializeRequest(s, c, msg, r))
  {
    GreetKeepsAnswered(Register(s, c, msg), c, msg, r);
    ForwardKeepsAnswered(Register(s, c, msg).(phase := Initializing), c, msg, r);
  }

  lemma SyntheticKeepsAnswered(s: State, c: ClientId, msg: Message, r: nat)
    requires r < |s.fates| && s.fates[r].Waiting?
    ensures KeepsAnswered(s, ReplySynthetic(s, c, msg, r))
    ensures c in s.clients ==> ReplySynthetic(s, c, msg, r).fates[r].AnsweredLocally?
  {
  }

  lemma ForwardKeepsAnswered(s: State, c: ClientId, msg: Message, r: nat)
    requires r < |s.fates| && s.fates[r].Waiting?
    ensures KeepsAnswered(s, Forward(s, c, msg, r))
  {
  }

  lemma RequestKeepsAnswered(s: State, c: ClientId, msg: Message)
    requires Inv(s)
    ensures KeepsAnswered(s, ClientRequest(s, c, msg))
    ensures Intercepted(s.phase, KindOf(msg)) && c in s.clients && !KindOf(msg).Initialize? ==>
              |s.requests| < |ClientRequest(s, c, msg).fates|
              && ClientRequest(s, c, msg).fates[|s.requests|].AnsweredLocally?
  {
    HandleKeepsAnswered(Record(s, c, msg), c, msg, |s.requests|, KindOf(msg));
  }

  /** Whatever did not go upstream, initialize apart, the multiplexer has answered. */
  ghost predicate RestAnswered(s: State) {
    forall r {:trigger Intercepts(s, r)} :: 0 <= r < |s.requests| && Intercepts(s, r) ==>
      r < |s.fates| && s.fates[r].AnsweredLocally?
  }

  ghost predicate Intercepts(s: State, r: nat)
    requires r < |s.requests|
  {
    var kind := KindOf(s.requests[r].msg);
    !kind.Initialize? && !GoesUpstream(s.requests[..r], kind)
  }

  lemma NextRestAnswered(s: State, step: Step)
    requires Inv(s) && ForwardingOk(s) && RestAnswered(s) && Enabled(s, step)
    ensures RestAnswered(Next(s, step))
  {
    var t := Next(s, step);
    match step {
      case FromClient(c, msg) =>
        if IsRequest(msg) { RequestRestAnswered(s, c, msg); }
      case FromAdapter(msg) =>
        AdapterKeepsAnswered(s, msg);
        AdapterQuiet(s, msg);
        RestStays(s, t);
      case _ => RestStays(s, t);
    }
  }

  lemma RestStays(s: State, t: State)
    requires RestAnswered(s) && t.requests == s.requests && KeepsAnswered(s, t)
    ensures RestAnswered(t)
  {
    forall r | 0 <= r < |t.requests| && Intercepts(t, r) ensures r < |t.fates| && t.fates[r].AnsweredLocally? {
      assert Intercepts(s, r);
    }
  }

  lemma RequestRestAnswered(s: State, c: ClientId, msg: Message)
    requires Inv(s) && ForwardingOk(s) && RestAnswered(s) && c in s.clients
    ensures RestAnswered(ClientRequest(s, c, msg))
  {
    var t := ClientRequest(s, c, msg);
    RequestKeepsAnswered(s, c, msg);
    RequestFrame(s, c, msg);
    forall r | 0 <= r < |t.requests| && Intercepts(t, r) ensures r < |t.fates| && t.fates[r].AnsweredLocally? {
      if r < |s.requests| {
        assert t.requests[..r] == s.requests[..r] && Intercepts(s, r);
      } else {
        assert t.requests[..r] == s.requests;
      }
    }
  }

  lemma {:induction false} RunRestAnswered(run: Run, i: nat)
    requires Legal(run) && i < |run.states|
    ensures RestAnswered(run.states[i])
  {
    if i > 0 {
      RunRestAnswered(run, i - 1);
      RunInvariant(run, i - 1);
      RunForwarding(run, i - 1);
      assert Follows(run, i - 1);
      NextRestAnswered(run.states[i - 1], run.steps[i - 1]);
    }
  }

  lemma ReachableRestAnswered(s: State)
    requires Reachable(s)
    ensures RestAnswered(s)
  {
    var run :| Legal(run) && s in run.states;
    var i :| 0 <= i < |run.states| && run.states[i] == s;
    RunRestAnswered(run, i);
  }
}
