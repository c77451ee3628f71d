/** The promises of the multiplexer, for every run: any clients, any interleaving, any adapter. */
module MuxTheorems {
  import opened Messages
  import opened MuxModel
  import opened MuxInvariant
  import opened ClientQueue
  import opened MuxQueues
  import opened MuxProtocol
  import opened MuxForwarding

  // ---------------------------------------------------------------- routing and accounting

  /** The position in a client's queue answers request r. */
  predicate Answers(o: Origin, r: nat) {
    (o.Answer? && o.req == r) || IsLocalAnswer(o, r)
  }

  /** End-to-end routing: an adapter response queued to a client is the response to a request that this
      client sent, under the number it was forwarded with, and carries the client's own number again. */
  lemma AnswersAreRouted(s: State, c: ClientId, i: nat)
    requires Reachable(s)
    requires i < |QueueOf(s, c)| && QueueOf(s, c)[i].origin.Answer?
    ensures var d := QueueOf(s, c)[i];
      d.origin.req < |s.requests| && d.origin.k < |s.adapter|
      && Routed(s, c, s.requests[d.origin.req], s.adapter[d.origin.k], d.msg, d.origin.req)
  {
    ReachableInv(s);
    var d := s.queues[c][i];
    assert AnswerOk(s, c, i, d.origin) && ContentOk(s, d);
    var n := KeyOf(Get(s.adapter[d.origin.k], RequestSeq)).value;
    assert ForwardedOk(s, n - 1, s.upstream[n - 1]);
    SentFields(s.adapter[d.origin.k], d.msg, Get(s.requests[d.origin.req].msg, Seq));
  }

  /** Whatever is queued to a client is what its origin says: an answer to a request of this client, or an
      adapter's broadcast event or reverse request unchanged, or the replay of one. */
  lemma DeliveriesAreExplained(s: State, c: ClientId, i: nat)
    requires Reachable(s) && i < |QueueOf(s, c)|
    ensures var d := QueueOf(s, c)[i];
      match d.origin
      case Answer(r, k) => Sent(s, c, r) && k < |s.adapter| && IsResponse(s.adapter[k])
      case Greeting(r, _) => Sent(s, c, r) && d.msg == GreetingReply(s.requests[r].msg, s.capabilities)
      case Synthetic(r) => Sent(s, c, r) && d.msg == SyntheticReply(s.requests[r].msg)
      case Event(k) => k < |s.adapter| && d.msg == s.adapter[k] && IsBroadcast(d.msg)
      case Reverse(k) => k < |s.adapter| && d.msg == s.adapter[k] && IsKnownReverseRequest(d.msg)
      case Replay(k) => k <= |s.adapter| && IsCurrent(d.msg, s.adapter[..k])
  {
    ReachableInv(s);
    assert AnswerOk(s, c, i, s.queues[c][i].origin) && ContentOk(s, s.queues[c][i]);
    if s.queues[c][i].origin.Replay? {
      ReachableQueues(s);
      assert ClientOk(s, c, s.queues[c], |s.adapter|);
      ReplayIsCurrent(s.adapter, s.queues[c], i);
    }
  }

  ghost predicate IsCurrent(m: Message, log: seq<Message>) {
    StopIn(log) == Some(m) || InitializedIn(log) == Some(m)
  }

  lemma ReplayIsCurrent(log: seq<Message>, q: seq<Delivery>, i: nat)
    requires BlocksOk(log, q) && ReplaysOk(log, q) && i < |q| && q[i].origin.Replay?
    ensures q[i].origin.k <= |log| && IsCurrent(q[i].msg, log[..q[i].origin.k])
  {
    assert Replayed(log, q, i);
    var j: nat :| InBlock(log, q, j, i);
    BlockElement(log, q, j, i);
    BlockIsCurrent(log[..q[j].origin.k], i - (j + 1));
  }

  lemma BlockElement(log: seq<Message>, q: seq<Delivery>, j: nat, i: nat)
    requires InBlock(log, q, j, i) && BlockAt(log, q, j + 1, q[j].origin.k)
    ensures q[i] == ReplayBlock(log[..q[j].origin.k])[i - (j + 1)]
  {
    var block := ReplayBlock(log[..q[j].origin.k]);
    assert q[i] == q[j + 1..j + 1 + |block|][i - (j + 1)];
  }

  lemma BlockIsCurrent(log: seq<Message>, n: nat)
    requires n < |ReplayBlock(log)|
    ensures ReplayBlock(log)[n].origin == Replay(|log|) && IsCurrent(ReplayBlock(log)[n].msg, log)
  {
  }

  /** Restoring the number changes nothing else; the rewrite changes only the text of a stale-variable error. */
  lemma SentFields(response: Message, sent: Message, number: Json)
    requires sent == RewriteStaleVariableError(response)[RequestSeq := number]
    ensures SentAs(response, sent, number)
  {
  }

  ghost predicate SentAs(response: Message, sent: Message, number: Json) {
    && Get(sent, RequestSeq) == number
    && (forall f :: f != RequestSeq && f != ErrorText ==> Get(sent, f) == Get(response, f))
    && Get(sent, ErrorText) == if IsStaleVariableError(response)
                               then String(Text(response, ErrorText) + STALE_HINT) else Get(response, ErrorText)
  }

  ghost predicate Routed(s: State, c: ClientId, request: Request, response: Message, sent: Message, r: nat) {
    && request.client == c
    && IsResponse(response) && KeyOf(Get(response, RequestSeq)).Some?
    && var n := KeyOf(Get(response, RequestSeq)).value;
    && 1 <= n <= |s.upstream| && s.upstream[n - 1].req == r
    && s.upstream[n - 1].msg == request.msg[Seq := Number(n)]
    && SentAs(response, sent, Get(request.msg, Seq))
  }

  /** No request is answered twice, whatever the adapter repeats or invents, and no adapter response
      reaches two places. */
  lemma AnsweredOnce(s: State, c: ClientId, i: nat, c': ClientId, i': nat, r: nat)
    requires Reachable(s)
    requires i < |QueueOf(s, c)| && i' < |QueueOf(s, c')|
    requires var o, o' := QueueOf(s, c)[i].origin, QueueOf(s, c')[i'].origin;
      (Answers(o, r) && Answers(o', r)) || (o.Answer? && o'.Answer? && o.k == o'.k)
    ensures c == c' && i == i'
  {
    ReachableInv(s);
    assert AnswerOk(s, c, i, s.queues[c][i].origin) && AnswerOk(s, c', i', s.queues[c'][i'].origin);
    assert ContentOk(s, s.queues[c][i]) && ContentOk(s, s.queues[c'][i']);
  }

  datatype Outcome = ByMultiplexer | ByAdapter | PendingUpstream | InTheBuffer | LostWithClient

  /** What has become of request r, read off the queues, the pending map and the buffer. */
  ghost predicate HasOutcome(s: State, r: nat, o: Outcome) {
    var q := QueueOf(s, SenderOf(s, r));
    match o
    case ByMultiplexer => exists i :: 0 <= i < |q| && IsLocalAnswer(q[i].origin, r)
    case ByAdapter => exists i :: 0 <= i < |q| && q[i].origin.Answer? && q[i].origin.req == r
    case PendingUpstream => exists n :: n in s.pending && ReqOf(s, n) == r
    case InTheBuffer => SenderOf(s, r) in s.clients && InBuffer(s, r)
    case LostWithClient => SenderOf(s, r) !in s.clients && forall i :: 0 <= i < |q| ==> !Answers(q[i].origin, r)
  }

  function OutcomeOf(f: Fate): Outcome {
    match f
    case Waiting => InTheBuffer
    case Upstream(_) => PendingUpstream
    case AnsweredLocally(_) => ByMultiplexer
    case AnsweredByAdapter(_, _) => ByAdapter
    case Discarded => LostWithClient
  }

  lemma AnswersShowFate(s: State, r: nat)
    requires Inv(s) && r < |s.requests|
    ensures HasOutcome(s, r, ByMultiplexer) ==> s.fates[r].AnsweredLocally?
    ensures HasOutcome(s, r, ByAdapter) ==> s.fates[r].AnsweredByAdapter?
    ensures (exists i :: 0 <= i < |QueueOf(s, SenderOf(s, r))| && Answers(QueueOf(s, SenderOf(s, r))[i].origin, r))
            ==> s.fates[r].AnsweredLocally? || s.fates[r].AnsweredByAdapter?
  {
    var c := SenderOf(s, r);
    var q := QueueOf(s, c);
    forall i | 0 <= i < |q| ensures AnswerOk(s, c, i, q[i].origin) {
    }
  }

  lemma MapsShowFate(s: State, r: nat)
    requires Inv(s) && r < |s.requests|
    ensures HasOutcome(s, r, PendingUpstream) ==> s.fates[r].Upstream?
    ensures HasOutcome(s, r, InTheBuffer) ==> s.fates[r].Waiting?
  {
    if HasOutcome(s, r, InTheBuffer) {
      var i :| 0 <= i < |s.buffered| && s.buffered[i].req == r;
      assert BufferedOk(s, s.buffered[i]);
      assert FateOk(s, |s.requests|, r, s.fates[r]);
    }
  }

  lemma FateIsOutcome(s: State, r: nat)
    requires Inv(s) && r < |s.requests|
    ensures HasOutcome(s, r, OutcomeOf(s.fates[r]))
  {
    assert FateOk(s, |s.requests|, r, s.fates[r]);
    AnswersShowFate(s, r);
  }

  lemma LostShowsFate(s: State, r: nat)
    requires Inv(s) && r < |s.requests| && HasOutcome(s, r, LostWithClient)
    ensures s.fates[r].Discarded?
  {
    assert FateOk(s, |s.requests|, r, s.fates[r]);
  }

  /** Request accounting: of every request ever sent exactly one holds: the multiplexer answered it, the
      adapter answered it, it is pending upstream, it is buffered, or its client left before an answer. */
  lemma EveryRequestAccountedFor(s: State, r: nat)
    requires Reachable(s) && r < |s.requests|
    ensures exists o :: HasOutcome(s, r, o)
              && forall p :: HasOutcome(s, r, p) ==> p == o
  {
    ReachableInv(s);
    FateIsOutcome(s, r);
    forall p | HasOutcome(s, r, p) ensures p == OutcomeOf(s.fates[r]) {
      AnswersShowFate(s, r);
      MapsShowFate(s, r);
      if p == LostWithClient { LostShowsFate(s, r); }
    }
  }

  function SenderOf(s: State, r: nat): ClientId {
    if r < |s.requests| then s.requests[r].client else 0
  }

  /** While its client is connected, a forwarded request is answered by the first response to it that the
      adapter sends after it was forwarded, and pending until then. */
  lemma FirstResponseIsTheAnswer(s: State, i: nat, k: nat)
    requires Reachable(s) && i < |s.upstream|
    requires SenderOf(s, s.upstream[i].req) in s.clients
    ensures var f := s.upstream[i];
      var q := QueueOf(s, SenderOf(s, f.req));
      && (FirstResponse(s.adapter, i + 1, f.at, k) <==> exists j :: 0 <= j < |q| && q[j].origin == Answer(f.req, k))
      && (NoResponse(s.adapter, i + 1, f.at, |s.adapter|) <==> i + 1 in s.pending)
  {
    ReachableInv(s);
    ReachableProtocol(s);
    var f := s.upstream[i];
    var q := QueueOf(s, s.requests[f.req].client);
    assert ResponseOk(s, i + 1, f, |s.adapter|);
    UpstreamFate(s, i);
    forall j | 0 <= j < |q| && q[j].origin == Answer(f.req, k)
      ensures s.fates[f.req] == AnsweredByAdapter(j, k)
    {
      assert AnswerOk(s, s.requests[f.req].client, j, q[j].origin);
    }
    if s.fates[f.req].AnsweredByAdapter? {
      assert FateOk(s, |s.requests|, f.req, s.fates[f.req]);
      assert q[s.fates[f.req].at].origin == Answer(f.req, s.fates[f.req].k);
    }
  }

  /** Client ids are never reused, and the maps name connected clients only: no "client is gone" branch
      is reached with an answer or a reverse request in hand. */
  lemma OnlyConnectedClients(s: State)
    requires Reachable(s)
    ensures
      && (forall n :: n in s.pending ==> s.pending[n].client in s.clients)
      && (forall c :: c in s.initArgs ==> c in s.clients)
      && (forall c :: c in s.initOrder <==> c in s.initArgs)
      && (forall c: ClientId :: c in s.joined ==> c < s.nextClient)
      && (forall i :: 0 <= i < |s.buffered| ==> s.buffered[i].client == SenderOf(s, s.buffered[i].req))
  {
    ReachableInv(s);
    forall n | n in s.pending ensures s.pending[n].client in s.clients {
      assert FateOk(s, |s.requests|, ReqOf(s, n), s.fates[ReqOf(s, n)]);
    }
    forall i | 0 <= i < |s.buffered| ensures s.buffered[i].client == SenderOf(s, s.buffered[i].req) {
      assert BufferedOk(s, s.buffered[i]);
    }
  }

  // ---------------------------------------------------------------- order and completeness

  /** What the adapter gets is determined by what the clients sent: the requests selected by the earlier
      requests alone, in the order they came in, renumbered 1, 2, 3 and so on and otherwise unchanged. */
  lemma UpstreamFollowsRequests(s: State)
    requires Reachable(s)
    ensures var rs := Selected(s.requests);
      && |s.upstream| == |rs| && s.nextSeq == |rs| + 1
      && (forall i :: 0 <= i < |rs| ==> s.upstream[i].msg == s.requests[rs[i]].msg[Seq := Number(i + 1)])
  {
    ReachableInv(s);
    ReachableForwarding(s);
    assert |Positions(s.upstream)| == |s.upstream|;
    forall i | 0 <= i < |s.upstream|
      ensures s.upstream[i].msg == s.requests[Selected(s.requests)[i]].msg[Seq := Number(i + 1)]
    {
      assert ForwardedOk(s, i, s.upstream[i]);
      assert Positions(s.upstream)[i] == s.upstream[i].req;
    }
  }

  /** And the multiplexer answers exactly the others, initialize apart. */
  lemma OthersAreAnsweredLocally(s: State, r: nat)
    requires Reachable(s) && r < |s.requests| && !KindOf(s.requests[r].msg).Initialize?
    ensures HasOutcome(s, r, ByMultiplexer) <==> !GoesUpstream(s.requests[..r], KindOf(s.requests[r].msg))
  {
    ReachableInv(s);
    ReachableForwarding(s);
    ReachableRestAnswered(s);
    FateIsOutcome(s, r);
    AnswersShowFate(s, r);
    SelectedExactly(s.requests, r);
    if r in Selected(s.requests) {
      var i :| 0 <= i < |s.upstream| && Positions(s.upstream)[i] == r;
      assert ForwardedOk(s, i, s.upstream[i]);
    } else {
      assert Intercepts(s, r);
    }
  }

  /** A client is sent exactly the unfiltered events of its time, in order; what it gets from the adapter
      keeps the adapter's order; and replays stand only behind the greeting they belong to. */
  lemma ClientsAreSentEverything(s: State, c: ClientId)
    requires Reachable(s) && c < s.nextClient
    ensures
      && c in s.joined && s.joined[c] <= EndOf(s, c) <= |s.adapter|
      && (c in s.clients <==> c !in s.left)
      && EventsOf(QueueOf(s, c)) == BroadcastsIn(s.adapter[s.joined[c]..EndOf(s, c)])
      && Ordered(QueueOf(s, c), |s.adapter|)
      && BlocksOk(s.adapter, QueueOf(s, c)) && ReplaysOk(s.adapter, QueueOf(s, c))
  {
    ReachableInv(s);
    ReachableQueues(s);
    assert ClientOk(s, c, s.queues[c], |s.adapter|);
  }

  /** Late joiners see the current state: what a client can conclude from the events queued to it is
      nothing or the truth, and the truth once the multiplexer has answered its initialize. */
  lemma LateJoinersAgree(s: State, c: ClientId)
    requires Reachable(s) && c in s.clients
    ensures
      && s.stoppedEvent == StopIn(s.adapter) && s.initializedEvent == InitializedIn(s.adapter)
      && Agrees(StopIn(MessagesOf(QueueOf(s, c))), s.stoppedEvent, Greeted(QueueOf(s, c)))
      && Agrees(InitializedIn(MessagesOf(QueueOf(s, c))), s.initializedEvent, Greeted(QueueOf(s, c)))
  {
    ReachableInv(s);
    ReachableQueues(s);
    assert ClientOk(s, c, s.queues[c], |s.adapter|);
    assert s.adapter[..|s.adapter|] == s.adapter;
  }

  // ---------------------------------------------------------------- what runs never undo

  /** What was queued stays queued, and the phase does not go back. */
  ghost predicate Grows(s: State, t: State) {
    && s.phase.Rank() <= t.phase.Rank()
    && s.upstream <= t.upstream && s.requests <= t.requests && s.adapter <= t.adapter
    && s.nextClient <= t.nextClient
    && QueuesGrow(s.queues, t.queues)
  }

  ghost predicate QueuesGrow(before: map<ClientId, seq<Delivery>>, after: map<ClientId, seq<Delivery>>) {
    forall c :: c in before ==> c in after && before[c] <= after[c]
  }

  lemma PostGrows(s: State, c: ClientId, d: Delivery)
    ensures QueuesGrow(s.queues, Post(s, c, d).queues)
  {
  }

  lemma GrowsOn(a: map<ClientId, seq<Delivery>>, b: map<ClientId, seq<Delivery>>, c: map<ClientId, seq<Delivery>>)
    requires QueuesGrow(a, b) && QueuesGrow(b, c)
    ensures QueuesGrow(a, c)
  {
  }

  lemma ReplayGrows(s: State, c: ClientId, event: Option<Message>)
    ensures QueuesGrow(s.queues, ReplayCached(s, c, event).queues)
  {
    if event.Some? { PostGrows(s, c, Delivery(event.value, Replay(|s.adapter|))); }
  }

  lemma GreetGrows(s: State, c: ClientId, msg: Message, r: nat)
    ensures QueuesGrow(s.queues, Greet(s, c, msg, r).queues)
  {
    if c in s.clients {
      var g := Delivery(GreetingReply(msg, s.capabilities), Greeting(r, |s.adapter|));
      var s1 := Settle(Post(s, c, g), r, AnsweredLocally(|QueueOf(s, c)|));
      var s2 := ReplayCached(s1, c, s.initializedEvent);
      PostGrows(s, c, g);
      ReplayGrows(s1, c, s.initializedEvent);
      ReplayGrows(s2, c, s.stoppedEvent);
      GrowsOn(s.queues, s1.queues, s2.queues);
      GrowsOn(s.queues, s2.queues, Greet(s, c, msg, r).queues);
    }
  }

  lemma {:induction false} DrainGrows(s: State)
    ensures QueuesGrow(s.queues, Drain(s).queues)
    decreases |s.buffered|
  {
    if s.buffered != [] {
      var b := s.buffered[0];
      var t := s.(buffered := s.buffered[1..]);
      var u := Greet(t, b.client, b.msg, b.req);
      GreetGrows(t, b.client, b.msg, b.req);
      GreetFrame(t, b.client, b.msg, b.req);
      DrainGrows(u);
      GrowsOn(s.queues, u.queues, Drain(u).queues);
    }
  }

  lemma InitializeGrows(s: State, c: ClientId, msg: Message, r: nat)
    ensures QueuesGrow(s.queues, InitializeRequest(s, c, msg, r).queues)
  {
    GreetGrows(Register(s, c, msg), c, msg, r);
  }

  lemma SyntheticGrows(s: State, c: ClientId, msg: Message, r: nat)
    ensures QueuesGrow(s.queues, ReplySynthetic(s, c, msg, r).queues)
  {
    PostGrows(s, c, Delivery(SyntheticReply(msg), Synthetic(r)));
  }

  lemma HandleGrows(s: State, c: ClientId, msg: Message, r: nat, kind: Kind)
    ensures QueuesGrow(s.queues, HandleRequest(s, c, msg, r, kind).queues)
  {
    if kind.Initialize? { InitializeGrows(s, c, msg, r); }
    else if Intercepted(s.phase, kind) { SyntheticGrows(s, c, msg, r); }
    else { ForwardFrame(Configure(s, kind), c, msg, r); }
  }

  lemma AdapterGrows(s: State, msg: Message)
    ensures QueuesGrow(s.queues, AdapterMessage(s, msg).queues)
  {
    DispatchGrows(s.(adapter := s.adapter + [msg]), msg, |s.adapter|, RoutingOf(msg));
  }

  lemma DispatchGrows(s: State, msg: Message, k: nat, routing: Routing)
    ensures QueuesGrow(s.queues, Dispatch(s, msg, k, routing).queues)
  {
    match routing
    case ToSender => ResponseGrows(s, RewriteStaleVariableError(msg), k);
    case ToAll => EventGrows(s, msg, k);
    case ToTarget => ReverseGrows(s, msg, k);
    case Dropped =>
  }

  lemma ResponseGrows(s: State, m: Message, k: nat)
    ensures QueuesGrow(s.queues, RouteResponse(s, m, k).queues)
  {
    var t := CacheCapabilities(s, m);
    CacheGrows(s, m);
    ResolveGrows(t, m, k);
    GrowsOn(s.queues, t.queues, Resolve(t, m, k).queues);
  }

  lemma CacheGrows(s: State, m: Message)
    ensures QueuesGrow(s.queues, CacheCapabilities(s, m).queues)
  {
    DrainGrows(s.(phase := Initialized, capabilities := Get(m, Body)));
  }

  lemma ResolveGrows(s: State, m: Message, k: nat)
    ensures QueuesGrow(s.queues, Resolve(s, m, k).queues)
  {
  }

  lemma EventGrows(s: State, m: Message, k: nat)
    ensures QueuesGrow(s.queues, BroadcastEvent(s, m, k).queues)
  {
  }

  lemma ReverseGrows(s: State, m: Message, k: nat)
    ensures QueuesGrow(s.queues, RouteReverseRequest(s, m, k).queues)
  {
  }

  lemma NextGrows(s: State, step: Step)
    requires Inv(s) && ProtocolOk(s) && Enabled(s, step)
    ensures Grows(s, Next(s, step))
  {
    NextDisciplined(s, step);
    match step
    case Accept =>
    case FromClient(c, msg) =>
      if IsRequest(msg) { RequestGrows(s, c, msg); }
    case FromAdapter(msg) => AdapterGrows(s, msg); AdapterFrame(s, msg);
    case Disconnect(c) =>
  }

  lemma RequestGrows(s: State, c: ClientId, msg: Message)
    ensures var t := ClientRequest(s, c, msg);
      && s.requests <= t.requests && s.upstream <= t.upstream && t.adapter == s.adapter
      && t.nextClient == s.nextClient && QueuesGrow(s.queues, t.queues)
  {
    RequestFrame(s, c, msg);
    RequestSends(s, c, msg);
    HandleGrows(Record(s, c, msg), c, msg, |s.requests|, KindOf(msg));
  }

  /** History is never rewritten: nothing is unsent, and a later state only knows more. */
  lemma {:induction false} HistoryGrows(run: Run, i: nat, j: nat)
    requires Legal(run) && i <= j < |run.states|
    ensures Grows(run.states[i], run.states[j])
    decreases j
  {
    if i < j {
      HistoryGrows(run, i, j - 1);
      RunInvariant(run, j - 1);
      RunProtocol(run, j - 1);
      assert Follows(run, j - 1);
      NextGrows(run.states[j - 1], run.steps[j - 1]);
    }
  }

  /** Once greeted, a client that stays connected is and remains in agreement with the adapter's log. */
  lemma GreetedStaysInAgreement(run: Run, i: nat, j: nat, c: ClientId)
    requires Legal(run) && i <= j < |run.states|
    requires Greeted(QueueOf(run.states[i], c)) && c in run.states[j].clients
    ensures var t := run.states[j];
      && StopIn(MessagesOf(QueueOf(t, c))) == StopIn(t.adapter)
      && InitializedIn(MessagesOf(QueueOf(t, c))) == InitializedIn(t.adapter)
  {
    HistoryGrows(run, i, j);
    LateJoinersAgree(run.states[j], c);
    var q, q' := QueueOf(run.states[i], c), QueueOf(run.states[j], c);
    var k :| 0 <= k < |q| && q[k].origin.Greeting?;
    assert q'[k] == q[k];
  }

  // ---------------------------------------------------------------- the session is protected

  /** The adapter gets at most one initialize and one configurationDone, no attach or launch after the
      configurationDone, and never a command that would end the session. */
  lemma SessionIsProtected(s: State)
    requires Reachable(s)
    ensures forall i :: 0 <= i < |s.upstream| ==> !KindOf(s.upstream[i].msg).Ending?
    ensures forall i, j :: 0 <= i < j < |s.upstream| ==>
              var a, b := KindOf(s.upstream[i].msg), KindOf(s.upstream[j].msg);
              && !(a.Initialize? && b.Initialize?)
              && !(a.ConfigurationDone? && b.ConfigurationDone?)
              && !(a.ConfigurationDone? && b.Start?)
  {
    ReachableProtocol(s);
    forall i | 0 <= i < |s.upstream| ensures !KindOf(s.upstream[i].msg).Ending? {
      assert SentInPhase(KindOf(s.upstream[i].msg), s.phase);
    }
  }

  // ---------------------------------------------------------------- buffered initializes

  /** Every initialize answered from the cache carries the same capabilities, those that the adapter
      announced in a successful initialize response. */
  lemma GreetingsAgree(s: State, c: ClientId, i: nat)
    requires Reachable(s)
    requires i < |QueueOf(s, c)| && QueueOf(s, c)[i].origin.Greeting?
    ensures var d := QueueOf(s, c)[i];
      && d.origin.req < |s.requests| && s.requests[d.origin.req].client == c
      && Get(d.msg, RequestSeq) == Get(s.requests[d.origin.req].msg, Seq)
      && Get(d.msg, Success) == Bool(true)
      && Get(d.msg, Body) == s.capabilities
      && (s.capabilities.Null? || exists k :: 0 <= k < |s.adapter| && Announces(s.adapter[k], s.capabilities))
  {
    ReachableInv(s);
    ReachableProtocol(s);
    assert AnswerOk(s, c, i, s.queues[c][i].origin) && ContentOk(s, s.queues[c][i]);
  }

  lemma {:induction false} DrainAnswers(s: State, i: nat)
    requires Inv(s) && s.phase.Rank() >= 2 && i < |s.buffered| && s.buffered[i].client in s.clients
    ensures Drain(s).buffered == []
    ensures s.buffered[i].req < |Drain(s).fates| && Drain(s).fates[s.buffered[i].req].AnsweredLocally?
    decreases |s.buffered|
  {
    var b := s.buffered[0];
    var t := s.(buffered := s.buffered[1..]);
    var u := Greet(t, b.client, b.msg, b.req);
    assert BufferedOk(s, b) && BufferedOk(s, s.buffered[i]);
    TakeKeeps(s);
    GreetKeeps(t, b.client, b.msg, b.req);
    GreetFrame(t, b.client, b.msg, b.req);
    DrainFrame(u);
    if i > 0 { DrainAnswers(u, i - 1); }
    else { GreetSettles(t, b.client, b.msg, b.req); DrainKeepsAnswered(u); }
  }

  lemma GreetSettles(s: State, c: ClientId, msg: Message, r: nat)
    requires c in s.clients && r < |s.fates|
    ensures |Greet(s, c, msg, r).fates| == |s.fates| && Greet(s, c, msg, r).fates[r].AnsweredLocally?
  {
  }

  /** A successful initialize response empties the buffer: every buffered initialize whose client is still
      connected has been answered with the capabilities in that response. */
  lemma InitializeResponseAnswersTheBuffer(s: State, msg: Message, i: nat)
    requires Reachable(s) && s.phase.Initializing?
    requires IsResponse(msg) && IsInitializeSuccess(msg) && !Get(msg, RequestSeq).Null?
    requires i < |s.buffered|
    requires s.buffered[i].client in s.clients
    ensures var t := AdapterMessage(s, msg);
      var b := s.buffered[i];
      && t.buffered == [] && t.phase == Initialized && t.capabilities == Get(msg, Body)
      && exists j :: 0 <= j < |QueueOf(t, b.client)|
           && QueueOf(t, b.client)[j].origin.Greeting? && QueueOf(t, b.client)[j].origin.req == b.req
           && QueueOf(t, b.client)[j].msg == GreetingReply(b.msg, Get(msg, Body))
  {
    ReachableInv(s);
    AdapterMessageKeeps(s, msg);
    DrainAnswersResponse(s, msg, i);
    var t, b := AdapterMessage(s, msg), s.buffered[i];
    AdapterFrame(s, msg);
    assert BufferedOk(s, b);
    assert FateOk(t, |t.requests|, b.req, t.fates[b.req]);
    var j := t.fates[b.req].at;
    assert ContentOk(t, t.queues[b.client][j]);
  }

  lemma DrainAnswersResponse(s: State, msg: Message, i: nat)
    requires Inv(s) && s.phase.Initializing? && IsResponse(msg) && IsInitializeSuccess(msg)
    requires !Get(msg, RequestSeq).Null? && i < |s.buffered| && s.buffered[i].client in s.clients
    ensures var t := AdapterMessage(s, msg);
      && t.buffered == [] && t.phase == Initialized && t.capabilities == Get(msg, Body)
      && s.buffered[i].req < |t.fates| && t.fates[s.buffered[i].req].AnsweredLocally?
  {
    var m, t := RewriteStaleVariableError(msg), s.(adapter := s.adapter + [msg]);
    LogKeeps(s, msg);
    LearnKeeps(t, Get(m, Body));
    var v := t.(phase := Initialized, capabilities := Get(m, Body));
    DrainAnswers(v, i);
    DrainFrame(v);
    DrainKeeps(v);
    ResolveSpares(Drain(v), m, |s.adapter|, s.buffered[i].req);
  }

  /** Routing a response leaves requests alone that are answered already. */
  lemma ResolveSpares(s: State, m: Message, k: nat, r: nat)
    requires Inv(s) && r < |s.fates| && s.fates[r].AnsweredLocally?
    ensures var t := Resolve(s, m, k);
      && t.buffered == s.buffered && t.phase == s.phase && t.capabilities == s.capabilities
      && r < |t.fates| && t.fates[r].AnsweredLocally?
  {
  }

  // ---------------------------------------------------------------- stranded initializes

  /** Buffered initializes that no response will answer any more. */
  predicate Stranded(s: State) {
    s.buffered != [] && !s.phase.Initializing?
  }

  /** A configurationDone that overtakes the response to a buffered initialize. */
  predicate Overtakes(s: State, step: Step) {
    && step.FromClient? && IsRequest(step.msg) && KindOf(step.msg).ConfigurationDone?
    && s.phase.Initializing? && s.buffered != []
  }

  lemma RequestStrands(s: State, c: ClientId, msg: Message, r: nat, kind: Kind)
    requires s.phase.PreInit? ==> s.buffered == []
    ensures var t := HandleRequest(s, c, msg, r, kind);
      && (t.phase.PreInit? ==> t.buffered == [])
      && (Stranded(t) <==> Stranded(s) || (kind.ConfigurationDone? && s.phase.Initializing? && s.buffered != []))
      && (Stranded(s) ==> t.buffered == s.buffered)
  {
    if kind.Initialize? { GreetFrame(Register(s, c, msg), c, msg, r); }
    else { SyntheticFrame(s, c, msg, r); ForwardFrame(Configure(s, kind), c, msg, r); }
  }

  lemma AdapterStrands(s: State, msg: Message)
    ensures var t := AdapterMessage(s, msg);
      && (t.phase.PreInit? <==> s.phase.PreInit?)
      && (Stranded(t) <==> Stranded(s))
      && (Stranded(s) || s.phase.PreInit? ==> t.buffered == s.buffered)
  {
    DispatchStrands(s.(adapter := s.adapter + [msg]), msg, |s.adapter|, RoutingOf(msg));
  }

  lemma DispatchStrands(s: State, msg: Message, k: nat, routing: Routing)
    ensures Drained(s, Dispatch(s, msg, k, routing))
  {
    ResponseStrands(s, RewriteStaleVariableError(msg), k);
  }

  ghost predicate SameBuffer(s: State, t: State) {
    t.phase == s.phase && t.buffered == s.buffered
  }

  lemma CacheStrands(s: State, m: Message)
    ensures Drained(s, CacheCapabilities(s, m))
  {
    DrainFrame(s.(phase := Initialized, capabilities := Get(m, Body)));
  }

  /** A response leaves the buffer as it is or empties it, ending the initializing phase. */
  ghost predicate Drained(s: State, t: State) {
    SameBuffer(s, t) || (s.phase.Initializing? && t.phase.Initialized? && t.buffered == [])
  }

  lemma ResponseStrands(s: State, m: Message, k: nat)
    ensures Drained(s, RouteResponse(s, m, k))
  {
    CacheStrands(s, m);
    ResolveStrands(CacheCapabilities(s, m), m, k);
  }

  lemma ResolveStrands(s: State, m: Message, k: nat)
    ensures SameBuffer(s, Resolve(s, m, k))
  {
  }

  lemma NextStrands(s: State, step: Step)
    requires s.phase.PreInit? ==> s.buffered == []
    ensures var t := Next(s, step);
      && (t.phase.PreInit? ==> t.buffered == [])
      && (Stranded(t) <==> Stranded(s) || Overtakes(s, step))
      && (Stranded(s) ==> t.buffered == s.buffered)
  {
    match step
    case FromClient(c, msg) =>
      if IsRequest(msg) { RequestStrands(Record(s, c, msg), c, msg, |s.requests|, KindOf(msg)); }
    case FromAdapter(msg) => AdapterStrands(s, msg);
    case _ =>
  }

  lemma {:induction false} NothingBufferedBeforeInitialize(run: Run, i: nat)
    requires Legal(run) && i < |run.states|
    ensures run.states[i].phase.PreInit? ==> run.states[i].buffered == []
  {
    if i > 0 {
      NothingBufferedBeforeInitialize(run, i - 1);
      assert Follows(run, i - 1);
      NextStrands(run.states[i - 1], run.steps[i - 1]);
    }
  }

  /** Before the i-th state, some configurationDone was handled while an initialize was buffered. */
  ghost predicate WasOvertaken(run: Run, i: nat)
    requires i < |run.states| == |run.steps| + 1
  {
    exists j :: 0 <= j < i && Overtakes(run.states[j], run.steps[j])
  }

  /** The buffer is held outside the initializing phase exactly in the runs in which that has happened. */
  lemma {:induction false} StrandedExactlyWhenOvertaken(run: Run, i: nat)
    requires Legal(run) && i < |run.states|
    ensures Stranded(run.states[i]) <==> WasOvertaken(run, i)
  {
    if i > 0 {
      StrandedExactlyWhenOvertaken(run, i - 1);
      NothingBufferedBeforeInitialize(run, i - 1);
      assert Follows(run, i - 1);
      NextStrands(run.states[i - 1], run.steps[i - 1]);
      assert WasOvertaken(run, i) <==> WasOvertaken(run, i - 1) || Overtakes(run.states[i - 1], run.steps[i - 1]);
    }
  }

  /** A stranded initialize is never answered, whatever happens next. */
  lemma StrandedForever(run: Run, i: nat, j: nat)
    requires Legal(run) && i <= j < |run.states| && Stranded(run.states[i])
    ensures Stranded(run.states[j]) && run.states[j].buffered == run.states[i].buffered
    ensures forall b :: b in run.states[i].buffered ==>
              !HasOutcome(run.states[j], b.req, ByMultiplexer) && !HasOutcome(run.states[j], b.req, ByAdapter)
  {
    StrandedStays(run, i, j);
    RunInvariant(run, j);
    BufferedAreUnanswered(run.states[j]);
  }

  lemma {:induction false} StrandedStays(run: Run, i: nat, j: nat)
    requires Legal(run) && i <= j < |run.states| && Stranded(run.states[i])
    ensures Stranded(run.states[j]) && run.states[j].buffered == run.states[i].buffered
    decreases j
  {
    if i < j {
      StrandedStays(run, i, j - 1);
      NothingBufferedBeforeInitialize(run, j - 1);
      assert Follows(run, j - 1);
      NextStrands(run.states[j - 1], run.steps[j - 1]);
    }
  }

  lemma BufferedAreUnanswered(s: State)
    requires Inv(s)
    ensures forall b :: b in s.buffered ==> !HasOutcome(s, b.req, ByMultiplexer) && !HasOutcome(s, b.req, ByAdapter)
  {
    forall b | b in s.buffered ensures !HasOutcome(s, b.req, ByMultiplexer) && !HasOutcome(s, b.req, ByAdapter) {
      var i :| 0 <= i < |s.buffered| && s.buffered[i] == b;
      assert BufferedOk(s, s.buffered[i]);
      AnswersShowFate(s, b.req);
    }
  }

  const INITIALIZE: Message := map[
    Seq := Number(1), Type := String("request"), Command := String("initialize")]
  const CONFIGURATION_DONE: Message := map[
    Seq := Number(2), Type := String("request"), Command := String("configurationDone")]

  lemma KindsOfRequests()
    ensures IsRequest(INITIALIZE) && KindOf(INITIALIZE) == Initialize
    ensures IsRequest(CONFIGURATION_DONE) && KindOf(CONFIGURATION_DONE) == ConfigurationDone
  {
  }

  lemma TwoClients() returns (run: Run)
    ensures Legal(run) && run.steps == [Accept, Accept]
    ensures var s := run.states[2]; s.clients == [0, 1] && s.phase == PreInit && s.buffered == []
  {
    run := OneMore(Run([], [INITIAL]), Accept);
    run := OneMore(run, Accept);
  }

  lemma BothInitialize(run: Run) returns (next: Run)
    requires Legal(run) && |run.steps| == 2
    requires run.states[2].clients == [0, 1] && run.states[2].phase == PreInit && run.states[2].buffered == []
    ensures Legal(next) && next.steps == run.steps + [FromClient(0, INITIALIZE), FromClient(1, INITIALIZE)]
    ensures var s := next.states[4]; s.clients == [0, 1] && s.phase == Initializing && s.buffered != []
  {
    KindsOfRequests();
    next := OneMore(run, FromClient(0, INITIALIZE));
    assert next.states[3].clients == [0, 1] && next.states[3].phase == Initializing;
    next := OneMore(next, FromClient(1, INITIALIZE));
  }

  /** A run in which that happens: two clients initialize, and the first does not wait for its response. */
  lemma AnOvertakingRun() returns (run: Run)
    ensures run.steps == [Accept, Accept, FromClient(0, INITIALIZE), FromClient(1, INITIALIZE),
                          FromClient(0, CONFIGURATION_DONE)]
    ensures Legal(run) && Stranded(run.states[5])
  {
    run := TwoClients();
    run := BothInitialize(run);
    KindsOfRequests();
    run := OneMore(run, FromClient(0, CONFIGURATION_DONE));
  }
}
