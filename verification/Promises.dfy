/** What the multiplexer promises, told by the texts and fields of the messages alone. */
module Promises {
  import opened Messages
  import opened MuxModel
  import opened MuxInvariant
  import opened MuxProtocol
  import opened MuxForwarding
  import opened MuxTheorems
  import opened Meanings
  import MuxCapabilities

  // ---------------------------------------------------------------- what the adapter is sent

  /** One of the first r requests had this command. */
  ghost predicate SentBefore(requests: seq<Request>, r: nat, command: string) {
    exists j: nat :: j < r && SentAt(requests, j, command)
  }

  predicate SentAt(requests: seq<Request>, j: nat, command: string) {
    j < |requests| && Says(requests[j].msg, Command, command)
  }

  lemma {:induction false} WasSentBefore(requests: seq<Request>, r: nat)
    requires r <= |requests|
    ensures WasSent(requests[..r], ConfigurationDone) <==> SentBefore(requests, r, "configurationDone")
    ensures WasSent(requests[..r], Initialize) <==> SentBefore(requests, r, "initialize")
  {
    if r > 0 {
      WasSentBefore(requests, r - 1);
      assert requests[..r][..r - 1] == requests[..r - 1];
      KindsByCommand(requests[r - 1].msg);
      SentBeforeNext(requests, r, "configurationDone");
      SentBeforeNext(requests, r, "initialize");
    }
  }

  lemma SentBeforeNext(requests: seq<Request>, r: nat, command: string)
    requires 0 < r <= |requests|
    ensures SentBefore(requests, r, command) <==>
              SentBefore(requests, r - 1, command) || SentAt(requests, r - 1, command)
  {
    if SentBefore(requests, r - 1, command) {
      var j: nat :| j < r - 1 && SentAt(requests, j, command);
      assert j < r;
    }
  }

  /** The r-th request may not reach the adapter: it would end the session, start it again once it is configured,
      configure it twice or initialize it twice. */
  ghost predicate IsKeptBack(requests: seq<Request>, r: nat)
    requires r < |requests|
  {
    var m, configured := requests[r].msg, SentBefore(requests, r, "configurationDone");
    || Says(m, Command, "disconnect") || Says(m, Command, "terminate") || Says(m, Command, "restart")
    || (configured && (Says(m, Command, "attach") || Says(m, Command, "launch")))
    || (configured && (Says(m, Command, "configurationDone") || Says(m, Command, "initialize")))
    || (Says(m, Command, "initialize") && SentBefore(requests, r, "initialize"))
  }

  lemma GoesUpstreamByText(requests: seq<Request>, r: nat)
    requires r < |requests|
    ensures GoesUpstream(requests[..r], KindOf(requests[r].msg)) <==> !IsKeptBack(requests, r)
  {
    KindsByCommand(requests[r].msg);
    WasSentBefore(requests, r);
  }

  /** The adapter has been sent request r, under its own number. */
  ghost predicate ReachedAdapter(s: State, r: nat) {
    exists i :: 0 <= i < |s.upstream| && s.upstream[i].req == r && r < |s.requests|
                && s.upstream[i].msg == s.requests[r].msg[Seq := Number(i + 1)]
  }

  /** The adapter is sent every request of every client, except those that must be kept back. */
  lemma RequestsReachTheAdapterExactlyWhen(s: State, r: nat)
    requires Reachable(s) && r < |s.requests|
    ensures ReachedAdapter(s, r) <==> !IsKeptBack(s.requests, r)
  {
    UpstreamFollowsRequests(s);
    ReachableForwarding(s);
    SelectedExactly(s.requests, r);
    GoesUpstreamByText(s.requests, r);
    if r in Selected(s.requests) {
      var i :| 0 <= i < |Selected(s.requests)| && Selected(s.requests)[i] == r;
      assert Positions(s.upstream)[i] == r;
    }
    if ReachedAdapter(s, r) {
      var i :| 0 <= i < |s.upstream| && s.upstream[i].req == r;
      assert Positions(s.upstream)[i] == r;
    }
  }

  /** What was sent to the adapter never ends the session, nor starts it again. */
  lemma TheSessionIsProtected(s: State)
    requires Reachable(s)
    ensures forall i :: 0 <= i < |s.upstream| ==> var m := s.upstream[i].msg;
      !Says(m, Command, "disconnect") && !Says(m, Command, "terminate") && !Says(m, Command, "restart")
    ensures forall i, j :: 0 <= i < j < |s.upstream| ==> var a, b := s.upstream[i].msg, s.upstream[j].msg;
      && !(Says(a, Command, "initialize") && Says(b, Command, "initialize"))
      && !(Says(a, Command, "configurationDone") && Says(b, Command, "configurationDone"))
      && !(Says(a, Command, "configurationDone") && (Says(b, Command, "attach") || Says(b, Command, "launch")))
  {
    SessionIsProtected(s);
    forall i | 0 <= i < |s.upstream|
      ensures KindOf(s.upstream[i].msg).Initialize? <==> Says(s.upstream[i].msg, Command, "initialize")
      ensures KindOf(s.upstream[i].msg).ConfigurationDone? <==> Says(s.upstream[i].msg, Command, "configurationDone")
      ensures KindOf(s.upstream[i].msg).Start? <==> SaysStart(s.upstream[i].msg)
      ensures KindOf(s.upstream[i].msg).Ending? <==> SaysEnding(s.upstream[i].msg)
    {
      KindsByCommand(s.upstream[i].msg);
    }
  }

  /** A message of a client is a request, and kept as such, or ignored. */
  lemma OnlyRequestsMatter(s: State, c: ClientId, m: Message)
    ensures var t := Next(s, FromClient(c, m));
      if Says(m, Type, "request") then t.requests == s.requests + [Request(c, m)] else t == s
  {
    TypesByText(m);
    if IsRequest(m) { RequestFrame(s, c, m); }
  }

  // ---------------------------------------------------------------- what the multiplexer answers

  /** A successful response to the request, made up by the multiplexer. */
  ghost predicate IsSuccess(reply: Message, request: Message) {
    && Says(reply, Type, "response") && Success in reply && reply[Success] == Bool(true)
    && Seq in reply && reply[Seq] == Number(0)
    && RequestSeq in reply && (Seq in request ==> reply[RequestSeq] == request[Seq])
    && Command in reply && reply[Command] == (if Command in request then request[Command] else String(""))
    && forall f :: f in reply ==> f in {Seq, Type, RequestSeq, Success, Command, Body}
  }

  lemma SyntheticIsSuccess(request: Message)
    ensures IsSuccess(SyntheticReply(request), request) && Body !in SyntheticReply(request)
  {
  }

  lemma GreetingIsSuccess(request: Message, capabilities: Json)
    requires Says(request, Command, "initialize")
    ensures var reply := GreetingReply(request, capabilities);
      && IsSuccess(reply, request) && (Body in reply <==> capabilities != Null)
      && (Body in reply ==> reply[Body] == capabilities)
  {
  }

  /** Every answer that the multiplexer makes up reports success under the client's own number; it has a body if it
      answers an initialize and there are capabilities, and then these are the body. */
  lemma LocalAnswersSucceed(s: State, c: ClientId, i: nat)
    requires Reachable(s) && i < |QueueOf(s, c)|
    requires QueueOf(s, c)[i].origin.Greeting? || QueueOf(s, c)[i].origin.Synthetic?
    ensures var d := QueueOf(s, c)[i];
      && d.origin.req < |s.requests| && s.requests[d.origin.req].client == c
      && IsSuccess(d.msg, s.requests[d.origin.req].msg)
      && (d.origin.Greeting? <==> Says(s.requests[d.origin.req].msg, Command, "initialize"))
      && (Body in d.msg <==> d.origin.Greeting? && s.capabilities != Null)
      && (Body in d.msg ==> d.msg[Body] == s.capabilities)
  {
    ReachableInv(s);
    var d := s.queues[c][i];
    DeliveriesAreExplained(s, c, i);
    assert ContentOk(s, d);
    var request := s.requests[d.origin.req].msg;
    KindsByCommand(request);
    SyntheticIsSuccess(request);
    if d.origin.Greeting? { GreetingIsSuccess(request, s.capabilities); }
  }

  /** The client of request r has been sent such an answer to it. */
  ghost predicate IsAnsweredWithSuccess(s: State, r: nat)
    requires r < |s.requests|
  {
    var q := QueueOf(s, s.requests[r].client);
    exists i :: 0 <= i < |q| && IsLocalAnswer(q[i].origin, r) && IsSuccess(q[i].msg, s.requests[r].msg)
  }

  /** Requests other than initialize are answered by the multiplexer, with success, exactly if they are kept back. */
  lemma KeptBackIsAnswered(s: State, r: nat)
    requires Reachable(s) && r < |s.requests| && !Says(s.requests[r].msg, Command, "initialize")
    ensures IsAnsweredWithSuccess(s, r) <==> IsKeptBack(s.requests, r)
  {
    KindsByCommand(s.requests[r].msg);
    OthersAreAnsweredLocally(s, r);
    GoesUpstreamByText(s.requests, r);
    var c := s.requests[r].client;
    if HasOutcome(s, r, ByMultiplexer) {
      var i :| 0 <= i < |QueueOf(s, c)| && IsLocalAnswer(QueueOf(s, c)[i].origin, r);
      LocalAnswersSucceed(s, c, i);
    }
  }

  // ---------------------------------------------------------------- what responses do

  /** The capabilities are those in the body of the first successful initialize response with a number. */
  lemma CapabilitiesByFields(s: State, m: Message)
    ensures var t := Next(s, FromAdapter(m));
      if s.phase == Initializing && Says(m, Type, "response") && Says(m, Command, "initialize") && Holds(m, Success)
         && RequestSeq in m && m[RequestSeq] != Null
      then t.phase == Initialized && t.capabilities == (if Body in m then m[Body] else Null)
      else t.phase == s.phase && t.capabilities == s.capabilities
  {
    MuxCapabilities.AdapterLearns(s, m);
    TypesByText(m);
    InitializeSuccessByFields(m);
  }

  /** The answer to the request forwarded under number n: it has the client's own number and is otherwise the
      adapter's response, but for the hint in a stale variable error. */
  ghost predicate PassesOn(sent: Message, response: Message, request: Message) {
    && RequestSeq in sent && (Seq in request ==> sent[RequestSeq] == request[Seq])
    && (forall f :: f != RequestSeq && f != ErrorText ==> (f in sent <==> f in response))
    && (forall f :: f != RequestSeq && f != ErrorText && f in sent ==> sent[f] == response[f])
    && (forall text :: SaysStale(response, text) ==>
          Says(sent, ErrorText, text + " (variable references are invalidated when execution resumes)"))
    && ((forall text :: !SaysStale(response, text)) ==>
          (ErrorText in sent <==> ErrorText in response)
          && (ErrorText in sent ==> sent[ErrorText] == response[ErrorText]))
  }

  lemma RewrittenPassesOn(response: Message, request: Message)
    ensures PassesOn(RewriteStaleVariableError(response)[RequestSeq := Get(request, Seq)], response, request)
  {
    RewrittenText(response);
  }

  /** An adapter response whose number is that of a pending request is passed on to the client that sent it. */
  lemma ResponseReachesItsClient(s: State, m: Message, n: int)
    requires Reachable(s) && n in s.pending
    requires Says(m, Type, "response") && RequestSeq in m && m[RequestSeq] == Number(n)
    ensures 1 <= n <= |s.upstream| && s.upstream[n - 1].req < |s.requests|
    ensures var t, request := Next(s, FromAdapter(m)), s.requests[s.upstream[n - 1].req];
      && n !in t.pending
      && exists i :: |QueueOf(s, request.client)| <= i < |QueueOf(t, request.client)|
                     && PassesOn(QueueOf(t, request.client)[i].msg, m, request.msg)
  {
    ReachableInv(s);
    OnlyConnectedClients(s);
    TypesByText(m);
    var u := s.(adapter := s.adapter + [m]);
    var response := RewriteStaleVariableError(m);
    MuxCapabilities.RewriteKeepsBody(m);
    CacheGrows(u, response);
    CacheCapabilitiesFrame(u, response);
    RewrittenPassesOn(m, s.requests[ReqOf(s, n)].msg);
    ResolveSends(CacheCapabilities(u, response), response, |s.adapter|, n);
  }

  lemma ResolveSends(s: State, m: Message, k: nat, n: int)
    requires n in s.pending && KeyOf(Get(m, RequestSeq)) == Some(n) && s.pending[n].client in s.clients
    ensures var c, t := s.pending[n].client, Resolve(s, m, k);
      n !in t.pending && |QueueOf(t, c)| == |QueueOf(s, c)| + 1
      && QueueOf(t, c)[|QueueOf(s, c)|].msg == m[RequestSeq := s.pending[n].clientSeq]
  {
  }
}
