/** Whether the client whose initialize is forwarded is told the capabilities that the multiplexer learns, and
    then tells all others. */
module FirstClient {
  import opened Messages
  import opened MuxModel
  import opened MuxInvariant
  import opened MuxProtocol
  import opened MuxTheorems
  import opened MuxCapabilities
  import opened Departures

  // ---------------------------------------------------------------- the forwarded initialize

  ghost predicate InitializeAt(s: State, p: nat) {
    p < |s.upstream| && KindOf(s.upstream[p].msg).Initialize?
  }

  /** Exactly one initialize has been forwarded when the multiplexer waits for capabilities. */
  lemma {:induction false} AnInitializeIsForwarded(run: Run, i: nat) returns (p: nat)
    requires Legal(run) && i < |run.states| && run.states[i].phase.Initializing?
    ensures InitializeAt(run.states[i], p)
    ensures forall q: nat :: InitializeAt(run.states[i], q) ==> q == p
  {
    p := SomeInitialize(run, i);
    RunProtocol(run, i);
    forall q: nat | InitializeAt(run.states[i], q) ensures q == p {
      if p < q { OneInitialize(run.states[i], p, q); }
      if q < p { OneInitialize(run.states[i], q, p); }
    }
  }

  lemma OneInitialize(s: State, p: nat, q: nat)
    requires Disciplined(s) && p < q < |s.upstream|
    ensures !(InitializeAt(s, p) && InitializeAt(s, q))
  {
    assert MayFollow(KindOf(s.upstream[p].msg), KindOf(s.upstream[q].msg));
  }

  lemma {:induction false} SomeInitialize(run: Run, i: nat) returns (p: nat)
    requires Legal(run) && i < |run.states| && run.states[i].phase.Initializing?
    ensures InitializeAt(run.states[i], p)
  {
    p := 0;
    if i > 0 {
      var s, t := run.states[i - 1], run.states[i];
      assert Follows(run, i - 1);
      if s.phase.Initializing? {
        p := SomeInitialize(run, i - 1);
        HistoryGrows(run, i - 1, i);
        assert t.upstream[p] == s.upstream[p];
      } else {
        NextInitializes(s, run.steps[i - 1]);
        p := |t.upstream| - 1;
      }
    }
  }

  lemma NextInitializes(s: State, step: Step)
    requires Next(s, step).phase.Initializing? && !s.phase.Initializing?
    ensures var u := Next(s, step).upstream; u != [] && KindOf(u[|u| - 1].msg).Initialize?
  {
    match step
    case FromClient(c, msg) =>
      assert IsRequest(msg);
      InitializeSends(Record(s, c, msg), c, msg, |s.requests|, KindOf(msg));
    case FromAdapter(msg) =>
      AdapterLearns(s, msg);
    case _ =>
  }

  lemma InitializeSends(s: State, c: ClientId, msg: Message, r: nat, kind: Kind)
    requires kind == KindOf(msg)
    requires HandleRequest(s, c, msg, r, kind).phase.Initializing? && !s.phase.Initializing?
    ensures var u := HandleRequest(s, c, msg, r, kind).upstream; u != [] && KindOf(u[|u| - 1].msg).Initialize?
  {
    if kind.Initialize? {
      GreetFrame(Register(s, c, msg), c, msg, r);
      if s.phase.PreInit? { ForwardSendsLast(Register(s, c, msg).(phase := Initializing), c, msg, r); }
    } else if Intercepted(s.phase, kind) {
      SyntheticFrame(s, c, msg, r);
    } else {
      ForwardFrame(Configure(s, kind), c, msg, r);
    }
  }

  lemma ForwardSendsLast(s: State, c: ClientId, msg: Message, r: nat)
    ensures var u := Forward(s, c, msg, r).upstream; u != [] && KindOf(u[|u| - 1].msg) == KindOf(msg)
  {
    KindSurvives(msg, s.nextSeq);
  }

  // ---------------------------------------------------------------- who is told

  /** An answer made of the k-th adapter message answers the request forwarded under the number in it. */
  lemma AnswerBearsTheNumber(s: State, p: nat, k: nat, c: ClientId, i: nat)
    requires Inv(s) && p < |s.upstream| && i < |QueueOf(s, c)|
    requires QueueOf(s, c)[i].origin == Answer(s.upstream[p].req, k)
    ensures k < |s.adapter| && KeyOf(Get(s.adapter[k], RequestSeq)) == Some(p + 1)
    ensures s.fates[s.upstream[p].req] == AnsweredByAdapter(i, k)
  {
    var d := s.queues[c][i];
    assert ContentOk(s, d) && AnswerOk(s, c, i, d.origin);
    var n := KeyOf(Get(s.adapter[k], RequestSeq)).value;
    assert s.upstream[n - 1].req == s.upstream[p].req;
  }

  /** A request whose answer is still to come is pending. */
  lemma AnswerToComeIsPending(run: Run, i: nat, j: nat, p: nat, at: nat)
    requires Legal(run) && j < i < |run.states| && p < |run.states[j].upstream|
    requires var s, t := run.states[j], run.states[i];
      var c, r := SenderOf(s, s.upstream[p].req), s.upstream[p].req;
      at < |QueueOf(t, c)| && QueueOf(t, c)[at].origin == Answer(r, |s.adapter|)
    ensures p + 1 in run.states[j].pending
  {
    var s, t := run.states[j], run.states[i];
    var r := s.upstream[p].req;
    var c := SenderOf(s, r);
    RunInvariant(run, i);
    RunInvariant(run, j);
    HistoryGrows(run, j, i);
    UpstreamFate(s, p);
    if s.fates[r].Discarded? { LeftForGood(run, j, i, c); }
    if at < |QueueOf(s, c)| {
      assert QueueOf(s, c)[at] == QueueOf(t, c)[at];
      AnswerBearsTheNumber(s, p, |s.adapter|, c, at);
      assert false;
    }
    if s.fates[r].AnsweredByAdapter? { AnswerStands(s, t, p, at, |s.adapter|); }
  }

  /** A request answered before is not answered otherwise later. */
  lemma AnswerStands(s: State, t: State, p: nat, at: nat, k: nat)
    requires Inv(s) && Inv(t) && Grows(s, t) && p < |s.upstream|
    requires s.upstream[p].req < |s.fates| && s.fates[s.upstream[p].req].AnsweredByAdapter?
    requires var c := SenderOf(s, s.upstream[p].req);
      at < |QueueOf(t, c)| && QueueOf(t, c)[at].origin == Answer(s.upstream[p].req, k)
    ensures at < |QueueOf(s, SenderOf(s, s.upstream[p].req))|
  {
    var r := s.upstream[p].req;
    var c, at' := SenderOf(s, r), s.fates[r].at;
    assert FateOk(s, |s.requests|, r, s.fates[r]);
    assert QueueOf(t, c)[at'] == QueueOf(s, c)[at'];
    assert t.upstream[p] == s.upstream[p];
    AnswerBearsTheNumber(t, p, k, c, at);
    AnswerBearsTheNumber(t, p, s.fates[r].k, c, at');
  }

  /** The client whose initialize was forwarded has been told the capabilities that the multiplexer tells all
      others if and only if they came in the answer to that initialize, and in the first one to it. */
  lemma FirstClientIsToldExactlyWhen(run: Run, i: nat, j: nat, p: nat)
    requires Legal(run) && i < |run.states| && LearnedAt(run, i, j) && InitializeAt(run.states[j], p)
    ensures var s, r := run.states[j], run.states[j].upstream[p].req;
      Told(QueueOf(run.states[i], SenderOf(s, r)), r, |s.adapter|, run.steps[j].msg)
      <==> AnswersPending(s, run.steps[j].msg, p + 1)
  {
    var s, t, msg := run.states[j], run.states[i], run.steps[j].msg;
    var r := s.upstream[p].req;
    var c := SenderOf(s, r);
    RunInvariant(run, j);
    RunInvariant(run, i);
    HistoryGrows(run, j, i);
    if AnswersPending(s, msg, p + 1) {
      AnswerIsTold(run, i, j, p + 1);
    }
    if Told(QueueOf(t, c), r, |s.adapter|, msg) {
      var at :| 0 <= at < |QueueOf(t, c)| && QueueOf(t, c)[at].origin == Answer(r, |s.adapter|);
      AnswerToComeIsPending(run, i, j, p, at);
      assert t.upstream[p] == s.upstream[p];
      AnswerBearsTheNumber(t, p, |s.adapter|, c, at);
      StepIsLogged(run, i, j);
    }
  }

  lemma StepIsLogged(run: Run, i: nat, j: nat)
    requires Legal(run) && j < i < |run.states| && run.steps[j].FromAdapter?
    ensures |run.states[j].adapter| < |run.states[i].adapter|
    ensures run.states[i].adapter[|run.states[j].adapter|] == run.steps[j].msg
  {
    assert Follows(run, j);
    AdapterFrame(run.states[j], run.steps[j].msg);
    HistoryGrows(run, j + 1, i);
  }

  /** The client of the initialize forwarded under number n has been told the capabilities of the response with
      which step j brings them, and every client greeted by the multiplexer has been told the same. */
  ghost predicate AllToldTheSame(run: Run, i: nat, j: nat, n: nat)
    requires i < |run.states| == |run.steps| + 1 && LearnedAt(run, i, j)
  {
    var s, msg := run.states[j], run.steps[j].msg;
    && Told(QueueOf(run.states[i], SenderOf(s, ReqOf(s, n))), ReqOf(s, n), |s.adapter|, msg)
    && forall c, q :: 0 <= q < |QueueOf(run.states[i], c)| && QueueOf(run.states[i], c)[q].origin.Greeting? ==>
         Get(QueueOf(run.states[i], c)[q].msg, Body) == Get(msg, Body)
  }

  /** Once the multiplexer has learned the capabilities, all clients that it has greeted have been told them. The
      first client, whose initialize was forwarded, has been told them too if and only if the response that
      brought them was the answer to that initialize: it bore its number, and no response before did. */
  lemma AllClientsGetTheSame(run: Run, i: nat, j: nat) returns (p: nat)
    requires Legal(run) && i < |run.states| && LearnedAt(run, i, j)
    ensures InitializeAt(run.states[j], p)
    ensures forall q: nat :: InitializeAt(run.states[j], q) ==> q == p
    ensures AllToldTheSame(run, i, j, p + 1) <==> AnswersPending(run.states[j], run.steps[j].msg, p + 1)
  {
    p := AnInitializeIsForwarded(run, j);
    FirstClientIsToldExactlyWhen(run, i, j, p);
    RunLearning(run, i);
    RunInvariant(run, i);
    forall c, q | 0 <= q < |QueueOf(run.states[i], c)| && QueueOf(run.states[i], c)[q].origin.Greeting?
      ensures Get(QueueOf(run.states[i], c)[q].msg, Body) == Get(run.steps[j].msg, Body)
    {
      GreetingsCarry(run.states[i], c, q);
    }
  }

  // ---------------------------------------------------------------- the first client refused

  const REFUSED: Message := map[
    Seq := Number(1), Type := String("response"), RequestSeq := Number(1), Success := Bool(false),
    Command := String("initialize")]

  lemma RefusedIsNoSuccess()
    ensures IsResponse(REFUSED) && !IsInitializeSuccess(REFUSED) && !IsVariableFailure(REFUSED)
    ensures !IsEvent(REFUSED) && !IsRequest(REFUSED)
  {
  }

  lemma RefusalCanCome(s: State)
    ensures Enabled(s, FromAdapter(REFUSED))
  {
    RefusedIsNoSuccess();
  }

  /** What client 0 knows in the run below from its third step on. */
  ghost predicate OnlyRefused(s: State) {
    && 1 !in s.pending && |QueueOf(s, 0)| == 1
    && QueueOf(s, 0)[0].origin.Answer? && Body !in QueueOf(s, 0)[0].msg
    && Get(QueueOf(s, 0)[0].msg, Success) == Bool(false)
  }

  lemma RefusalAnswers(s: State)
    requires Unlearned(s, Initializing, [0]) && 1 in s.pending && s.pending[1].client == 0 && QueueOf(s, 0) == []
    ensures var t := Next(s, FromAdapter(REFUSED)); Unlearned(t, Initializing, [0]) && OnlyRefused(t)
  {
    RefusedIsNoSuccess();
    RefusalIsRouted(s.(adapter := s.adapter + [REFUSED]), |s.adapter|);
  }

  lemma RefusalIsRouted(s: State, k: nat)
    requires Unlearned(s, Initializing, [0]) && 1 in s.pending && s.pending[1].client == 0 && QueueOf(s, 0) == []
    ensures var t := RouteResponse(s, REFUSED, k); Unlearned(t, Initializing, [0]) && OnlyRefused(t)
  {
    var d := Delivery(REFUSED[RequestSeq := s.pending[1].clientSeq], Answer(ReqOf(s, 1), k));
    assert QueueOf(RouteResponse(s, REFUSED, k), 0) == [d];
  }

  lemma BufferUnlearned(s: State)
    requires Unlearned(s, Initializing, [0, 1])
    ensures var t := Next(s, FromClient(1, INITIALIZE));
      && t.phase == Initializing && t.clients == [0, 1] && t.buffered == [Buffered(1, INITIALIZE, |s.requests|)]
      && t.pending == s.pending && t.queues == s.queues && t.initializedEvent.None? && t.stoppedEvent.None?
  {
    KindsOfRequests();
  }

  lemma GreetOnly(s: State, r: nat)
    requires s.initializedEvent.None? && s.stoppedEvent.None? && 1 in s.clients
    ensures Greet(s, 1, INITIALIZE, r).queues == s.queues[1 := QueueOf(s, 1) +
              [Delivery(GreetingReply(INITIALIZE, s.capabilities), Greeting(r, |s.adapter|))]]
  {
  }

  lemma CacheAnswers(s: State, r: nat)
    requires s.phase == Initializing && 1 in s.clients && s.buffered == [Buffered(1, INITIALIZE, r)]
    requires s.initializedEvent.None? && s.stoppedEvent.None? && QueueOf(s, 1) == []
    ensures var t := CacheCapabilities(s, INITIALIZED);
      && t.pending == s.pending
      && t.queues == s.queues[1 := [Delivery(GreetingReply(INITIALIZE, CAPABILITIES), Greeting(r, |s.adapter|))]]
  {
    InitializedIsSuccess();
    var t := s.(phase := Initialized, capabilities := CAPABILITIES, buffered := []);
    var d := Delivery(GreetingReply(INITIALIZE, CAPABILITIES), Greeting(r, |s.adapter|));
    GreetOnly(t, r);
    assert QueueOf(s, 1) + [d] == [d];
    GreetFrame(t, 1, INITIALIZE, r);
    assert Drain(s.(phase := Initialized, capabilities := CAPABILITIES)) == Greet(t, 1, INITIALIZE, r);
  }

  lemma ResponseAnswersBuffered(s: State, r: nat)
    requires s.phase == Initializing && s.clients == [0, 1] && s.buffered == [Buffered(1, INITIALIZE, r)]
    requires s.initializedEvent.None? && s.stoppedEvent.None? && QueueOf(s, 1) == [] && 1 !in s.pending
    ensures var t := Next(s, FromAdapter(INITIALIZED));
      && QueueOf(t, 0) == QueueOf(s, 0) && t.pending == s.pending
      && QueueOf(t, 1) == [Delivery(GreetingReply(INITIALIZE, CAPABILITIES), Greeting(r, |s.adapter| + 1))]
  {
    InitializedIsSuccess();
    var t := s.(adapter := s.adapter + [INITIALIZED]);
    CacheAnswers(t, r);
    NotPending(t, |s.adapter|);
    assert Next(s, FromAdapter(INITIALIZED)) == RouteResponse(t, INITIALIZED, |s.adapter|);
  }

  lemma NotPending(s: State, k: nat)
    requires 1 !in s.pending
    ensures RouteResponse(s, INITIALIZED, k) == CacheCapabilities(s, INITIALIZED)
  {
    CacheCapabilitiesFrame(s, INITIALIZED);
  }

  lemma AndRefuse(run: Run) returns (next: Run)
    requires Legal(run) && Unlearned(Last(run), Initializing, [0]) && QueueOf(Last(run), 0) == []
    requires 1 in Last(run).pending && Last(run).pending[1].client == 0
    ensures Legal(next) && next.steps == run.steps + [FromAdapter(REFUSED)]
    ensures Unlearned(Last(next), Initializing, [0]) && OnlyRefused(Last(next))
  {
    RefusalCanCome(Last(run));
    RefusalAnswers(Last(run));
    next := OneMore(run, FromAdapter(REFUSED));
  }

  lemma AndAcceptSecond(run: Run) returns (next: Run)
    requires Legal(run) && Unlearned(Last(run), Initializing, [0]) && OnlyRefused(Last(run))
    ensures Legal(next) && next.steps == run.steps + [Accept]
    ensures Unlearned(Last(next), Initializing, [0, 1]) && OnlyRefused(Last(next)) && QueueOf(Last(next), 1) == []
  {
    AcceptUnlearned(Last(run), Initializing, [0]);
    next := OneMore(run, Accept);
  }

  lemma AndBuffer(run: Run) returns (next: Run)
    requires Legal(run) && Unlearned(Last(run), Initializing, [0, 1])
    requires OnlyRefused(Last(run)) && QueueOf(Last(run), 1) == []
    ensures Legal(next) && next.steps == run.steps + [FromClient(1, INITIALIZE)]
    ensures WaitsAlone(Last(next))
  {
    KindsOfRequests();
    BufferUnlearned(Last(run));
    next := OneMore(run, FromClient(1, INITIALIZE));
  }

  ghost predicate WaitsAlone(s: State) {
    && s.phase == Initializing && s.clients == [0, 1] && OnlyRefused(s) && QueueOf(s, 1) == []
    && |s.buffered| == 1 && s.buffered[0].client == 1 && s.buffered[0].msg == INITIALIZE
    && s.initializedEvent.None? && s.stoppedEvent.None?
  }

  lemma InitializedCanCome(s: State)
    requires s.phase == Initializing
    ensures Enabled(s, FromAdapter(INITIALIZED)) && Learns(s, FromAdapter(INITIALIZED))
  {
    InitializedIsSuccess();
  }

  lemma AndInitialized(run: Run) returns (next: Run)
    requires Legal(run) && WaitsAlone(Last(run))
    ensures Legal(next) && next.steps == run.steps + [FromAdapter(INITIALIZED)]
    ensures Learns(next.states[|run.steps|], FromAdapter(INITIALIZED))
    ensures OnlyRefused(Last(next))
    ensures |QueueOf(Last(next), 1)| == 1 && QueueOf(Last(next), 1)[0].origin.Greeting?
    ensures Get(QueueOf(Last(next), 1)[0].msg, Body) == CAPABILITIES
  {
    InitializedCanCome(Last(run));
    ResponseAnswersBuffered(Last(run), Last(run).buffered[0].req);
    next := OneMore(run, FromAdapter(INITIALIZED));
  }

  /** The adapter refuses the first client's initialize and later sends a successful response to it, when the
      second client waits: the second is told the capabilities, the first only the refusal, although there is no
      configurationDone at all. */
  lemma ARefusedClient() returns (run: Run)
    ensures Legal(run)
    ensures run.steps == [Accept, FromClient(0, INITIALIZE), FromAdapter(REFUSED), Accept,
                          FromClient(1, INITIALIZE), FromAdapter(INITIALIZED)]
    ensures LearnedAt(run, 6, 5) && !ConfiguredEarly(run, 6)
    ensures OnlyRefused(Last(run))
    ensures |QueueOf(Last(run), 1)| == 1 && QueueOf(Last(run), 1)[0].origin.Greeting?
    ensures Get(QueueOf(Last(run), 1)[0].msg, Body) == CAPABILITIES
  {
    run := BeforeInitialize();
    run := AndInitialize(run);
    run := AndRefuse(run);
    run := AndAcceptSecond(run);
    run := AndBuffer(run);
    run := AndInitialized(run);
    KindsOfRequests();
    NotConfigured(run, 6);
    assert LearnedAt(run, 6, 5);
  }

  lemma NotConfigured(run: Run, i: nat)
    requires i < |run.states| == |run.steps| + 1
    requires forall j: nat :: j < i && run.steps[j].FromClient? ==> KindOf(run.steps[j].msg).Initialize?
    ensures !ConfiguredEarly(run, i)
  {
    assert forall j: nat :: !ConfiguredEarlyAt(run, i, j);
  }
}
