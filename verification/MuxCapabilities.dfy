/** Which capabilities clients are told: those in the response from which the multiplexer learned them, unless a
    configurationDone came before that response. */
module MuxCapabilities {
  import opened Messages
  import opened MuxModel
  import opened MuxInvariant
  import opened MuxProtocol
  import opened MuxForwarding
  import opened MuxTheorems

  /** The response from which the capabilities are cached. */
  predicate Learns(s: State, step: Step) {
    && step.FromAdapter? && IsResponse(step.msg) && IsInitializeSuccess(step.msg)
    && !Get(step.msg, RequestSeq).Null? && s.phase.Initializing?
  }

  /** A configurationDone before any capabilities are cached. */
  predicate ConfiguresEarly(s: State, step: Step) {
    step.FromClient? && IsRequest(step.msg) && KindOf(step.msg).ConfigurationDone? && s.phase.Rank() < 2
  }

  ghost predicate LearnedAt(run: Run, i: nat, j: nat)
    requires i < |run.states| == |run.steps| + 1
  {
    j < i && Learns(run.states[j], run.steps[j])
  }

  ghost predicate Learned(run: Run, i: nat)
    requires i < |run.states| == |run.steps| + 1
  {
    exists j: nat :: LearnedAt(run, i, j)
  }

  ghost predicate ConfiguredEarlyAt(run: Run, i: nat, j: nat)
    requires i < |run.states| == |run.steps| + 1
  {
    j < i && ConfiguresEarly(run.states[j], run.steps[j])
  }

  ghost predicate ConfiguredEarly(run: Run, i: nat)
    requires i < |run.states| == |run.steps| + 1
  {
    exists j: nat :: ConfiguredEarlyAt(run, i, j)
  }

  // ---------------------------------------------------------------- steps

  lemma ResponseLearns(s: State, m: Message, k: nat)
    ensures var t := RouteResponse(s, m, k);
      var learns := IsInitializeSuccess(m) && s.phase.Initializing? && !Get(m, RequestSeq).Null?;
      && t.phase == (if learns then Initialized else s.phase)
      && t.capabilities == (if learns then Get(m, Body) else s.capabilities)
  {
    CachePhase(s, m);
    CacheCapabilitiesBody(s, m);
  }

  lemma RewriteKeepsBody(m: Message)
    ensures var r := RewriteStaleVariableError(m);
      && IsInitializeSuccess(r) == IsInitializeSuccess(m) && Get(r, Body) == Get(m, Body)
      && Get(r, RequestSeq) == Get(m, RequestSeq)
  {
  }

  lemma AdapterLearns(s: State, msg: Message)
    ensures var t := AdapterMessage(s, msg);
      && t.phase == (if Learns(s, FromAdapter(msg)) then Initialized else s.phase)
      && t.capabilities == (if Learns(s, FromAdapter(msg)) then Get(msg, Body) else s.capabilities)
  {
    DispatchLearns(s.(adapter := s.adapter + [msg]), msg, |s.adapter|, RoutingOf(msg));
  }

  lemma DispatchLearns(s: State, msg: Message, k: nat, routing: Routing)
    requires routing.ToSender? <==> IsResponse(msg)
    ensures var t := Dispatch(s, msg, k, routing);
      && t.phase == (if Learns(s, FromAdapter(msg)) then Initialized else s.phase)
      && t.capabilities == (if Learns(s, FromAdapter(msg)) then Get(msg, Body) else s.capabilities)
  {
    RewriteKeepsBody(msg);
    ResponseLearns(s, RewriteStaleVariableError(msg), k);
  }

  lemma NextLearns(s: State, step: Step)
    ensures var t := Next(s, step);
      && (t.phase.Rank() >= 2 <==> s.phase.Rank() >= 2 || Learns(s, step) || ConfiguresEarly(s, step))
      && t.capabilities == (if Learns(s, step) then Get(step.msg, Body) else s.capabilities)
  {
    match step
    case FromClient(c, msg) =>
      if IsRequest(msg) {
        RequestSends(s, c, msg);
        RequestFrame(s, c, msg);
      }
    case FromAdapter(msg) => AdapterLearns(s, msg);
    case _ =>
  }

  // ---------------------------------------------------------------- runs

  /** A run either learns the capabilities, once, or is configured before. */
  ghost predicate LearningOk(run: Run, i: nat)
    requires i < |run.states| == |run.steps| + 1
  {
    var s := run.states[i];
    && (s.phase.Rank() >= 2 <==> ConfiguredEarly(run, i) || Learned(run, i))
    && !(ConfiguredEarly(run, i) && Learned(run, i))
    && (forall j: nat :: LearnedAt(run, i, j) ==> s.capabilities == Get(run.steps[j].msg, Body))
    && (!Learned(run, i) ==> s.capabilities.Null?)
  }

  lemma {:induction false} RunLearning(run: Run, i: nat)
    requires Legal(run) && i < |run.states|
    ensures LearningOk(run, i)
  {
    if i > 0 {
      RunLearning(run, i - 1);
      assert Follows(run, i - 1);
      NextLearns(run.states[i - 1], run.steps[i - 1]);
      LearningGoesOn(run, i - 1, i);
    }
  }

  lemma LearningGoesOn(run: Run, i: nat, n: nat)
    requires i + 1 == n < |run.states| == |run.steps| + 1 && LearningOk(run, i)
    requires var s, t, step := run.states[i], run.states[n], run.steps[i];
      && (t.phase.Rank() >= 2 <==> s.phase.Rank() >= 2 || Learns(s, step) || ConfiguresEarly(s, step))
      && t.capabilities == (if Learns(s, step) then Get(step.msg, Body) else s.capabilities)
    ensures LearningOk(run, n)
  {
    LearningAppends(run, i, n);
    ConfiguringAppends(run, i, n);
  }

  lemma LearningAppends(run: Run, i: nat, n: nat)
    requires i + 1 == n < |run.states| == |run.steps| + 1
    ensures Learned(run, n) <==> Learned(run, i) || Learns(run.states[i], run.steps[i])
    ensures forall j: nat :: LearnedAt(run, n, j) <==>
              LearnedAt(run, i, j) || (j == i && Learns(run.states[i], run.steps[i]))
  {
    assert forall j: nat :: LearnedAt(run, n, j) <==>
      LearnedAt(run, i, j) || (j == i && Learns(run.states[i], run.steps[i]));
    if Learns(run.states[i], run.steps[i]) { assert LearnedAt(run, n, i); }
  }

  lemma ConfiguringAppends(run: Run, i: nat, n: nat)
    requires i + 1 == n < |run.states| == |run.steps| + 1
    ensures ConfiguredEarly(run, n) <==> ConfiguredEarly(run, i) || ConfiguresEarly(run.states[i], run.steps[i])
  {
    assert forall j: nat :: ConfiguredEarlyAt(run, n, j) <==>
      ConfiguredEarlyAt(run, i, j) || (j == i && ConfiguresEarly(run.states[i], run.steps[i]));
    if ConfiguresEarly(run.states[i], run.steps[i]) { assert ConfiguredEarlyAt(run, n, i); }
  }

  /** An initialize answered by the multiplexer carries the capabilities of a response in which the adapter
      announced them if and only if no configurationDone came too early; else it carries none. */
  lemma GreetingsCarryTheLearned(run: Run, i: nat, c: ClientId, q: nat)
    requires Legal(run) && i < |run.states| && q < |QueueOf(run.states[i], c)|
    requires QueueOf(run.states[i], c)[q].origin.Greeting?
    ensures var body := Get(QueueOf(run.states[i], c)[q].msg, Body);
      (exists j: nat :: LearnedAt(run, i, j) && body == Get(run.steps[j].msg, Body)) <==> !ConfiguredEarly(run, i)
    ensures ConfiguredEarly(run, i) ==> Body !in QueueOf(run.states[i], c)[q].msg
  {
    RunInvariant(run, i);
    RunLearning(run, i);
    GreetingsCarry(run.states[i], c, q);
    if Learned(run, i) {
      var j: nat :| LearnedAt(run, i, j);
      assert run.states[i].capabilities == Get(run.steps[j].msg, Body);
    }
  }

  // ---------------------------------------------------------------- the first client

  /** The request that a response answers, under the number n it was forwarded with. */
  predicate AnswersPending(s: State, msg: Message, n: int) {
    KeyOf(Get(msg, RequestSeq)) == Some(n) && n in s.pending
  }

  /** The answer in a client's queue that passes on the k-th adapter message. */
  ghost predicate Told(q: seq<Delivery>, r: nat, k: nat, response: Message) {
    exists i :: 0 <= i < |q| && q[i].origin == Answer(r, k) && Get(q[i].msg, Body) == Get(response, Body)
                && Get(q[i].msg, Success) == Get(response, Success)
  }

  lemma ResolveTells(s: State, m: Message, k: nat, n: int)
    requires AnswersPending(s, m, n) && s.pending[n].client in s.clients
    ensures Told(QueueOf(Resolve(s, m, k), s.pending[n].client), ReqOf(s, n), k, m)
  {
    var c := s.pending[n].client;
    var q := QueueOf(Resolve(s, m, k), c);
    assert q[|QueueOf(s, c)|].origin == Answer(ReqOf(s, n), k);
  }

  lemma ResponseTells(s: State, msg: Message, n: int)
    requires IsResponse(msg) && AnswersPending(s, msg, n) && s.pending[n].client in s.clients
    ensures Told(QueueOf(AdapterMessage(s, msg), s.pending[n].client), ReqOf(s, n), |s.adapter|, msg)
  {
    var t, m := s.(adapter := s.adapter + [msg]), RewriteStaleVariableError(msg);
    RewriteKeepsBody(msg);
    CacheCapabilitiesFrame(t, m);
    ResolveTells(CacheCapabilities(t, m), m, |s.adapter|, n);
  }

  lemma ToldGrows(q: seq<Delivery>, q': seq<Delivery>, r: nat, k: nat, response: Message)
    requires q <= q' && Told(q, r, k, response)
    ensures Told(q', r, k, response)
  {
    var i :| 0 <= i < |q| && q[i].origin == Answer(r, k) && Get(q[i].msg, Body) == Get(response, Body)
             && Get(q[i].msg, Success) == Get(response, Success);
    assert q'[i] == q[i];
  }

  lemma AnswerIsTold(run: Run, i: nat, j: nat, n: int)
    requires Legal(run) && i < |run.states| && LearnedAt(run, i, j)
    requires AnswersPending(run.states[j], run.steps[j].msg, n)
    ensures var s := run.states[j];
      Told(QueueOf(run.states[i], s.pending[n].client), ReqOf(s, n), |s.adapter|, run.steps[j].msg)
  {
    var s, t, msg := run.states[j], run.states[j + 1], run.steps[j].msg;
    assert s in run.states;
    OnlyConnectedClients(s);
    assert Follows(run, j);
    ResponseTells(s, msg, n);
    HistoryGrows(run, j + 1, i);
    var c := s.pending[n].client;
    ToldGrows(QueueOf(t, c), QueueOf(run.states[i], c), ReqOf(s, n), |s.adapter|, msg);
  }

  lemma GreetingsCarry(s: State, c: ClientId, q: nat)
    requires Inv(s) && q < |QueueOf(s, c)| && QueueOf(s, c)[q].origin.Greeting?
    ensures Get(QueueOf(s, c)[q].msg, Body) == s.capabilities && s.phase.Rank() >= 2
    ensures s.capabilities.Null? ==> Body !in QueueOf(s, c)[q].msg
  {
    assert ContentOk(s, s.queues[c][q]);
  }

  // ---------------------------------------------------------------- configured too early

  const CAPABILITIES := Object(map["supportsRestartRequest" := Bool(true)])
  const INITIALIZED: Message := map[
    Seq := Number(1), Type := String("response"), RequestSeq := Number(1), Success := Bool(true),
    Command := String("initialize"), Body := CAPABILITIES]

  lemma InitializedIsSuccess()
    ensures IsResponse(INITIALIZED) && IsInitializeSuccess(INITIALIZED) && !IsVariableFailure(INITIALIZED)
    ensures !IsEvent(INITIALIZED) && !IsRequest(INITIALIZED)
  {
  }

  /** What the steps of the run below leave alone. */
  ghost predicate Unlearned(s: State, phase: Phase, clients: seq<ClientId>) {
    && s.phase == phase && s.clients == clients && s.nextClient == |clients|
    && s.buffered == [] && s.capabilities.Null? && s.initializedEvent.None? && s.stoppedEvent.None?
  }

  lemma AcceptUnlearned(s: State, phase: Phase, clients: seq<ClientId>)
    requires Unlearned(s, phase, clients)
    ensures var t := Next(s, Accept);
      Unlearned(t, phase, clients + [|clients|]) && t.nextSeq == s.nextSeq && t.queues == s.queues[|clients| := []]
  {
  }

  lemma ForwardUnlearned(s: State, phase: Phase, clients: seq<ClientId>)
    requires Unlearned(s, phase, clients) && 0 in clients
    ensures phase.PreInit? ==> var t := Next(s, FromClient(0, INITIALIZE));
      Unlearned(t, Initializing, clients) && t.pending == s.pending[s.nextSeq := Pending(0, Number(1))]
    ensures phase.Initializing? ==> var t := Next(s, FromClient(0, CONFIGURATION_DONE));
      Unlearned(t, Configured, clients) && t.pending == s.pending[s.nextSeq := Pending(0, Number(2))]
  {
    KindsOfRequests();
  }

  lemma InitializeGoesUpstream(s: State)
    requires s.phase.PreInit?
    ensures var t := Next(s, FromClient(0, INITIALIZE)); t.nextSeq == s.nextSeq + 1 && t.queues == s.queues
  {
    KindsOfRequests();
  }

  lemma ResponseUnlearned(s: State, clients: seq<ClientId>)
    requires Unlearned(s, Configured, clients) && 0 in clients && 1 in s.pending && s.pending[1].client == 0
    ensures var t := Next(s, FromAdapter(INITIALIZED));
      Unlearned(t, Configured, clients) && Told(QueueOf(t, 0), ReqOf(s, 1), |s.adapter|, INITIALIZED)
  {
    InitializedIsSuccess();
    ResponseTells(s, INITIALIZED, 1);
    AdapterLearns(s, INITIALIZED);
  }

  lemma GreetUnlearned(s: State, clients: seq<ClientId>)
    requires Unlearned(s, Configured, clients) && 1 in clients && QueueOf(s, 1) == []
    ensures var t := Next(s, FromClient(1, INITIALIZE));
      && t.buffered == [] && QueueOf(t, 0) == QueueOf(s, 0)
      && |QueueOf(t, 1)| == 1 && QueueOf(t, 1)[0].origin.Greeting? && Body !in QueueOf(t, 1)[0].msg
  {
    KindsOfRequests();
  }

  ghost predicate NothingBuffered(run: Run) {
    Legal(run) && forall i :: 0 <= i < |run.states| ==> run.states[i].buffered == []
  }

  function Last(run: Run): State
    requires |run.states| > 0
  {
    run.states[|run.states| - 1]
  }

  lemma BeforeInitialize() returns (run: Run)
    ensures NothingBuffered(run) && run.steps == [Accept]
    ensures Unlearned(Last(run), PreInit, [0]) && Last(run).nextSeq == 1 && QueueOf(Last(run), 0) == []
  {
    AcceptUnlearned(INITIAL, PreInit, []);
    run := OneMore(Run([], [INITIAL]), Accept);
  }

  lemma AndInitialize(run: Run) returns (next: Run)
    requires NothingBuffered(run) && Unlearned(Last(run), PreInit, [0]) && Last(run).nextSeq == 1
    ensures NothingBuffered(next) && next.steps == run.steps + [FromClient(0, INITIALIZE)]
    ensures Unlearned(Last(next), Initializing, [0]) && Last(next).nextSeq == 2
    ensures 1 in Last(next).pending && Last(next).pending[1].client == 0
    ensures QueueOf(Last(next), 0) == QueueOf(Last(run), 0)
  {
    KindsOfRequests();
    ForwardUnlearned(Last(run), PreInit, [0]);
    InitializeGoesUpstream(Last(run));
    next := OneMore(run, FromClient(0, INITIALIZE));
  }

  lemma AndConfigure(run: Run) returns (next: Run)
    requires NothingBuffered(run) && Unlearned(Last(run), Initializing, [0]) && Last(run).nextSeq == 2
    requires 1 in Last(run).pending && Last(run).pending[1].client == 0
    ensures NothingBuffered(next) && next.steps == run.steps + [FromClient(0, CONFIGURATION_DONE)]
    ensures Unlearned(Last(next), Configured, [0]) && 1 in Last(next).pending && Last(next).pending[1].client == 0
  {
    KindsOfRequests();
    ForwardUnlearned(Last(run), Initializing, [0]);
    next := OneMore(run, FromClient(0, CONFIGURATION_DONE));
  }

  lemma AndAnswer(run: Run) returns (next: Run)
    requires NothingBuffered(run) && Unlearned(Last(run), Configured, [0])
    requires 1 in Last(run).pending && Last(run).pending[1].client == 0
    ensures NothingBuffered(next) && next.steps == run.steps + [FromAdapter(INITIALIZED)]
    ensures Unlearned(Last(next), Configured, [0])
    ensures exists r: nat, k: nat :: Told(QueueOf(Last(next), 0), r, k, INITIALIZED)
  {
    InitializedIsSuccess();
    ResponseUnlearned(Last(run), [0]);
    next := OneMore(run, FromAdapter(INITIALIZED));
  }

  lemma AndAccept(run: Run) returns (next: Run)
    requires NothingBuffered(run) && Unlearned(Last(run), Configured, [0])
    ensures NothingBuffered(next) && next.steps == run.steps + [Accept]
    ensures Unlearned(Last(next), Configured, [0, 1]) && QueueOf(Last(next), 1) == []
    ensures QueueOf(Last(next), 0) == QueueOf(Last(run), 0)
  {
    AcceptUnlearned(Last(run), Configured, [0]);
    next := OneMore(run, Accept);
  }

  lemma AndGreet(run: Run) returns (next: Run)
    requires NothingBuffered(run) && Unlearned(Last(run), Configured, [0, 1]) && QueueOf(Last(run), 1) == []
    ensures NothingBuffered(next) && next.steps == run.steps + [FromClient(1, INITIALIZE)]
    ensures QueueOf(Last(next), 0) == QueueOf(Last(run), 0)
    ensures |QueueOf(Last(next), 1)| == 1
    ensures QueueOf(Last(next), 1)[0].origin.Greeting? && Body !in QueueOf(Last(next), 1)[0].msg
  {
    KindsOfRequests();
    GreetUnlearned(Last(run), [0, 1]);
    next := OneMore(run, FromClient(1, INITIALIZE));
  }

  /** Only the first client initializes, is told the capabilities, and does not wait for them before it configures
      the session: the next client is told none, although nothing was ever buffered. */
  lemma AnEarlyConfiguration() returns (run: Run)
    ensures NothingBuffered(run)
    ensures run.steps == [Accept, FromClient(0, INITIALIZE), FromClient(0, CONFIGURATION_DONE),
                          FromAdapter(INITIALIZED), Accept, FromClient(1, INITIALIZE)]
    ensures exists r: nat, k: nat :: Told(QueueOf(Last(run), 0), r, k, INITIALIZED)
    ensures |QueueOf(Last(run), 1)| == 1
    ensures QueueOf(Last(run), 1)[0].origin.Greeting? && Body !in QueueOf(Last(run), 1)[0].msg
  {
    run := BeforeInitialize();
    run := AndInitialize(run);
    run := AndConfigure(run);
    run := AndAnswer(run);
    run := AndAccept(run);
    run := AndGreet(run);
  }
}
