/** Which initializes the multiplexer answers itself, and when. */
module LocalAnswers {
  import opened Messages
  import opened MuxModel
  import opened MuxInvariant
  import opened MuxProtocol
  import opened MuxTheorems
  import opened MuxCapabilities
  import opened Departures

  /** The m-th step is client c's initialize, request number r. */
  ghost predicate SendsInitialize(run: Run, m: nat, c: ClientId, r: nat)
    requires Legal(run) && m < |run.steps|
  {
    && run.steps[m].FromClient? && run.steps[m].client == c
    && IsRequest(run.steps[m].msg) && KindOf(run.steps[m].msg).Initialize?
    && r == |run.states[m].requests|
  }

  /** The multiplexer learns the capabilities after step m, while c is connected. */
  ghost predicate LearnsFor(run: Run, m: nat, i: nat, c: ClientId)
    requires i < |run.states| == |run.steps| + 1
  {
    exists j: nat :: m < j && LearnedAt(run, i, j) && c in run.states[j].clients
  }

  lemma LearnsForAppends(run: Run, m: nat, i: nat, n: nat, c: ClientId)
    requires m < i && i + 1 == n < |run.states| == |run.steps| + 1
    ensures LearnsFor(run, m, n, c) <==>
              LearnsFor(run, m, i, c) || (Learns(run.states[i], run.steps[i]) && c in run.states[i].clients)
  {
    if LearnsFor(run, m, n, c) {
      var j: nat :| m < j && LearnedAt(run, n, j) && c in run.states[j].clients;
      if j < i { assert LearnedAt(run, i, j); }
    }
    if LearnsFor(run, m, i, c) {
      var j: nat :| m < j && LearnedAt(run, i, j) && c in run.states[j].clients;
      assert LearnedAt(run, n, j);
    }
    if Learns(run.states[i], run.steps[i]) { assert LearnedAt(run, n, i); }
  }

  // ---------------------------------------------------------------- single steps

  lemma NextKeepsBuffered(s: State, step: Step)
    requires !Learns(s, step)
    ensures s.buffered <= Next(s, step).buffered
  {
    match step
    case FromClient(c, msg) =>
      if IsRequest(msg) { HandleKeepsBuffered(Record(s, c, msg), c, msg, |s.requests|, KindOf(msg)); }
    case FromAdapter(msg) =>
      AdapterLearns(s, msg);
      DispatchStrands(s.(adapter := s.adapter + [msg]), msg, |s.adapter|, RoutingOf(msg));
    case _ =>
  }

  lemma HandleKeepsBuffered(s: State, c: ClientId, msg: Message, r: nat, kind: Kind)
    ensures s.buffered <= HandleRequest(s, c, msg, r, kind).buffered
  {
    if kind.Initialize? { GreetFrame(Register(s, c, msg), c, msg, r); }
    else if Intercepted(s.phase, kind) { SyntheticFrame(s, c, msg, r); }
    else { ForwardFrame(Configure(s, kind), c, msg, r); }
  }

  /** An initialize in the buffer stays there and unanswered until the multiplexer learns the capabilities. */
  lemma BufferedWaits(s: State, step: Step, r: nat)
    requires Inv(s) && Enabled(s, step) && r < |s.requests| && InBuffer(s, r) && !Learns(s, step)
    ensures InBuffer(Next(s, step), r) && !HasOutcome(Next(s, step), r, ByMultiplexer)
  {
    var t := Next(s, step);
    NextKeeps(s, step);
    NextKeepsBuffered(s, step);
    var i :| 0 <= i < |s.buffered| && s.buffered[i].req == r;
    assert t.buffered[i] == s.buffered[i];
    BufferIsUnanswered(t, r);
  }

  lemma LearningAnswers(s: State, step: Step, r: nat)
    requires Reachable(s) && r < |s.requests| && SenderOf(s, r) in s.clients && InBuffer(s, r) && Learns(s, step)
    ensures HasOutcome(Next(s, step), r, ByMultiplexer)
  {
    ReachableInv(s);
    AdapterFrame(s, step.msg);
    var i :| 0 <= i < |s.buffered| && s.buffered[i].req == r;
    assert BufferedOk(s, s.buffered[i]);
    LearningGreets(s, step.msg, i);
  }

  ghost predicate GreetedFor(q: seq<Delivery>, r: nat) {
    exists j :: 0 <= j < |q| && IsLocalAnswer(q[j].origin, r)
  }

  lemma LearningGreets(s: State, msg: Message, i: nat)
    requires Reachable(s) && Learns(s, FromAdapter(msg)) && i < |s.buffered| && s.buffered[i].client in s.clients
    ensures GreetedFor(QueueOf(AdapterMessage(s, msg), s.buffered[i].client), s.buffered[i].req)
  {
    InitializeResponseAnswersTheBuffer(s, msg, i);
    var q := QueueOf(AdapterMessage(s, msg), s.buffered[i].client);
    var j :| 0 <= j < |q| && q[j].origin.Greeting? && q[j].origin.req == s.buffered[i].req;
    assert IsLocalAnswer(q[j].origin, s.buffered[i].req);
  }

  lemma InitializeIsBuffered(s: State, c: ClientId, msg: Message)
    requires s.phase.Initializing? && IsRequest(msg) && KindOf(msg).Initialize?
    ensures InBuffer(Next(s, FromClient(c, msg)), |s.requests|)
  {
    var t := Next(s, FromClient(c, msg));
    assert t.buffered[|s.buffered|].req == |s.requests|;
  }

  lemma InitializeIsGreeted(s: State, c: ClientId, msg: Message)
    requires Inv(s) && s.phase.Rank() >= 2 && c in s.clients && IsRequest(msg) && KindOf(msg).Initialize?
    ensures var t := Next(s, FromClient(c, msg));
      |s.requests| < |t.fates| && t.fates[|s.requests|].AnsweredLocally?
  {
    GreetSettles(Register(Record(s, c, msg), c, msg), c, msg, |s.requests|);
  }

  // ---------------------------------------------------------------- runs

  lemma AnsweredStays(run: Run, i: nat, j: nat, r: nat)
    requires Legal(run) && i <= j < |run.states| && r < |run.states[i].requests|
    requires HasOutcome(run.states[i], r, ByMultiplexer)
    ensures HasOutcome(run.states[j], r, ByMultiplexer)
  {
    HistoryGrows(run, i, j);
    var q, q' := QueueOf(run.states[i], SenderOf(run.states[i], r)), QueueOf(run.states[j], SenderOf(run.states[j], r));
    var k :| 0 <= k < |q| && IsLocalAnswer(q[k].origin, r);
    assert q'[k] == q[k];
  }

  /** A buffered initialize has been answered if and only if the capabilities have been learned for its client;
      until then it is in the buffer while its client stays. */
  lemma {:induction false} BufferedIsAnsweredExactlyWhen(run: Run, m: nat, i: nat, c: ClientId, r: nat)
    requires Legal(run) && m < i < |run.states| && SendsInitialize(run, m, c, r)
    requires run.states[m].phase.Initializing?
    ensures r < |run.states[i].requests| && SenderOf(run.states[i], r) == c < run.states[i].nextClient
    ensures HasOutcome(run.states[i], r, ByMultiplexer) <==> LearnsFor(run, m, i, c)
    ensures !LearnsFor(run, m, i, c) && c in run.states[i].clients ==> InBuffer(run.states[i], r)
    decreases i
  {
    if i == m + 1 {
      Buffers(run, m, c, r);
    } else {
      var s, step := run.states[i - 1], run.steps[i - 1];
      BufferedIsAnsweredExactlyWhen(run, m, i - 1, c, r);
      RunInvariant(run, i - 1);
      assert Follows(run, i - 1);
      HistoryGrows(run, i - 1, i);
      LearnsForAppends(run, m, i - 1, i, c);
      if LearnsFor(run, m, i - 1, c) { AnsweredStays(run, i - 1, i, r); }
      else if c !in s.clients { NextSkips(s, step, c); }
      else if Learns(s, step) { LearningAnswers(s, step, r); }
      else { BufferedWaits(s, step, r); }
    }
  }

  lemma Buffers(run: Run, m: nat, c: ClientId, r: nat)
    requires Legal(run) && m + 1 < |run.states| && SendsInitialize(run, m, c, r)
    requires run.states[m].phase.Initializing?
    ensures var t := run.states[m + 1];
      && r < |t.requests| && SenderOf(t, r) == c < t.nextClient
      && InBuffer(t, r) && !HasOutcome(t, r, ByMultiplexer) && !LearnsFor(run, m, m + 1, c)
  {
    var s, t := run.states[m], run.states[m + 1];
    assert Follows(run, m);
    RunInvariant(run, m);
    RunInvariant(run, m + 1);
    RequestFrame(s, c, run.steps[m].msg);
    InitializeIsBuffered(s, c, run.steps[m].msg);
    BufferIsUnanswered(t, r);
  }

  lemma BufferIsUnanswered(s: State, r: nat)
    requires Inv(s) && InBuffer(s, r)
    ensures r < |s.requests| && !HasOutcome(s, r, ByMultiplexer) && !HasOutcome(s, r, ByAdapter)
  {
    BufferedAreUnanswered(s);
    var i :| 0 <= i < |s.buffered| && s.buffered[i].req == r;
    assert BufferedOk(s, s.buffered[i]) && s.buffered[i] in s.buffered;
  }

  lemma Greets(run: Run, m: nat, c: ClientId, r: nat)
    requires Legal(run) && m + 1 < |run.states| && SendsInitialize(run, m, c, r)
    requires run.states[m].phase.Rank() >= 2
    ensures r < |run.states[m + 1].requests| && HasOutcome(run.states[m + 1], r, ByMultiplexer)
  {
    var s, t := run.states[m], run.states[m + 1];
    assert Follows(run, m);
    RunInvariant(run, m);
    RunInvariant(run, m + 1);
    InitializeIsGreeted(s, c, run.steps[m].msg);
    FateIsOutcome(t, r);
  }

  lemma SendsUpstream(run: Run, m: nat, c: ClientId, r: nat)
    requires Legal(run) && m + 1 < |run.states| && SendsInitialize(run, m, c, r)
    requires run.states[m].phase.PreInit?
    ensures var u := run.states[m + 1].upstream; u != [] && u[|u| - 1].req == r
  {
    assert Follows(run, m);
  }

  lemma ForwardedIsNotLocal(run: Run, i: nat, p: nat)
    requires Legal(run) && i < |run.states| && p < |run.states[i].upstream|
    ensures !HasOutcome(run.states[i], run.states[i].upstream[p].req, ByMultiplexer)
  {
    RunInvariant(run, i);
    UpstreamFate(run.states[i], p);
    AnswersShowFate(run.states[i], run.states[i].upstream[p].req);
  }

  /** The multiplexer has answered an initialize itself if and only if it did not forward it, and either it was
      past initializing when the request came, or it has learned the capabilities since then, while the client
      was connected. */
  lemma InitializesAnsweredExactlyWhen(run: Run, m: nat, i: nat, c: ClientId, r: nat)
    requires Legal(run) && m < i < |run.states| && SendsInitialize(run, m, c, r)
    ensures var phase := run.states[m].phase;
      HasOutcome(run.states[i], r, ByMultiplexer) <==>
      !phase.PreInit? && (phase.Rank() >= 2 || LearnsFor(run, m, i, c))
  {
    HistoryGrows(run, m + 1, i);
    if run.states[m].phase.PreInit? {
      SendsUpstream(run, m, c, r);
      var p := |run.states[m + 1].upstream| - 1;
      assert run.states[i].upstream[p] == run.states[m + 1].upstream[p];
      ForwardedIsNotLocal(run, i, p);
    } else if run.states[m].phase.Initializing? {
      BufferedIsAnsweredExactlyWhen(run, m, i, c, r);
    } else {
      Greets(run, m, c, r);
      AnsweredStays(run, m + 1, i, r);
    }
  }
}
