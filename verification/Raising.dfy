/** What a first initialize without a number does: its handler sets the phase, and raises before it forwards. */
module Raising {
  import opened Messages
  import opened MuxModel
  import opened MuxInvariant
  import opened MuxProtocol
  import opened MuxTheorems
  import opened MuxCapabilities
  import LocalAnswers

  ghost predicate Raises(s: State, c: ClientId, msg: Message) {
    s.phase.PreInit? && c in s.clients && IsRequest(msg) && KindOf(msg).Initialize? && Seq !in msg
  }

  /** The effects up to the KeyError. */
  function Raised(s: State, c: ClientId, msg: Message): State {
    Register(s, c, msg).(phase := Initializing)
  }

  /** Steps that are taken from there on. */
  ghost predicate Continues(run: Run, start: State) {
    && |run.states| == |run.steps| + 1 && run.states[0] == start
    && forall i {:trigger Follows(run, i)} :: 0 <= i < |run.steps| ==> Follows(run, i)
  }

  ghost predicate NoInitialize(log: seq<Forwarded>) {
    forall i :: 0 <= i < |log| ==> !KindOf(log[i].msg).Initialize?
  }

  /** Past the first phase no initialize is forwarded. */
  lemma NextForwardsNoInitialize(s: State, step: Step)
    requires !s.phase.PreInit? && NoInitialize(s.upstream)
    ensures !Next(s, step).phase.PreInit? && NoInitialize(Next(s, step).upstream)
  {
    match step
    case FromClient(c, msg) =>
      if IsRequest(msg) { HandleForwardsNoInitialize(Record(s, c, msg), c, msg, |s.requests|, KindOf(msg)); }
    case FromAdapter(msg) =>
      AdapterLearns(s, msg);
      AdapterFrame(s, msg);
    case _ =>
  }

  lemma HandleForwardsNoInitialize(s: State, c: ClientId, msg: Message, r: nat, kind: Kind)
    requires !s.phase.PreInit? && NoInitialize(s.upstream) && kind == KindOf(msg)
    ensures var t := HandleRequest(s, c, msg, r, kind); !t.phase.PreInit? && NoInitialize(t.upstream)
  {
    if kind.Initialize? { GreetFrame(Register(s, c, msg), c, msg, r); }
    else if Intercepted(s.phase, kind) { SyntheticFrame(s, c, msg, r); }
    else {
      ForwardFrame(Configure(s, kind), c, msg, r);
      KindSurvives(msg, s.nextSeq);
    }
  }

  lemma RaisedKeeps(s: State, c: ClientId, msg: Message)
    requires Reachable(s) && Raises(s, c, msg)
    ensures Inv(Raised(s, c, msg)) && NoInitialize(Raised(s, c, msg).upstream)
  {
    ReachableInv(s);
    ReachableProtocol(s);
    RegisterKeeps(s, c, msg, |s.requests|);
    PhaseKeeps(Register(s, c, msg), |s.requests|, Initializing);
    forall i | 0 <= i < |s.upstream| ensures !KindOf(s.upstream[i].msg).Initialize? {
      assert SentInPhase(KindOf(s.upstream[i].msg), s.phase);
    }
  }

  /** After that the adapter is never sent an initialize. */
  lemma {:induction false} NoInitializeIsForwarded(s: State, c: ClientId, msg: Message, run: Run, i: nat)
    requires Reachable(s) && Raises(s, c, msg) && Continues(run, Raised(s, c, msg)) && i < |run.states|
    ensures Inv(run.states[i]) && !run.states[i].phase.PreInit? && NoInitialize(run.states[i].upstream)
  {
    if i == 0 {
      RaisedKeeps(s, c, msg);
    } else {
      NoInitializeIsForwarded(s, c, msg, run, i - 1);
      assert Follows(run, i - 1);
      NextKeeps(run.states[i - 1], run.steps[i - 1]);
      NextForwardsNoInitialize(run.states[i - 1], run.steps[i - 1]);
    }
  }

  /** The m-th step is an initialize, request number r, which comes while the multiplexer waits for capabilities. */
  ghost predicate IsBuffered(run: Run, m: nat, r: nat)
    requires |run.states| == |run.steps| + 1 && m < |run.steps|
  {
    && run.states[m].phase.Initializing? && r == |run.states[m].requests|
    && run.steps[m].FromClient? && IsRequest(run.steps[m].msg) && KindOf(run.steps[m].msg).Initialize?
  }

  lemma StepBuffers(run: Run, m: nat, r: nat, start: State)
    requires Continues(run, start) && m < |run.steps| && IsBuffered(run, m, r)
    ensures InBuffer(run.states[m + 1], r)
  {
    assert Follows(run, m);
    LocalAnswers.InitializeIsBuffered(run.states[m], run.steps[m].client, run.steps[m].msg);
  }

  lemma StepKeepsBuffered(run: Run, j: nat, r: nat, start: State)
    requires Continues(run, start) && j < |run.steps| && Inv(run.states[j]) && !Learns(run.states[j], run.steps[j])
    requires InBuffer(run.states[j], r)
    ensures InBuffer(run.states[j + 1], r)
  {
    assert Follows(run, j);
    LocalAnswers.BufferIsUnanswered(run.states[j], r);
    LocalAnswers.BufferedWaits(run.states[j], run.steps[j], r);
  }

  /** And an initialize that comes meanwhile is buffered, and not answered unless the adapter sends a successful
      response to the initialize that it was never sent. */
  lemma {:induction false} BufferedForGood(s: State, c: ClientId, msg: Message, run: Run, m: nat, i: nat, r: nat)
    requires Reachable(s) && Raises(s, c, msg) && Continues(run, Raised(s, c, msg))
    requires m < i < |run.states| && IsBuffered(run, m, r)
    requires forall j: nat :: m < j ==> !LearnedAt(run, i, j)
    ensures InBuffer(run.states[i], r)
    ensures !HasOutcome(run.states[i], r, ByMultiplexer) && !HasOutcome(run.states[i], r, ByAdapter)
    decreases i
  {
    NoInitializeIsForwarded(s, c, msg, run, i);
    if i == m + 1 {
      StepBuffers(run, m, r, Raised(s, c, msg));
    } else {
      NothingLearned(run, m, i, i - 1);
      BufferedForGood(s, c, msg, run, m, i - 1, r);
      NoInitializeIsForwarded(s, c, msg, run, i - 1);
      StepKeepsBuffered(run, i - 1, r, Raised(s, c, msg));
    }
    LocalAnswers.BufferIsUnanswered(run.states[i], r);
  }

  lemma NothingLearned(run: Run, m: nat, i: nat, p: nat)
    requires m < p && p + 1 == i < |run.states| == |run.steps| + 1
    requires forall j: nat :: m < j ==> !LearnedAt(run, i, j)
    ensures !Learns(run.states[p], run.steps[p])
    ensures forall j: nat :: m < j ==> !LearnedAt(run, p, j)
  {
    assert !LearnedAt(run, i, p);
    assert forall j: nat :: LearnedAt(run, p, j) ==> LearnedAt(run, i, j);
  }
}
