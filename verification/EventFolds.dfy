/** What the multiplexer keeps of the adapter's events, and what a client can conclude from those it is sent, told by
    the names of the events alone. */
module EventFolds {
  import opened Messages
  import opened MuxModel
  import opened MuxInvariant
  import opened ClientQueue
  import opened MuxQueues
  import opened MuxTheorems
  import opened Meanings

  /** log[i] is m, an event of the first name, and no event behind it has one of the names. */
  ghost predicate IsLast(log: seq<Message>, i: nat, m: Message, name: string, names: seq<string>) {
    && i < |log| && log[i] == m && IsEventNamed(m, name)
    && forall j, n :: i < j < |log| && n in names ==> !IsEventNamed(log[j], n)
  }

  /** m is the stop that still holds at the end of the log: nothing has stopped, continued or terminated since. */
  ghost predicate StopHolds(log: seq<Message>, m: Message) {
    exists i: nat :: IsLast(log, i, m, "stopped", ["stopped", "continued", "terminated"])
  }

  /** m is the last initialized event. */
  ghost predicate WasInitialized(log: seq<Message>, m: Message) {
    exists i: nat :: IsLast(log, i, m, "initialized", ["initialized"])
  }

  lemma LastAppends(log: seq<Message>, x: Message, m: Message, name: string, names: seq<string>)
    requires name in names
    ensures (exists i: nat :: IsLast(log + [x], i, m, name, names)) <==>
      (x == m && IsEventNamed(x, name)) ||
      ((exists i: nat :: IsLast(log, i, m, name, names)) && forall n :: n in names ==> !IsEventNamed(x, n))
  {
    var more := log + [x];
    if x == m && IsEventNamed(x, name) { assert IsLast(more, |log|, m, name, names); }
    forall i: nat | IsLast(log, i, m, name, names) && forall n :: n in names ==> !IsEventNamed(x, n)
      ensures IsLast(more, i, m, name, names)
    {
    }
    forall i: nat | IsLast(more, i, m, name, names) && i < |log|
      ensures IsLast(log, i, m, name, names) && forall n :: n in names ==> !IsEventNamed(x, n)
    {
      assert more[|log|] == x;
      forall j, n | i < j < |log| && n in names ensures !IsEventNamed(log[j], n) { assert more[j] == log[j]; }
    }
  }

  lemma StopAfterByName(stop: Option<Message>, x: Message)
    ensures IsEventNamed(x, "stopped") ==> StopAfter(stop, x) == Some(x)
    ensures IsEventNamed(x, "continued") || IsEventNamed(x, "terminated") ==> StopAfter(stop, x) == None
    ensures !IsEventNamed(x, "stopped") && !IsEventNamed(x, "continued") && !IsEventNamed(x, "terminated") ==>
              StopAfter(stop, x) == stop
  {
    BroadcastsByName(x);
    TextIs(x, EventName, "stopped");
    TextIs(x, EventName, "continued");
    TextIs(x, EventName, "terminated");
    assert "stopped"[0] == 's' && "continued"[0] == 'c' && "terminated"[0] == 't' && "debugpySockets"[0] == 'd';
    assert "debugpyAttach"[0] == 'd' && "startDebugging"[1] == 't' && |"startDebugging"| == 14;
  }

  lemma InitializedAfterByName(event: Option<Message>, x: Message)
    ensures IsEventNamed(x, "initialized") ==> InitializedAfter(event, x) == Some(x)
    ensures !IsEventNamed(x, "initialized") ==> InitializedAfter(event, x) == event
  {
    BroadcastsByName(x);
    TextIs(x, EventName, "initialized");
    assert "initialized"[0] == 'i' && "debugpySockets"[0] == 'd' && "debugpyAttach"[0] == 'd';
    assert "startDebugging"[0] == 's';
  }

  /** The stop that a reader of the log believes in is the one that still holds. */
  lemma {:induction false} StopInMeans(log: seq<Message>, m: Message)
    ensures StopIn(log) == Some(m) <==> StopHolds(log, m)
  {
    if log != [] {
      var init, x := log[..|log| - 1], log[|log| - 1];
      StopInMeans(init, m);
      StopAfterByName(StopIn(init), x);
      assert init + [x] == log;
      LastAppends(init, x, m, "stopped", ["stopped", "continued", "terminated"]);
    }
  }

  lemma {:induction false} InitializedInMeans(log: seq<Message>, m: Message)
    ensures InitializedIn(log) == Some(m) <==> WasInitialized(log, m)
  {
    if log != [] {
      var init, x := log[..|log| - 1], log[|log| - 1];
      InitializedInMeans(init, m);
      InitializedAfterByName(InitializedIn(init), x);
      assert init + [x] == log;
      LastAppends(init, x, m, "initialized", ["initialized"]);
    }
  }

  lemma SameMeaning(a: Option<Message>, b: Option<Message>)
    requires forall m :: a == Some(m) <==> b == Some(m)
    ensures a == b
  {
    if a.Some? { assert a == Some(a.value); }
  }

  /** The multiplexer keeps the stop that holds and the last initialized event, and a client that it has greeted
      has been sent the same: what holds at the end of its own queue is what holds at the end of the adapter's log. */
  lemma LateJoinersSeeWhatHolds(s: State, c: ClientId, m: Message)
    requires Reachable(s) && c in s.clients
    ensures s.stoppedEvent == Some(m) <==> StopHolds(s.adapter, m)
    ensures s.initializedEvent == Some(m) <==> WasInitialized(s.adapter, m)
    ensures Greeted(QueueOf(s, c)) ==> (StopHolds(MessagesOf(QueueOf(s, c)), m) <==> StopHolds(s.adapter, m))
    ensures Greeted(QueueOf(s, c)) ==>
              (WasInitialized(MessagesOf(QueueOf(s, c)), m) <==> WasInitialized(s.adapter, m))
  {
    LateJoinersAgree(s, c);
    var view := MessagesOf(QueueOf(s, c));
    StopInMeans(s.adapter, m);
    StopInMeans(view, m);
    InitializedInMeans(s.adapter, m);
    InitializedInMeans(view, m);
  }

  ghost predicate EverInitialized(log: seq<Message>) {
    exists m :: WasInitialized(log, m)
  }

  lemma EverInitializedMeans(log: seq<Message>)
    ensures EverInitialized(log) <==> InitializedIn(log).Some?
  {
    forall m ensures InitializedIn(log) == Some(m) <==> WasInitialized(log, m) { InitializedInMeans(log, m); }
    if InitializedIn(log).Some? { assert WasInitialized(log, InitializedIn(log).value); }
  }

  /** From position i of the queue there stand the last initialized event of the log, and then the stop that holds. */
  ghost predicate IsBlock(log: seq<Message>, q: seq<Message>, i: nat) {
    && (forall m :: WasInitialized(log, m) ==> i < |q| && q[i] == m)
    && (forall m :: StopHolds(log, m) ==> var j := if EverInitialized(log) then i + 1 else i; j < |q| && q[j] == m)
  }

  lemma BlockMeans(log: seq<Message>, q: seq<Delivery>, i: nat)
    requires i + |ReplayBlock(log)| <= |q| && q[i..i + |ReplayBlock(log)|] == ReplayBlock(log)
    ensures IsBlock(log, MessagesOf(q), i)
  {
    var block := ReplayBlock(log);
    assert forall n :: i <= n < i + |block| ==> q[n] == q[i..i + |block|][n - i];
    forall m | WasInitialized(log, m) ensures i < |q| && q[i].msg == m {
      InitializedInMeans(log, m);
      assert q[i + 0] == block[0];
    }
    EverInitializedMeans(log);
    forall m | StopHolds(log, m) ensures var j := if EverInitialized(log) then i + 1 else i; j < |q| && q[j].msg == m {
      StopInMeans(log, m);
      assert q[i + (|block| - 1)] == block[|block| - 1];
    }
  }

  /** Behind a greeting stand the last initialized event of that moment, if any, and then the stop that held. */
  lemma GreetingIsFollowedBy(s: State, c: ClientId, i: nat)
    requires Reachable(s) && i < |QueueOf(s, c)| && QueueOf(s, c)[i].origin.Greeting?
    ensures QueueOf(s, c)[i].origin.k <= |s.adapter|
    ensures IsBlock(s.adapter[..QueueOf(s, c)[i].origin.k], MessagesOf(QueueOf(s, c)), i + 1)
  {
    HasQueue(s, c);
    ClientsAreSentEverything(s, c);
    BlockBehind(s.adapter, QueueOf(s, c), i);
  }

  lemma HasQueue(s: State, c: ClientId)
    requires Reachable(s) && QueueOf(s, c) != []
    ensures c < s.nextClient
  {
    ReachableInv(s);
  }

  lemma BlockBehind(log: seq<Message>, q: seq<Delivery>, i: nat)
    requires BlocksOk(log, q) && i < |q| && q[i].origin.Greeting?
    ensures q[i].origin.k <= |log| && IsBlock(log[..q[i].origin.k], MessagesOf(q), i + 1)
  {
    assert BlockAt(log, q, i + 1, q[i].origin.k);
    BlockMeans(log[..q[i].origin.k], q, i + 1);
  }
}
