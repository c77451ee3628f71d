/** Who is sent what the adapter says of its own accord, told by the texts and fields of the messages. */
module Recipients {
  import opened Messages
  import opened MuxModel
  import opened MuxInvariant
  import opened MuxProtocol
  import opened ClientQueue
  import opened MuxQueues
  import opened MuxTheorems
  import opened ReverseRequests
  import opened Meanings
  import EventFolds

  // ---------------------------------------------------------------- events

  lemma {:induction false} BroadcastsInMeans(log: seq<Message>, m: Message)
    ensures m in BroadcastsIn(log) <==> m in log && Says(m, Type, "event") && !SaysUnwanted(m)
  {
    BroadcastsByName(m);
    if log != [] {
      var init, x := log[..|log| - 1], log[|log| - 1];
      BroadcastsInMeans(init, m);
      assert m in log <==> m in init || m == x;
    }
  }

  lemma {:induction false} EventsOfMeans(q: seq<Delivery>, m: Message)
    ensures m in EventsOf(q) <==> exists i :: 0 <= i < |q| && q[i].origin.Event? && q[i].msg == m
  {
    if q != [] {
      var init := q[..|q| - 1];
      EventsOfMeans(init, m);
      assert forall i :: 0 <= i < |init| ==> init[i] == q[i];
    }
  }

  /** Every event but debugpy's own that the adapter sends while a client is connected is queued to that client. */
  lemma EveryEventIsQueued(s: State, c: ClientId, k: nat)
    requires Reachable(s) && c < s.nextClient
    requires c in s.joined && s.joined[c] <= k < EndOf(s, c) && k < |s.adapter|
    requires Says(s.adapter[k], Type, "event")
    requires !Says(s.adapter[k], EventName, "debugpySockets") && !Says(s.adapter[k], EventName, "debugpyAttach")
    requires !Says(s.adapter[k], EventName, "startDebugging")
    ensures var q := QueueOf(s, c);
      exists i :: 0 <= i < |q| && q[i].origin.Event? && q[i].msg == s.adapter[k]
  {
    ClientsAreSentEverything(s, c);
    var log := s.adapter[s.joined[c]..EndOf(s, c)];
    assert log[k - s.joined[c]] == s.adapter[k];
    BroadcastsInMeans(log, s.adapter[k]);
    EventsOfMeans(QueueOf(s, c), s.adapter[k]);
  }

  lemma {:induction false} CurrentIsWanted(log: seq<Message>, m: Message)
    requires IsCurrent(m, log)
    ensures IsBroadcast(m)
  {
    var x := log[|log| - 1];
    if m != x || !IsBroadcast(x) { CurrentIsWanted(log[..|log| - 1], m); }
  }

  /** And debugpy's own events are queued to nobody. */
  lemma UnwantedEventsAreDropped(s: State, c: ClientId, i: nat)
    requires Reachable(s) && i < |QueueOf(s, c)| && Says(QueueOf(s, c)[i].msg, Type, "event")
    ensures var m := QueueOf(s, c)[i].msg;
      && !Says(m, EventName, "debugpySockets") && !Says(m, EventName, "debugpyAttach")
      && !Says(m, EventName, "startDebugging")
  {
    var d := QueueOf(s, c)[i];
    DeliveriesAreExplained(s, c, i);
    TypesByText(d.msg);
    BroadcastsByName(d.msg);
    match d.origin
    case Answer(_, k) => AnswersAreRouted(s, c, i);
    case Replay(k) => CurrentIsWanted(s.adapter[..k], d.msg);
    case _ =>
  }

  /** An adapter's message is a response, an event or one of two requests, or it is dropped. */
  lemma OtherMessagesAreDropped(s: State, m: Message)
    requires !Says(m, Type, "response") && !Says(m, Type, "event")
    requires !Says(m, Type, "request") || (!Says(m, Command, "runInTerminal") && !Says(m, Command, "startDebugging"))
    ensures Next(s, FromAdapter(m)) == s.(adapter := s.adapter + [m])
  {
    TypesByText(m);
    ReverseRequestsByCommand(m);
  }

  // ---------------------------------------------------------------- reverse requests

  /** The r-th request is an initialize of client c. */
  predicate Initializes(s: State, c: ClientId, r: nat) {
    r < |s.requests| && s.requests[r].client == c && Says(s.requests[r].msg, Command, "initialize")
  }

  /** c is connected and has sent initialize. */
  ghost predicate MayServe(s: State, c: ClientId) {
    c in s.clients && exists r: nat :: Initializes(s, c, r)
  }

  /** The r-th request is the latest initialize of c, and says that it runs commands in a terminal. */
  ghost predicate OptsInAt(s: State, c: ClientId, r: nat) {
    && Initializes(s, c, r) && (forall j: nat :: j > r ==> !Initializes(s, c, j))
    && Arguments in s.requests[r].msg && s.requests[r].msg[Arguments].Object?
    && var fields := s.requests[r].msg[Arguments].fields;
       "supportsRunInTerminalRequest" in fields && !Falsy(fields["supportsRunInTerminalRequest"])
  }

  ghost predicate MayRunInTerminal(s: State, c: ClientId) {
    c in s.clients && exists r: nat :: OptsInAt(s, c, r)
  }

  /** c sent its first initialize no later than x. */
  ghost predicate NoLater(s: State, c: ClientId, x: ClientId) {
    forall r: nat :: Initializes(s, x, r) ==> exists j: nat :: j <= r && Initializes(s, c, j)
  }

  lemma FirstInitializeMeans(s: State, c: ClientId)
    ensures forall r: nat :: Initializes(s, c, r) <==> r < |s.requests| && IsInitializeOf(s.requests[r], c)
    ensures FirstInitialize(s.requests, c) < |s.requests| ==> Initializes(s, c, FirstInitialize(s.requests, c))
    ensures forall r: nat :: Initializes(s, c, r) ==> FirstInitialize(s.requests, c) <= r
  {
    forall r: nat | r < |s.requests|
      ensures Initializes(s, c, r) <==> IsInitializeOf(s.requests[r], c)
    {
      KindsByCommand(s.requests[r].msg);
    }
  }

  /** The arguments remembered for a client are those of its latest initialize. */
  lemma {:induction false} LatestArgumentsMeans(requests: seq<Request>, c: ClientId) returns (r: nat)
    ensures LatestArguments(requests, c).Some? <==> exists j :: 0 <= j < |requests| && IsInitializeOf(requests[j], c)
    ensures LatestArguments(requests, c).Some? ==>
              r < |requests| && IsInitializeOf(requests[r], c)
              && (forall j :: r < j < |requests| ==> !IsInitializeOf(requests[j], c))
              && LatestArguments(requests, c) == Some(GetOr(requests[r].msg, Arguments, Object(map[])))
  {
    r := 0;
    if requests != [] {
      var init := requests[..|requests| - 1];
      if IsInitializeOf(requests[|requests| - 1], c) {
        r := |requests| - 1;
      } else {
        r := LatestArgumentsMeans(init, c);
        assert forall j :: 0 <= j < |init| ==> init[j] == requests[j];
      }
    }
  }

  lemma OptingInMeans(s: State, c: ClientId)
    ensures HasInitialized(s, c) <==> MayServe(s, c)
    ensures HasOptedIn(s, c) <==> MayRunInTerminal(s, c)
  {
    FirstInitializeMeans(s, c);
    var r := LatestArgumentsMeans(s.requests, c);
    if LatestArguments(s.requests, c).Some? {
      assert Initializes(s, c, r);
      OptInByField(LatestArguments(s.requests, c).value);
      if HasOptedIn(s, c) { assert OptsInAt(s, c, r); }
      if MayRunInTerminal(s, c) {
        var j: nat :| OptsInAt(s, c, j);
        assert j == r;
      }
    }
  }

  lemma EarliestMeans(s: State, c: ClientId, x: ClientId)
    requires FirstInitialize(s.requests, c) <= FirstInitialize(s.requests, x)
    ensures NoLater(s, c, x)
  {
    FirstInitializeMeans(s, c);
    FirstInitializeMeans(s, x);
  }

  /** A client to which a reverse request may go: one that runs commands in a terminal if that is asked for and there
      is any, else any that has initialized; of these the one that initialized first. */
  ghost predicate IsRecipient(s: State, m: Message, c: ClientId) {
    if Says(m, Command, "runInTerminal") && exists x: ClientId :: MayRunInTerminal(s, x)
    then MayRunInTerminal(s, c) && forall x: ClientId :: MayRunInTerminal(s, x) ==> NoLater(s, c, x)
    else MayServe(s, c) && forall x: ClientId :: MayServe(s, x) ==> NoLater(s, c, x)
  }

  lemma TargetIsRecipient(s: State, m: Message, c: ClientId)
    requires IsTarget(s, m, c)
    ensures IsRecipient(s, m, c)
  {
    ReverseRequestsByCommand(m);
    forall x: ClientId ensures HasInitialized(s, x) <==> MayServe(s, x)
                       ensures HasOptedIn(s, x) <==> MayRunInTerminal(s, x) { OptingInMeans(s, x); }
    forall x: ClientId | FirstInitialize(s.requests, c) <= FirstInitialize(s.requests, x) ensures NoLater(s, c, x) {
      EarliestMeans(s, c, x);
    }
  }

  /** A request of the adapter to run a command in a terminal or to start debugging goes to one such client, and to
      nobody if there is none. */
  lemma ReverseRequestsGoToOne(s: State, m: Message)
    requires Reachable(s) && Says(m, Type, "request")
    requires Says(m, Command, "runInTerminal") || Says(m, Command, "startDebugging")
    ensures var t := Next(s, FromAdapter(m));
      if exists x: ClientId :: MayServe(s, x)
      then exists c: ClientId :: IsRecipient(s, m, c)
             && t.queues == s.queues[c := QueueOf(s, c) + [Delivery(m, Reverse(|s.adapter|))]]
      else t.queues == s.queues
  {
    ReverseRequestsByCommand(m);
    ReverseRequestsAreTargeted(s, m);
    var t := Next(s, FromAdapter(m));
    forall x: ClientId ensures HasInitialized(s, x) <==> MayServe(s, x) { OptingInMeans(s, x); }
    if exists x: ClientId :: MayServe(s, x) {
      var c: ClientId :| IsTarget(s, m, c)
        && t.queues == s.queues[c := QueueOf(s, c) + [Delivery(m, Reverse(|s.adapter|))]];
      TargetIsRecipient(s, m, c);
    }
  }
}
