/** Where the adapter's reverse requests go, in terms of what the clients have sent. */
module ReverseRequests {
  import opened Messages
  import opened MuxModel
  import opened MuxInvariant
  import opened MuxProtocol

  /** Connected, and has sent an initialize. */
  ghost predicate HasInitialized(s: State, c: ClientId) {
    c in s.clients && LatestArguments(s.requests, c).Some?
  }

  ghost predicate HasOptedIn(s: State, c: ClientId) {
    HasInitialized(s, c) && OptsIn(LatestArguments(s.requests, c).value)
  }

  /** c initialized no later than any client that satisfies `eligible`. */
  ghost predicate Earliest(s: State, c: ClientId, eligible: ClientId -> bool) {
    && eligible(c)
    && forall x: ClientId :: eligible(x) ==> FirstInitialize(s.requests, c) <= FirstInitialize(s.requests, x)
  }

  ghost predicate IsTarget(s: State, msg: Message, c: ClientId) {
    if IsRunInTerminal(msg) && exists x: ClientId :: HasOptedIn(s, x)
    then Earliest(s, c, (x: ClientId) => HasOptedIn(s, x))
    else Earliest(s, c, (x: ClientId) => HasInitialized(s, x))
  }

  lemma RegisteredClients(s: State, c: ClientId)
    requires Inv(s) && RegistrationOk(s)
    ensures HasInitialized(s, c) <==> c in s.initOrder
    ensures HasOptedIn(s, c) <==> c in s.initOrder && OptedIn(s.initArgs, c)
  {
  }

  /** Of the clients in registration order, those at or after position i initialized no earlier than i's. */
  lemma LaterInOrder(s: State, i: nat, x: ClientId)
    requires RegistrationOk(s) && i < |s.initOrder| && x in s.initOrder[i..]
    ensures FirstInitialize(s.requests, s.initOrder[i]) <= FirstInitialize(s.requests, x)
  {
    var j :| 0 <= j < |s.initOrder[i..]| && s.initOrder[i..][j] == x;
    assert s.initOrder[i + j] == x;
  }

  lemma PickedIsTarget(s: State, msg: Message)
    requires Inv(s) && RegistrationOk(s) && s.initOrder != []
    ensures var target := PickReverseRequestTarget(s.initOrder, s.initArgs, msg);
      target.Some? && target.value in s.initOrder && IsTarget(s, msg, target.value)
  {
    var i := FirstOptedIn(s.initOrder, s.initArgs, 0);
    forall x ensures HasInitialized(s, x) <==> x in s.initOrder
             ensures HasOptedIn(s, x) <==> x in s.initOrder && OptedIn(s.initArgs, x)
    {
      RegisteredClients(s, x);
    }
    if IsRunInTerminal(msg) && i < |s.initOrder| {
      assert HasOptedIn(s, s.initOrder[i]);
      forall x | HasOptedIn(s, x)
        ensures FirstInitialize(s.requests, s.initOrder[i]) <= FirstInitialize(s.requests, x)
      {
        var j :| 0 <= j < |s.initOrder| && s.initOrder[j] == x;
        assert s.initOrder[i..][j - i] == x;
        LaterInOrder(s, i, x);
      }
    } else {
      assert s.initOrder[0..] == s.initOrder;
      forall x | HasInitialized(s, x)
        ensures FirstInitialize(s.requests, s.initOrder[0]) <= FirstInitialize(s.requests, x)
      {
        LaterInOrder(s, 0, x);
      }
    }
  }

  /** A known reverse request goes to exactly one connected client if any has initialized, and to none
      otherwise: for runInTerminal to the earliest that opted in, else to the earliest. */
  lemma ReverseRequestsAreTargeted(s: State, msg: Message)
    requires Reachable(s) && IsKnownReverseRequest(msg)
    ensures var t := AdapterMessage(s, msg);
      && ((forall c :: !HasInitialized(s, c)) ==> t.queues == s.queues)
      && ((exists c :: HasInitialized(s, c)) ==>
            exists c :: IsTarget(s, msg, c) && c in s.clients
              && t.queues == s.queues[c := QueueOf(s, c) + [Delivery(msg, Reverse(|s.adapter|))]])
  {
    ReachableInv(s);
    ReachableProtocol(s);
    assert AdapterMessage(s, msg)
           == RouteReverseRequest(s.(adapter := s.adapter + [msg]), msg, |s.adapter|);
    if s.initOrder == [] {
      forall c ensures !HasInitialized(s, c) { RegisteredClients(s, c); }
    } else {
      PickedIsTarget(s, msg);
      RegisteredClients(s, s.initOrder[0]);
    }
  }
}
