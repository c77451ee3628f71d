/** What becomes of the responses that the reader thread finds a queue for: none is lost while its call waits. */
module Deliveries {
  import opened Messages
  import opened DapClient

  // ---------------------------------------------------------------- what was delivered

  /** The messages put for call t: those that the reader held for it whenever it put one, in that order. */
  function Delivered(actions: seq<Action>, t: nat): seq<Message>
    requires CanHappen(actions)
  {
    if actions == [] then []
    else
      var before, last := actions[..|actions| - 1], actions[|actions| - 1];
      Delivered(before, t) + DeliveredBy(ConnAfter(before), last, t)
  }

  function DeliveredBy(s: Conn, a: Action, t: nat): seq<Message> {
    if a.Put? && s.reader.Holding? && s.reader.call == t then [s.reader.msg] else []
  }

  /** What a call has taken from its queue. */
  function Taken(stage: Stage): seq<Message> {
    match stage
    case Leaving(Some(m)) => [m]
    case Done(Some(m)) => [m]
    case _ => []
  }

  function QueueAt(s: Conn, t: nat): seq<Message> {
    if t < |s.calls| then Taken(s.calls[t].stage) + s.calls[t].queue else []
  }

  /** Only a put changes what a call has taken and what is still on its queue. */
  lemma ActDelivers(s: Conn, a: Action, t: nat)
    requires CanAct(s, a) && CallsOk(s)
    ensures QueueAt(Act(s, a), t) == QueueAt(s, t) + DeliveredBy(s, a, t)
  {
    if t < |s.calls| {
      StepDelivers(s, a, t);
    }
  }

  lemma StepDelivers(s: Conn, a: Action, t: nat)
    requires CanAct(s, a) && t < |s.calls|
    ensures QueueAt(Act(s, a), t) == QueueAt(s, t) + DeliveredBy(s, a, t)
  {
    var call := s.calls[t];
    if a == Take(t) { assert call.queue == [call.queue[0]] + call.queue[1..]; }
  }

  /** Every message delivered to a call is on its queue or was taken from it, in the order of delivery. */
  lemma {:induction false} NothingDeliveredIsLost(actions: seq<Action>, t: nat)
    requires CanHappen(actions)
    ensures Delivered(actions, t) == QueueAt(ConnAfter(actions), t)
  {
    if actions != [] {
      var before := actions[..|actions| - 1];
      NothingDeliveredIsLost(before, t);
      RunOk(before);
      ActDelivers(ConnAfter(before), actions[|actions| - 1], t);
    }
  }

  /** A waiting call can take its response exactly if one has been delivered, can time out exactly if none has, and
      then takes the one that was delivered first. */
  lemma WaitingCallsAreServed(actions: seq<Action>, t: nat)
    requires CanHappen(actions) && At(ConnAfter(actions), t, Waiting)
    ensures var s, delivered := ConnAfter(actions), Delivered(actions, t);
      && (CanAct(s, Take(t)) <==> delivered != []) && (CanAct(s, TimeOut(t)) <==> delivered == [])
      && (delivered != [] ==> At(Act(s, Take(t)), t, Leaving(Some(delivered[0]))))
  {
    NothingDeliveredIsLost(actions, t);
  }

  /** What a call returns is the first message delivered to it. */
  lemma ResultsAreDelivered(actions: seq<Action>, t: nat, m: Message)
    requires CanHappen(actions)
    requires At(ConnAfter(actions), t, Leaving(Some(m))) || At(ConnAfter(actions), t, Done(Some(m)))
    ensures Delivered(actions, t) != [] && Delivered(actions, t)[0] == m
  {
    NothingDeliveredIsLost(actions, t);
  }

  /** A response that bears the number of a registered call is found for that call and no other. */
  lemma LookUpFindsTheCall(s: Conn, msg: Message, t: nat)
    requires ConnOk(s) && t < |s.calls| && Registered(s.calls[t].stage)
    requires RequestSeq in msg && msg[RequestSeq] == Number(t + 1) && CanAct(s, LookUp(msg))
    ensures Act(s, LookUp(msg)).reader == Holding(t, msg)
  {
    assert t + 1 in s.responseQueues;
  }

  // ---------------------------------------------------------------- the histories

  function SentBy(a: Action): seq<int> {
    if a.Sent? then [a.call + 1] else []
  }

  /** The numbers of the requests sent, in the order in which they were. */
  function SentNumbers(actions: seq<Action>): seq<int> {
    if actions == [] then [] else SentNumbers(actions[..|actions| - 1]) + SentBy(actions[|actions| - 1])
  }

  /** The responses looked up. */
  function LookedUpIn(actions: seq<Action>): seq<Message> {
    if actions == [] then []
    else
      var a := actions[|actions| - 1];
      LookedUpIn(actions[..|actions| - 1]) + if a.LookUp? then [a.msg] else []
  }

  function Begun(actions: seq<Action>): nat {
    if actions == [] then 0 else Begun(actions[..|actions| - 1]) + if actions[|actions| - 1].Begin? then 1 else 0
  }

  /** The wire has the numbers of the requests sent, the reader has what was looked up, and every call has begun. */
  lemma {:induction false} HistoriesAreOfActions(actions: seq<Action>)
    requires CanHappen(actions)
    ensures var s := ConnAfter(actions);
      s.wire == SentNumbers(actions) && s.received == LookedUpIn(actions) && |s.calls| == Begun(actions)
  {
    if actions != [] {
      var before := actions[..|actions| - 1];
      HistoriesAreOfActions(before);
      RunOk(before);
      ActExtends(ConnAfter(before), actions[|actions| - 1]);
    }
  }

  lemma ActExtends(s: Conn, a: Action)
    requires CanAct(s, a) && CallsOk(s)
    ensures var t := Act(s, a);
      && t.wire == s.wire + SentBy(a) && t.received == s.received + (if a.LookUp? then [a.msg] else [])
      && |t.calls| == |s.calls| + if a.Begin? then 1 else 0
  {
    if a.Sent? { assert CallOk(s, a.call, s.calls[a.call]); }
  }

  // ---------------------------------------------------------------- a response in time

  lemma AndThen(actions: seq<Action>, a: Action)
    requires CanHappen(actions) && CanAct(ConnAfter(actions), a)
    ensures CanHappen(actions + [a]) && ConnAfter(actions + [a]) == Act(ConnAfter(actions), a)
  {
    assert (actions + [a])[..|actions|] == actions;
  }

  /** A single call whose response comes in while it waits returns that response. */
  lemma AResponseInTime(m: Message) returns (actions: seq<Action>)
    requires Text(m, Type) == "response" && RequestSeq in m && m[RequestSeq] == Number(1)
    ensures actions == [Begin, Sent(0), LookUp(m), Put, Take(0), Leave(0)]
    ensures CanHappen(actions) && At(ConnAfter(actions), 0, Done(Some(m)))
  {
    actions := [];
    AndThen(actions, Begin);
    actions := actions + [Begin];
    AndThen(actions, Sent(0));
    actions := actions + [Sent(0)];
    AndThen(actions, LookUp(m));
    actions := actions + [LookUp(m)];
    AndThen(actions, Put);
    actions := actions + [Put];
    AndThen(actions, Take(0));
    actions := actions + [Take(0)];
    AndThen(actions, Leave(0));
    actions := actions + [Leave(0)];
  }
}
