/** `DapConnection.send_request` called from several threads while a reader thread dispatches responses
    (src/dap_mux/ipython_ext.py). A step is what runs under a lock, or one operation on a thread-safe queue;
    the steps of all threads interleave freely. */
module DapClient {
  import opened Messages

  /** How far a call of send_request has come. */
  datatype Stage =
    | Sending                            // registered, holding the send lock
    | Waiting                            // for its queue
    | Leaving(result: Option<Message>)   // has its result, still registered
    | Done(result: Option<Message>)
    | Raised                             // an exception ended it before it had sent anything

  /** A call, with the queue that it made for its response. */
  datatype Call = Call(seqNo: int, queue: seq<Message>, stage: Stage)

  /** The reader thread, between looking up a queue and putting the response on it. */
  datatype Reader = Idle | Holding(call: nat, msg: Message)

  datatype Conn = Conn(
    nextSeq: int,
    responseQueues: map<int, nat>,   // request number to the call that waits for it
    calls: seq<Call>,
    reader: Reader,
    closed: bool,                    // `_sock is None`
    // history
    wire: seq<int>,                  // the numbers of the requests sent
    received: seq<Message>)          // the responses that have come in

  const FRESH := Conn(1, map[], [], Idle, false, [], [])

  datatype Action =
    | Begin
    | Sent(call: nat)
    | SendFailed(call: nat)
    | SocketGone(call: nat)   // `None` has no `sendall`: not an OSError, so that nothing is undone
    | LookUp(msg: Message)
    | Put
    | Take(call: nat)
    | TimeOut(call: nat)
    | Leave(call: nat)
    | Disconnect

  predicate At(s: Conn, t: nat, stage: Stage) {
    t < |s.calls| && s.calls[t].stage == stage
  }

  predicate CanAct(s: Conn, a: Action) {
    match a
    case Begin => forall t :: 0 <= t < |s.calls| ==> s.calls[t].stage != Sending
    case Sent(t) => At(s, t, Sending) && !s.closed
    case SendFailed(t) => At(s, t, Sending)
    case SocketGone(t) => At(s, t, Sending) && s.closed
    case LookUp(msg) => s.reader.Idle? && IsResponse(msg)
    case Put => s.reader.Holding? && s.reader.call < |s.calls|
    case Take(t) => At(s, t, Waiting) && s.calls[t].queue != []
    case TimeOut(t) => At(s, t, Waiting) && s.calls[t].queue == []
    case Leave(t) => t < |s.calls| && s.calls[t].stage.Leaving?
    case Disconnect => true
  }

  function SetStage(s: Conn, t: nat, stage: Stage): Conn
    requires t < |s.calls|
  {
    s.(calls := s.calls[t := s.calls[t].(stage := stage)])
  }

  function Unregister(s: Conn, t: nat, result: Option<Message>): Conn
    requires t < |s.calls|
  {
    SetStage(s, t, Done(result)).(responseQueues := s.responseQueues - {s.calls[t].seqNo})
  }

  /** `_dispatch_response`, up to the lookup. */
  function LookedUp(s: Conn, msg: Message): Reader {
    match KeyOf(Get(msg, RequestSeq))
    case None => Idle
    case Some(n) => if n in s.responseQueues then Holding(s.responseQueues[n], msg) else Idle
  }

  function Act(s: Conn, a: Action): Conn
    requires CanAct(s, a)
  {
    match a
    case Begin =>
      s.(nextSeq := s.nextSeq + 1,
         responseQueues := s.responseQueues[s.nextSeq := |s.calls|],
         calls := s.calls + [Call(s.nextSeq, [], Sending)])
    case Sent(t) => SetStage(s, t, Waiting).(wire := s.wire + [s.calls[t].seqNo])
    case SendFailed(t) => Unregister(s, t, None)
    case SocketGone(t) => SetStage(s, t, Raised)
    case LookUp(msg) => s.(reader := LookedUp(s, msg), received := s.received + [msg])
    case Put =>
      var t := s.reader.call;
      s.(calls := s.calls[t := s.calls[t].(queue := s.calls[t].queue + [s.reader.msg])], reader := Idle)
    case Take(t) =>
      SetStage(s.(calls := s.calls[t := s.calls[t].(queue := s.calls[t].queue[1..])]),
               t, Leaving(Some(s.calls[t].queue[0])))
    case TimeOut(t) => SetStage(s, t, Leaving(None))
    case Leave(t) => Unregister(s, t, s.calls[t].stage.result)
    case Disconnect => s.(closed := true)
  }

  // ---------------------------------------------------------------- the invariant

  predicate IsResponseTo(msg: Message, n: int) {
    IsResponse(msg) && KeyOf(Get(msg, RequestSeq)) == Some(n)
  }

  /** A response to the request with number n that has come in. */
  ghost predicate ResponseTo(s: Conn, msg: Message, n: int) {
    msg in s.received && IsResponseTo(msg, n)
  }

  ghost predicate CallOk(s: Conn, t: nat, call: Call) {
    && call.seqNo == t + 1
    && (forall i :: 0 <= i < |call.queue| ==> ResponseTo(s, call.queue[i], t + 1))
    && ResultOk(s, t, call.stage)
  }

  /** A caller is given nothing, or a response to its own request. */
  ghost predicate ResultOk(s: Conn, t: nat, stage: Stage) {
    match stage
    case Leaving(Some(m)) => ResponseTo(s, m, t + 1)
    case Done(Some(m)) => ResponseTo(s, m, t + 1)
    case _ => true
  }

  ghost predicate CallsOk(s: Conn) {
    && s.nextSeq == |s.calls| + 1
    && (forall t :: 0 <= t < |s.calls| ==> CallOk(s, t, s.calls[t]))
    && (s.reader.Holding? ==> s.reader.call < |s.calls| && ResponseTo(s, s.reader.msg, s.reader.call + 1))
  }

  predicate UnderWay(stage: Stage) {
    stage.Sending? || stage.Waiting? || stage.Leaving?
  }

  predicate Registered(stage: Stage) {
    UnderWay(stage) || stage.Raised?
  }

  /** Exactly the calls that are under way or were ended by an exception are registered, each under its number. */
  ghost predicate RegistryOk(s: Conn) {
    && (forall n :: n in s.responseQueues <==> 1 <= n <= |s.calls| && Registered(s.calls[n - 1].stage))
    && (forall n :: n in s.responseQueues ==> s.responseQueues[n] == n - 1)
  }

  predicate HasSent(stage: Stage) {
    !stage.Sending? && !stage.Raised?
  }

  /** The numbers on the wire increase and are those of calls that have sent. */
  ghost predicate WireOk(s: Conn) {
    && (forall i, j :: 0 <= i < j < |s.wire| ==> s.wire[i] < s.wire[j])
    && (forall i :: 0 <= i < |s.wire| ==> 1 <= s.wire[i] <= |s.calls| && HasSent(s.calls[s.wire[i] - 1].stage))
  }

  /** Only the latest call can be still to be sent. */
  ghost predicate LatestSends(s: Conn) {
    forall t :: 0 <= t < |s.calls| - 1 ==> !s.calls[t].stage.Sending?
  }

  ghost predicate ConnOk(s: Conn) {
    CallsOk(s) && RegistryOk(s) && WireOk(s) && LatestSends(s)
  }

  lemma ActKeepsCalls(s: Conn, a: Action)
    requires CallsOk(s) && RegistryOk(s) && CanAct(s, a)
    ensures CallsOk(Act(s, a))
  {
    var t := Act(s, a);
    assert forall m, n :: ResponseTo(s, m, n) ==> ResponseTo(t, m, n);
    forall i | 0 <= i < |t.calls| ensures CallOk(t, i, t.calls[i]) {
      if i < |s.calls| { assert CallOk(s, i, s.calls[i]); }
    }
  }

  lemma ActKeepsRegistry(s: Conn, a: Action)
    requires CallsOk(s) && RegistryOk(s) && CanAct(s, a)
    ensures RegistryOk(Act(s, a))
  {
    if a.SendFailed? || a.Leave? { assert CallOk(s, a.call, s.calls[a.call]); }
  }

  lemma ActKeepsWire(s: Conn, a: Action)
    requires CallsOk(s) && WireOk(s) && LatestSends(s) && CanAct(s, a)
    ensures WireOk(Act(s, a))
  {
    if a.Sent? { assert CallOk(s, a.call, s.calls[a.call]); }
  }

  lemma ActKeepsLatest(s: Conn, a: Action)
    requires LatestSends(s) && CanAct(s, a)
    ensures LatestSends(Act(s, a))
  {
  }

  // ---------------------------------------------------------------- runs

  function ConnAfter(actions: seq<Action>): Conn
    requires CanHappen(actions)
    decreases |actions|, 1
  {
    if actions == [] then FRESH else Act(ConnAfter(actions[..|actions| - 1]), actions[|actions| - 1])
  }

  predicate CanHappen(actions: seq<Action>)
    decreases |actions|, 0
  {
    actions == [] ||
    (CanHappen(actions[..|actions| - 1]) && CanAct(ConnAfter(actions[..|actions| - 1]), actions[|actions| - 1]))
  }

  lemma {:induction false} RunOk(actions: seq<Action>)
    requires CanHappen(actions)
    ensures ConnOk(ConnAfter(actions))
  {
    if actions != [] {
      var s := ConnAfter(actions[..|actions| - 1]);
      RunOk(actions[..|actions| - 1]);
      ActKeepsCalls(s, actions[|actions| - 1]);
      ActKeepsRegistry(s, actions[|actions| - 1]);
      ActKeepsWire(s, actions[|actions| - 1]);
      ActKeepsLatest(s, actions[|actions| - 1]);
    }
  }

  /** Call t has its own number, it has returned nothing or a response to that number that has come in, and
      every message on its queue is such a response. */
  ghost predicate OwnResponses(s: Conn, t: nat)
    requires t < |s.calls|
  {
    var call := s.calls[t];
    && call.seqNo == t + 1
    && (call.stage.Done? && call.stage.result.Some? ==> ResponseTo(s, call.stage.result.value, call.seqNo))
    && (forall i :: 0 <= i < |call.queue| ==> ResponseTo(s, call.queue[i], call.seqNo))
  }

  /** Under any interleaving a call returns nothing or a response to its own request that has come in; every
      message on its queue is such a response, however late; and the numbers on the wire strictly increase. */
  lemma CallersGetTheirOwnResponses(actions: seq<Action>, t: nat)
    requires CanHappen(actions) && t < |ConnAfter(actions).calls|
    ensures OwnResponses(ConnAfter(actions), t)
    ensures forall i, j :: 0 <= i < j < |ConnAfter(actions).wire| ==>
              ConnAfter(actions).wire[i] < ConnAfter(actions).wire[j]
  {
    RunOk(actions);
    OwnResponse(ConnAfter(actions), t);
  }

  lemma OwnResponse(s: Conn, t: nat)
    requires ConnOk(s) && t < |s.calls|
    ensures OwnResponses(s, t)
  {
    assert CallOk(s, t, s.calls[t]);
  }

  // ---------------------------------------------------------------- what stays registered

  lemma {:induction false} RaisedExactlyWhen(actions: seq<Action>, t: nat)
    requires CanHappen(actions)
    ensures At(ConnAfter(actions), t, Raised) <==> SocketGone(t) in actions
  {
    if actions != [] {
      var before, last := actions[..|actions| - 1], actions[|actions| - 1];
      RaisedExactlyWhen(before, t);
      assert actions == before + [last];
    }
  }

  /** A number is registered if and only if its call is under way, or found its socket gone at any time before. */
  lemma RegisteredExactlyWhen(actions: seq<Action>, n: int)
    requires CanHappen(actions)
    ensures var s := ConnAfter(actions);
      n in s.responseQueues <==> 1 <= n <= |s.calls| && (UnderWay(s.calls[n - 1].stage) || SocketGone(n - 1) in actions)
  {
    RunOk(actions);
    if n >= 1 { RaisedExactlyWhen(actions, n - 1); }
  }

  ghost predicate OnlyCallsUnderWay(s: Conn) {
    forall n :: n in s.responseQueues ==> 1 <= n <= |s.calls| && UnderWay(s.calls[n - 1].stage)
  }

  ghost predicate SomeSocketGone(actions: seq<Action>) {
    exists t: nat :: SocketGone(t) in actions
  }

  /** Only calls under way are registered exactly as long as no call has found its socket gone. */
  lemma OnlyCallsUnderWayExactlyWhen(actions: seq<Action>)
    requires CanHappen(actions)
    ensures OnlyCallsUnderWay(ConnAfter(actions)) <==> !SomeSocketGone(actions)
  {
    var s := ConnAfter(actions);
    RunOk(actions);
    if SomeSocketGone(actions) {
      var t: nat :| SocketGone(t) in actions;
      RaisedExactlyWhen(actions, t);
      assert t + 1 in s.responseQueues;
    } else {
      forall n | n in s.responseQueues ensures 1 <= n <= |s.calls| && UnderWay(s.calls[n - 1].stage) {
        RaisedExactlyWhen(actions, n - 1);
      }
    }
  }

  /** The shortest run to such a number: the session is terminated between registering and sending. */
  lemma ANumberLeftRegistered(actions: seq<Action>)
    requires actions == [Begin, Disconnect, SocketGone(0)]
    ensures CanHappen(actions) && 1 in ConnAfter(actions).responseQueues
    ensures !OnlyCallsUnderWay(ConnAfter(actions))
  {
    assert actions[..2] == [Begin, Disconnect] && actions[..2][..1] == [Begin] && actions[..2][..1][..0] == [];
    assert CanHappen([]) && CanHappen([Begin]) && CanHappen([Begin, Disconnect]);
    OnlyCallsUnderWayExactlyWhen(actions);
    RegisteredExactlyWhen(actions, 1);
  }

  // ---------------------------------------------------------------- the object

  /** A queue.Queue. */
  class ResponseQueue {
    var items: seq<Message>

    constructor ()
      ensures items == []
    {
      items := [];
    }
  }

  /** The fields that the threads share. The ghost fields hold the state of the threads themselves, and the
      queues of all calls ever made; each method is one section of `send_request` or `_dispatch_response`. */
  class DapConnection {
    var nextSeq: int
    var responseQueues: map<int, ResponseQueue>
    var connected: bool
    ghost var model: Conn
    ghost var queues: seq<ResponseQueue>

    ghost predicate Valid()
      reads this, queues
    {
      && nextSeq == model.nextSeq && connected == !model.closed
      && |queues| == |model.calls|
      && (forall t, u :: 0 <= t < u < |queues| ==> queues[t] != queues[u])
      && (forall t :: 0 <= t < |queues| ==> queues[t].items == model.calls[t].queue)
      && (forall n :: n in responseQueues <==> n in model.responseQueues)
      && (forall n :: n in responseQueues ==>
            model.responseQueues[n] < |queues| && responseQueues[n] == queues[model.responseQueues[n]])
    }

    constructor ()
      ensures Valid() && model == FRESH
    {
      nextSeq, responseQueues, connected := 1, map[], true;
      model, queues := FRESH, [];
    }

    /** Under both locks: take a number and register a new queue for it. */
    method Register() returns (seqNo: int, q: ResponseQueue)
      requires Valid() && CanAct(model, Begin)
      modifies this
      ensures Valid() && model == Act(old(model), Begin)
      ensures seqNo == old(nextSeq) && fresh(q) && queues == old(queues) + [q] && q.items == []
      ensures nextSeq == seqNo + 1 && responseQueues == old(responseQueues)[seqNo := q]
    {
      q := new ResponseQueue();
      seqNo := nextSeq;
      nextSeq := nextSeq + 1;
      responseQueues := responseQueues[seqNo := q];
      model, queues := Act(model, Begin), queues + [q];
    }

    /** Use the socket to send the request of call t, when that works; raised is an AttributeError. */
    method Transmit(ghost t: nat) returns (raised: bool)
      requires Valid() && At(model, t, Sending)
      modifies this`model
      ensures Valid() && raised == !connected
      ensures model == Act(old(model), if raised then SocketGone(t) else Sent(t))
    {
      raised := !connected;
      model := Act(model, if raised then SocketGone(t) else Sent(t));
    }

    /** `disconnect`, also from the reader thread on a terminated event. */
    method Close()
      requires Valid()
      modifies this`connected, this`model
      ensures Valid() && !connected && model == Act(old(model), Disconnect)
    {
      connected := false;
      model := Act(model, Disconnect);
    }

    /** Under the queue lock: forget the number of a call whose sending failed, or that has its result. */
    method Forget(seqNo: int, ghost a: Action)
      requires Valid() && CanAct(model, a) && (a.SendFailed? || a.Leave?) && model.calls[a.call].seqNo == seqNo
      modifies this`responseQueues, this`model
      ensures Valid() && model == Act(old(model), a) && responseQueues == old(responseQueues) - {seqNo}
    {
      responseQueues := responseQueues - {seqNo};
      model := Act(model, a);
    }

    /** `_dispatch_response`: look the queue up under the lock. */
    method Find(msg: Message) returns (q: Option<ResponseQueue>)
      requires Valid() && CanAct(model, LookUp(msg))
      modifies this`model
      ensures Valid() && model == Act(old(model), LookUp(msg))
      ensures forall n: int :: RequestSeq in msg && msg[RequestSeq] == Number(n) ==>
                q == if n in responseQueues then Some(responseQueues[n]) else None
      ensures model.reader.Idle? ==> q == None
      ensures model.reader.Holding? ==>
        model.reader.call < |queues| && q == Some(queues[model.reader.call]) && model.reader.msg == msg
    {
      var n := KeyOf(Get(msg, RequestSeq));
      q := if n.Some? && n.value in responseQueues then Some(responseQueues[n.value]) else None;
      model := Act(model, LookUp(msg));
    }

    /** `_dispatch_response`: put the response on the queue found, outside the lock. */
    method Deliver(q: ResponseQueue, msg: Message)
      requires Valid() && CanAct(model, Put) && q == queues[model.reader.call] && msg == model.reader.msg
      modifies q, this`model
      ensures Valid() && model == Act(old(model), Put) && q.items == old(q.items) + [msg]
    {
      q.items := q.items + [msg];
      model := Act(model, Put);
    }

    /** `q.get(timeout=...)` in call t; None is a queue.Empty after the time is up. */
    method Await(q: ResponseQueue, ghost t: nat) returns (r: Option<Message>)
      requires Valid() && At(model, t, Waiting) && q == queues[t]
      modifies q, this`model
      ensures Valid() && r.None? == (old(q.items) == [])
      ensures r.Some? ==> [r.value] + q.items == old(q.items)
      ensures r.None? ==> q.items == []
      ensures model == Act(old(model), if r.Some? then Take(t) else TimeOut(t))
      ensures model.calls[t].stage == Leaving(r)
    {
      if q.items == [] {
        r := None;
        model := Act(model, TimeOut(t));
      } else {
        r := Some(q.items[0]);
        q.items := q.items[1..];
        model := Act(model, Take(t));
      }
    }
  }
}
