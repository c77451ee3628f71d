/** A `DapConnection` as one of the multiplexer's clients: what a call returns is the answer to its own request. */
module EndToEnd {
  import opened Messages
  import opened MuxModel
  import opened MuxInvariant
  import opened MuxProtocol
  import opened ClientQueue
  import opened Framing
  import opened Chunks
  import Cuts
  import Readers
  import MuxTheorems
  import Dap = DapClient

  /** What client c has sent so far is what the connection has put on the wire so far, or the start of it. */
  ghost predicate IsClient(s: State, c: ClientId, conn: Dap.Conn) {
    && |RequestsOf(s.requests, c)| <= |conn.wire|
    && forall i :: 0 <= i < |RequestsOf(s.requests, c)| ==>
         Get(s.requests[RequestsOf(s.requests, c)[i]].msg, Seq) == Number(conn.wire[i])
  }

  /** The positions of a client's requests, oldest first. */
  function RequestsOf(requests: seq<Request>, c: ClientId): (rs: seq<nat>)
    ensures forall i :: 0 <= i < |rs| ==> rs[i] < |requests| && requests[rs[i]].client == c
  {
    if requests == [] then []
    else
      var n := |requests| - 1;
      RequestsOf(requests[..n], c) + if requests[n].client == c then [n] else []
  }

  lemma {:induction false} Listed(requests: seq<Request>, c: ClientId, r: nat)
    requires r < |requests| && requests[r].client == c
    ensures r in RequestsOf(requests, c)
  {
    if r < |requests| - 1 { Listed(requests[..|requests| - 1], c, r); }
  }

  /** The reader, once it looks the answer up, finds the queue of call t, and puts the answer behind what is on it. */
  ghost predicate IsGiven(conn: Dap.Conn, t: nat, answer: Message)
    requires t < |conn.calls|
  {
    && Dap.CanAct(conn, Dap.LookUp(answer))
    && var found := Dap.Act(conn, Dap.LookUp(answer));
    && Dap.CanAct(found, Dap.Put) && t < |Dap.Act(found, Dap.Put).calls|
    && Dap.Act(found, Dap.Put).calls[t].queue == conn.calls[t].queue + [answer]
  }

  /** t is the only call that sent the request, and the answer goes to it, or nowhere if it has given up. */
  ghost predicate Reaches(conn: Dap.Conn, t: nat, answer: Message, request: Message) {
    && t < |conn.calls|
    && Get(request, Seq) == Number(conn.calls[t].seqNo)
    && (forall u :: 0 <= u < |conn.calls| && u != t ==> conn.calls[u].seqNo != conn.calls[t].seqNo)
    && Dap.LookedUp(conn, answer) == (if conn.calls[t].stage.Done? then Dap.Idle else Dap.Holding(t, answer))
    && (!conn.calls[t].stage.Done? && conn.reader.Idle? ==> IsGiven(conn, t, answer))
  }

  /** Whoever answers the j-th request on the wire reaches its call. */
  lemma WireReaches(conn: Dap.Conn, j: nat, answer: Message, request: Message)
    requires Dap.ConnOk(conn) && j < |conn.wire| && Get(request, Seq) == Number(conn.wire[j])
    requires Get(answer, RequestSeq) == Get(request, Seq) && IsResponse(answer)
    ensures Reaches(conn, conn.wire[j] - 1, answer, request)
  {
    var t := conn.wire[j] - 1;
    assert Dap.CallOk(conn, t, conn.calls[t]);
    forall u | 0 <= u < |conn.calls| && u != t ensures conn.calls[u].seqNo != conn.calls[t].seqNo {
      assert Dap.CallOk(conn, u, conn.calls[u]);
    }
  }

  lemma OnTheWire(s: State, c: ClientId, conn: Dap.Conn, r: nat) returns (j: nat)
    requires IsClient(s, c, conn) && r < |s.requests| && s.requests[r].client == c
    ensures j < |conn.wire| && Get(s.requests[r].msg, Seq) == Number(conn.wire[j])
  {
    Listed(s.requests, c, r);
    j :| 0 <= j < |RequestsOf(s.requests, c)| && RequestsOf(s.requests, c)[j] == r;
  }

  lemma AnswerIsRouted(s: State, c: ClientId, i: nat)
    requires Reachable(s)
    requires i < |QueueOf(s, c)| && QueueOf(s, c)[i].origin.Answer?
    ensures var d := QueueOf(s, c)[i];
      d.origin.req < |s.requests| && s.requests[d.origin.req].client == c
      && Get(d.msg, RequestSeq) == Get(s.requests[d.origin.req].msg, Seq) && IsResponse(d.msg)
  {
    MuxTheorems.AnswersAreRouted(s, c, i);
  }

  lemma AnswerReaches(s: State, c: ClientId, actions: seq<Dap.Action>, r: nat, answer: Message)
    requires Dap.CanHappen(actions) && IsClient(s, c, Dap.ConnAfter(actions))
    requires r < |s.requests| && s.requests[r].client == c
    requires Get(answer, RequestSeq) == Get(s.requests[r].msg, Seq) && IsResponse(answer)
    ensures exists t :: Reaches(Dap.ConnAfter(actions), t, answer, s.requests[r].msg)
  {
    Dap.RunOk(actions);
    var j := OnTheWire(s, c, Dap.ConnAfter(actions), r);
    WireReaches(Dap.ConnAfter(actions), j, answer, s.requests[r].msg);
  }

  /** When a response that the multiplexer routed to the connection is looked up there, it is for the one call
      that sent the request which the adapter answered. If that call is not done the reader puts the response on
      its queue, behind what is there, and otherwise the response is dropped. A reader that has stopped looks up
      nothing more. */
  lemma AnswersReachTheirCall(s: State, c: ClientId, i: nat, actions: seq<Dap.Action>)
    requires Reachable(s) && Dap.CanHappen(actions)
    requires IsClient(s, c, Dap.ConnAfter(actions))
    requires i < |QueueOf(s, c)| && QueueOf(s, c)[i].origin.Answer?
    ensures var conn := Dap.ConnAfter(actions);
      var d := QueueOf(s, c)[i];
      d.origin.req < |s.requests| && exists t :: Reaches(conn, t, d.msg, s.requests[d.origin.req].msg)
  {
    AnswerIsRouted(s, c, i);
    var d := QueueOf(s, c)[i];
    AnswerReaches(s, c, actions, d.origin.req, d.msg);
  }

  /** And two requests of the connection never share a number, so the call is the one that made the request. */
  lemma RequestsAreTheirOwn(s: State, c: ClientId, r: nat, r': nat, actions: seq<Dap.Action>)
    requires Reachable(s) && Dap.CanHappen(actions)
    requires IsClient(s, c, Dap.ConnAfter(actions))
    requires r < |s.requests| && r' < |s.requests| && r != r'
    requires s.requests[r].client == c == s.requests[r'].client
    ensures Get(s.requests[r].msg, Seq) != Get(s.requests[r'].msg, Seq)
  {
    var conn := Dap.ConnAfter(actions);
    Dap.RunOk(actions);
    var rs := RequestsOf(s.requests, c);
    Listed(s.requests, c, r);
    Listed(s.requests, c, r');
    var j, j' :| 0 <= j < |rs| && rs[j] == r && 0 <= j' < |rs| && rs[j'] == r';
    assert j != j';
  }

  // ---------------------------------------------------------------- what a call returns

  function Responses(ms: seq<Message>): seq<Message> {
    if ms == [] then []
    else Responses(ms[..|ms| - 1]) + if IsResponse(ms[|ms| - 1]) then [ms[|ms| - 1]] else []
  }

  /** The connection is client c of the multiplexer: the bytes that its reader has got, in whatever chunks, are
      the start of those that the multiplexer queued for it, and the responses looked up are among those found. */
  ghost predicate Connected(s: State, c: ClientId, conn: Dap.Conn, codec: Codec, chunks: seq<Bytes>) {
    && IsClient(s, c, conn)
    && Concat(chunks) <= EncodeAll(codec, MessagesOf(QueueOf(s, c)))
    && conn.received <= Responses(FeedAll(codec, chunks).found)
  }

  lemma {:induction false} ResponsesAreMessages(ms: seq<Message>, m: Message)
    requires m in Responses(ms)
    ensures m in ms
  {
    if m in Responses(ms[..|ms| - 1]) { ResponsesAreMessages(ms[..|ms| - 1], m); }
  }

  /** On the first bytes of a list of encoded messages the reader finds the first of them. */
  lemma FoundAreFirst(codec: Codec, ms: seq<Message>, chunks: seq<Bytes>)
    requires Lawful(codec) && Concat(chunks) <= EncodeAll(codec, ms)
    ensures FeedAll(codec, chunks).found <= ms
  {
    var stream := EncodeAll(codec, ms);
    Readers.EncodedScan(codec, ms);
    assert stream == Concat(chunks) + stream[|Concat(chunks)|..];
    Cuts.ScanSplits(codec, Concat(chunks), stream[|Concat(chunks)|..]);
    Cuts.ReadsAsOne(codec, chunks);
    Cuts.ConcatPrefix(chunks, Cuts.ChunksRead(codec, chunks));
    var n := |Cuts.BytesRead(codec, chunks)|;
    assert stream[..n] == Cuts.BytesRead(codec, chunks);
    Readers.FoundOf(codec, stream, n);
  }

  lemma ReceivedIsQueued(s: State, c: ClientId, conn: Dap.Conn, codec: Codec, chunks: seq<Bytes>, m: Message)
      returns (i: nat)
    requires Lawful(codec) && Connected(s, c, conn, codec, chunks) && m in conn.received
    ensures i < |QueueOf(s, c)| && QueueOf(s, c)[i].msg == m
  {
    var found := FeedAll(codec, chunks).found;
    FoundAreFirst(codec, MessagesOf(QueueOf(s, c)), chunks);
    assert m in Responses(found);
    ResponsesAreMessages(found, m);
    i :| 0 <= i < |found| && found[i] == m;
  }

  lemma {:induction false} CurrentIsEvent(log: seq<Message>, m: Message)
    requires MuxTheorems.IsCurrent(m, log)
    ensures IsEvent(m)
  {
    var last := log[|log| - 1];
    if m != last || !IsBroadcast(last) { CurrentIsEvent(log[..|log| - 1], m); }
  }

  /** A response in a client's queue answers a request of this client, under the client's own number. */
  lemma ResponseIsAnswer(s: State, c: ClientId, i: nat)
    requires Reachable(s) && i < |QueueOf(s, c)| && IsResponse(QueueOf(s, c)[i].msg)
    ensures var d := QueueOf(s, c)[i];
      && (d.origin.Answer? || d.origin.Greeting? || d.origin.Synthetic?) && Sent(s, c, d.origin.req)
      && Get(d.msg, RequestSeq) == Get(s.requests[d.origin.req].msg, Seq)
  {
    var d := QueueOf(s, c)[i];
    MuxTheorems.DeliveriesAreExplained(s, c, i);
    match d.origin
    case Answer(_, _) => MuxTheorems.AnswersAreRouted(s, c, i);
    case Replay(k) => CurrentIsEvent(s.adapter[..k], d.msg);
    case _ =>
  }

  /** sent is the adapter's first response to request r since it was forwarded, made out to the client. */
  ghost predicate IsFirstResponse(s: State, r: nat, sent: Message, i: nat, k: nat) {
    && i < |s.upstream| && s.upstream[i].req == r && r < |s.requests|
    && FirstResponse(s.adapter, i + 1, s.upstream[i].at, k)
    && MuxTheorems.SentAs(s.adapter[k], sent, Get(s.requests[r].msg, Seq))
  }

  ghost predicate AnsweredBy(s: State, r: nat, sent: Message) {
    || (exists i: nat, k: nat :: IsFirstResponse(s, r, sent, i, k))
    || (r < |s.requests| && MuxTheorems.HasOutcome(s, r, MuxTheorems.ByMultiplexer)
        && (sent == GreetingReply(s.requests[r].msg, s.capabilities) || sent == SyntheticReply(s.requests[r].msg)))
  }

  lemma AnswerIsFirstResponse(s: State, c: ClientId, i: nat)
    requires Reachable(s) && i < |QueueOf(s, c)| && QueueOf(s, c)[i].origin.Answer?
    ensures AnsweredBy(s, QueueOf(s, c)[i].origin.req, QueueOf(s, c)[i].msg)
  {
    var d := QueueOf(s, c)[i];
    MuxTheorems.AnswersAreRouted(s, c, i);
    ReachableInv(s);
    ReachableProtocol(s);
    assert AnswerOk(s, c, i, d.origin);
    var n := KeyOf(Get(s.adapter[d.origin.k], RequestSeq)).value;
    assert ResponseOk(s, n, s.upstream[n - 1], |s.adapter|);
    assert IsFirstResponse(s, d.origin.req, d.msg, n - 1, d.origin.k);
  }

  lemma LocalAnswerIsOutcome(s: State, c: ClientId, i: nat)
    requires Reachable(s) && i < |QueueOf(s, c)|
    requires QueueOf(s, c)[i].origin.Greeting? || QueueOf(s, c)[i].origin.Synthetic?
    ensures AnsweredBy(s, QueueOf(s, c)[i].origin.req, QueueOf(s, c)[i].msg)
  {
    var d := QueueOf(s, c)[i];
    MuxTheorems.DeliveriesAreExplained(s, c, i);
    assert IsLocalAnswer(d.origin, d.origin.req);
  }

  /** The call's request, as it came to the multiplexer. */
  ghost predicate SentBy(s: State, c: ClientId, r: nat, t: nat) {
    r < |s.requests| && s.requests[r].client == c && Get(s.requests[r].msg, Seq) == Number(t + 1)
  }

  /** A call that returns a response returns the answer to the request that it sent: the first response that the
      adapter gave to it, or the multiplexer's own. */
  lemma CallsReturnTheirAnswer(
    s: State, c: ClientId, actions: seq<Dap.Action>, codec: Codec, chunks: seq<Bytes>, t: nat, m: Message)
    requires Reachable(s) && Dap.CanHappen(actions) && Lawful(codec)
    requires Connected(s, c, Dap.ConnAfter(actions), codec, chunks)
    requires Dap.At(Dap.ConnAfter(actions), t, Dap.Done(Some(m)))
    ensures exists r: nat :: SentBy(s, c, r, t) && AnsweredBy(s, r, m)
  {
    Dap.CallersGetTheirOwnResponses(actions, t);
    var i := ReceivedIsQueued(s, c, Dap.ConnAfter(actions), codec, chunks, m);
    ResponseIsAnswer(s, c, i);
    var r := QueueOf(s, c)[i].origin.req;
    var j := OnTheWire(s, c, Dap.ConnAfter(actions), r);
    if QueueOf(s, c)[i].origin.Answer? { AnswerIsFirstResponse(s, c, i); } else { LocalAnswerIsOutcome(s, c, i); }
    assert SentBy(s, c, r, t);
  }

  /** There is one such response at most. */
  lemma OneAnswerPerCall(s: State, c: ClientId, actions: seq<Dap.Action>, i: nat, i': nat, n: int)
    requires Reachable(s) && Dap.CanHappen(actions) && IsClient(s, c, Dap.ConnAfter(actions))
    requires i < |QueueOf(s, c)| && Dap.IsResponseTo(QueueOf(s, c)[i].msg, n)
    requires i' < |QueueOf(s, c)| && Dap.IsResponseTo(QueueOf(s, c)[i'].msg, n)
    ensures i == i'
  {
    ResponseIsAnswer(s, c, i);
    ResponseIsAnswer(s, c, i');
    var r, r' := QueueOf(s, c)[i].origin.req, QueueOf(s, c)[i'].origin.req;
    var j := OnTheWire(s, c, Dap.ConnAfter(actions), r);
    var j' := OnTheWire(s, c, Dap.ConnAfter(actions), r');
    if r != r' { RequestsAreTheirOwn(s, c, r, r', actions); }
    MuxTheorems.AnsweredOnce(s, c, i, c, i', r);
  }
}
