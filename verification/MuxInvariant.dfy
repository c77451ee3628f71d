/** What every reachable state of the multiplexer satisfies: the maps name only connected clients,
    and every request has exactly one fate, which the queues, the pending map and the buffer agree on. */
module MuxInvariant {
  import opened Messages
  import opened MuxModel

  ghost predicate Shape(s: State) {
    && s.nextSeq == |s.upstream| + 1
    && |s.fates| == |s.requests|
    && Ascending(s.clients)
    && (forall c :: c in s.clients ==> c < s.nextClient)
    && (forall c: ClientId :: c in s.queues <==> c < s.nextClient)
    && (forall c: ClientId :: c in s.joined <==> c < s.nextClient)
    && (forall c: ClientId :: c in s.left <==> c < s.nextClient && c !in s.clients)
    && (forall r :: 0 <= r < |s.requests| ==> s.requests[r].client < s.nextClient)
    && (s.phase.Rank() < 2 ==> s.capabilities.Null?)
  }

  ghost predicate Registered(s: State) {
    && (forall c :: c in s.initOrder <==> c in s.initArgs)
    && (forall c :: c in s.initOrder ==> c in s.clients)
  }

  ghost predicate UpstreamOk(s: State) {
    && (forall i :: 0 <= i < |s.upstream| ==> ForwardedOk(s, i, s.upstream[i]))
    && (forall i, j :: 0 <= i < j < |s.upstream| ==> s.upstream[i].req < s.upstream[j].req)
  }

  /** The i-th upstream message is a request of some client, renumbered i + 1. */
  ghost predicate ForwardedOk(s: State, i: nat, f: Forwarded) {
    var r := f.req;
    && r < |s.requests| && r < |s.fates|
    && f.msg == s.requests[r].msg[Seq := Number(i + 1)]
    && (s.fates[r] == Upstream(i + 1) || s.fates[r].AnsweredByAdapter? || s.fates[r].Discarded?)
  }

  ghost predicate PendingOk(s: State) {
    forall n :: n in s.pending ==>
      && 1 <= n <= |s.upstream|
      && ReqOf(s, n) < |s.requests| && ReqOf(s, n) < |s.fates|
      && s.fates[ReqOf(s, n)] == Upstream(n)
      && s.pending[n] == Pending(s.requests[ReqOf(s, n)].client, Get(s.requests[ReqOf(s, n)].msg, Seq))
  }

  /** `loose` is a request being handled, which is not in the buffer; |s.requests| if there is none. */
  ghost predicate BufferOk(s: State, loose: nat) {
    && (forall i :: 0 <= i < |s.buffered| ==> BufferedOk(s, s.buffered[i]) && s.buffered[i].req != loose)
    && (forall i, j :: 0 <= i < j < |s.buffered| ==> s.buffered[i].req < s.buffered[j].req)
  }

  ghost predicate BufferedOk(s: State, b: Buffered) {
    && b.req < |s.requests| && b.req < |s.fates|
    && s.requests[b.req] == Request(b.client, b.msg)
    && KindOf(b.msg) == Initialize
    && (s.fates[b.req].Waiting? || s.fates[b.req].Discarded?)
  }

  ghost predicate InBuffer(s: State, r: nat) {
    exists i :: 0 <= i < |s.buffered| && s.buffered[i].req == r
  }

  ghost predicate FatesOk(s: State, loose: nat) {
    forall r :: 0 <= r < |s.fates| && r < |s.requests| ==> FateOk(s, loose, r, s.fates[r])
  }

  ghost predicate FateOk(s: State, loose: nat, r: nat, f: Fate)
    requires r < |s.requests|
  {
    var c := s.requests[r].client;
    match f
    case Waiting => c in s.clients && (r == loose || InBuffer(s, r))
    case Upstream(n) => c in s.clients && (r == loose || (n in s.pending && ReqOf(s, n) == r))
    case AnsweredLocally(at) =>
      at < |QueueOf(s, c)| && IsLocalAnswer(QueueOf(s, c)[at].origin, r)
    case AnsweredByAdapter(at, k) => at < |QueueOf(s, c)| && QueueOf(s, c)[at].origin == Answer(r, k)
    case Discarded => c !in s.clients
  }

  predicate IsLocalAnswer(o: Origin, r: nat) {
    (o.Greeting? && o.req == r) || o == Synthetic(r)
  }

  /** Every answer in a queue is the one its request's fate points at. */
  ghost predicate AnswersOk(s: State) {
    forall c, i :: c in s.queues && 0 <= i < |s.queues[c]| ==> AnswerOk(s, c, i, s.queues[c][i].origin)
  }

  ghost predicate AnswerOk(s: State, c: ClientId, i: nat, o: Origin) {
    match o
    case Answer(r, k) => Sent(s, c, r) && s.fates[r] == AnsweredByAdapter(i, k)
    case Greeting(r, k) => Sent(s, c, r) && s.fates[r] == AnsweredLocally(i)
    case Synthetic(r) => Sent(s, c, r) && s.fates[r] == AnsweredLocally(i)
    case _ => true
  }

  ghost predicate Sent(s: State, c: ClientId, r: nat) {
    r < |s.requests| && r < |s.fates| && s.requests[r].client == c
  }

  /** Every message in a queue is what its origin says. */
  ghost predicate ContentsOk(s: State) {
    forall c, i :: c in s.queues && 0 <= i < |s.queues[c]| ==> ContentOk(s, s.queues[c][i])
  }

  ghost predicate ContentOk(s: State, d: Delivery) {
    match d.origin
    case Answer(r, k) => r < |s.requests| && k < |s.adapter| && IsAnswerTo(s, d.msg, s.adapter[k], r)
    case Greeting(r, k) =>
      && r < |s.requests| && k <= |s.adapter| && KindOf(s.requests[r].msg) == Initialize
      && s.phase.Rank() >= 2 && d.msg == GreetingReply(s.requests[r].msg, s.capabilities)
    case Synthetic(r) =>
      && r < |s.requests| && KindOf(s.requests[r].msg) != Initialize
      && d.msg == SyntheticReply(s.requests[r].msg)
    case Event(k) => k < |s.adapter| && d.msg == s.adapter[k] && IsBroadcast(s.adapter[k])
    case Reverse(k) => k < |s.adapter| && d.msg == s.adapter[k] && IsKnownReverseRequest(s.adapter[k])
    case Replay(k) => k <= |s.adapter|
  }

  /** `sent` is the adapter's `response`, made out to request r, which was forwarded under its request_seq. */
  ghost predicate IsAnswerTo(s: State, sent: Message, response: Message, r: nat)
    requires r < |s.requests|
  {
    && IsResponse(response)
    && KeyOf(Get(response, RequestSeq)).Some?
    && var n := KeyOf(Get(response, RequestSeq)).value;
    && 1 <= n <= |s.upstream| && s.upstream[n - 1].req == r
    && sent == RewriteStaleVariableError(response)[RequestSeq := Get(s.requests[r].msg, Seq)]
  }

  ghost predicate MapsOk(s: State, loose: nat) {
    && Shape(s) && Registered(s) && UpstreamOk(s) && PendingOk(s) && BufferOk(s, loose)
  }

  ghost predicate InvBut(s: State, loose: nat) {
    MapsOk(s, loose) && FatesOk(s, loose) && AnswersOk(s) && ContentsOk(s)
  }

  ghost predicate Inv(s: State) {
    InvBut(s, |s.requests|)
  }

  // ---------------------------------------------------------------- queueing one message

  ghost predicate Plain(o: Origin) {
    o.Event? || o.Reverse? || o.Replay?
  }

  lemma PostKeeps(s: State, c: ClientId, d: Delivery)
    requires Inv(s) && c in s.clients && Plain(d.origin) && ContentOk(s, d)
    ensures Inv(Post(s, c, d))
  {
    PostKeepsMaps(s, c, d);
    PostKeepsAnswers(s, c, d);
    PostKeepsContents(s, c, d);
  }

  lemma PostKeepsMaps(s: State, c: ClientId, d: Delivery)
    requires MapsOk(s, |s.requests|) && FatesOk(s, |s.requests|) && c in s.clients
    ensures MapsOk(Post(s, c, d), |s.requests|) && FatesOk(Post(s, c, d), |s.requests|)
  {
  }

  lemma PostKeepsAnswers(s: State, c: ClientId, d: Delivery)
    requires AnswersOk(s) && Plain(d.origin)
    ensures AnswersOk(Post(s, c, d))
  {
  }

  /** Queue an answer to the request r that is being handled, whose new fate is f. */
  function Reply(s: State, c: ClientId, d: Delivery, r: nat, f: Fate): State {
    Settle(Post(s, c, d), r, f)
  }

  /** r is loose and unanswered: it has just arrived, or just left the buffer or the pending map. */
  ghost predicate Open(s: State, loose: nat, c: ClientId, r: nat) {
    && Sent(s, c, r) && c in s.clients && r == loose
    && (s.fates[r].Waiting? || (s.fates[r].Upstream? && s.fates[r].proxy !in s.pending))
  }

  ghost predicate AnswersWith(o: Origin, r: nat, f: Fate, at: nat) {
    || (IsLocalAnswer(o, r) && f == AnsweredLocally(at))
    || (o.Answer? && o.req == r && f == AnsweredByAdapter(at, o.k))
  }

  lemma ReplyKeepsMaps(s: State, c: ClientId, d: Delivery, r: nat, f: Fate)
    requires MapsOk(s, r) && FatesOk(s, r) && Open(s, r, c, r) && AnswersWith(d.origin, r, f, |QueueOf(s, c)|)
    requires s.fates[r].Waiting? || f.AnsweredByAdapter?
    ensures MapsOk(Reply(s, c, d, r, f), |s.requests|)
    ensures FatesOk(Reply(s, c, d, r, f), |s.requests|)
  {
  }

  lemma ReplyKeepsAnswers(s: State, c: ClientId, d: Delivery, r: nat, f: Fate)
    requires AnswersOk(s) && Open(s, r, c, r) && AnswersWith(d.origin, r, f, |QueueOf(s, c)|)
    ensures AnswersOk(Reply(s, c, d, r, f))
  {
  }

  lemma PostKeepsContents(s: State, c: ClientId, d: Delivery)
    requires ContentsOk(s) && ContentOk(s, d)
    ensures ContentsOk(Post(s, c, d))
  {
  }

  lemma ReplyKeeps(s: State, c: ClientId, d: Delivery, r: nat, f: Fate)
    requires InvBut(s, r) && Open(s, r, c, r) && ContentOk(s, d)
    requires AnswersWith(d.origin, r, f, |QueueOf(s, c)|)
    requires s.fates[r].Waiting? || f.AnsweredByAdapter?
    ensures Inv(Reply(s, c, d, r, f))
  {
    ReplyKeepsMaps(s, c, d, r, f);
    ReplyKeepsAnswers(s, c, d, r, f);
    PostKeepsContents(s, c, d);
    ContentsStable(Post(s, c, d), Reply(s, c, d, r, f));
  }

  // ---------------------------------------------------------------- client steps

  predicate Ascending(order: seq<ClientId>) {
    |order| <= 1 || (order[0] < order[1] && Ascending(order[1..]))
  }

  lemma {:induction false} AscendingPairs(order: seq<ClientId>)
    requires Ascending(order)
    ensures forall i, j :: 0 <= i < j < |order| ==> order[i] < order[j]
  {
    if |order| > 1 {
      AscendingPairs(order[1..]);
      assert forall j :: 1 <= j < |order| ==> order[j] == order[1..][j - 1];
    }
  }

  lemma AscendingIsNew(order: seq<ClientId>, i: nat)
    requires Ascending(order) && i < |order|
    ensures order[i] !in order[..i]
  {
    AscendingPairs(order);
  }

  lemma {:induction false} AscendingAppend(order: seq<ClientId>, c: ClientId)
    requires Ascending(order) && forall x :: x in order ==> x < c
    ensures Ascending(order + [c])
  {
    if order != [] {
      assert forall x :: x in order[1..] ==> x in order;
      AscendingAppend(order[1..], c);
      assert order[0] in order && (order + [c])[1..] == order[1..] + [c];
      if |order| > 1 { assert order[1] == (order + [c])[1]; }
    }
  }

  lemma WithoutContents(order: seq<ClientId>, c: ClientId)
    ensures forall x :: x in Without(order, c) <==> x in order && x != c
  {
    if order != [] {
      WithoutContents(order[1..], c);
      assert forall x :: x in order <==> x == order[0] || x in order[1..];
    }
  }

  lemma {:induction false} WithoutAscending(order: seq<ClientId>, c: ClientId)
    requires Ascending(order)
    ensures Ascending(Without(order, c))
  {
    if order != [] {
      AscendingPairs(order);
      WithoutAscending(order[1..], c);
      WithoutContents(order[1..], c);
      var rest := Without(order[1..], c);
      if rest != [] {
        assert rest[0] in rest;
        assert ([order[0]] + rest)[1..] == rest;
      }
    }
  }

  /** Contents stay right while the logs grow and the queues stay as they are. */
  lemma ContentsStable(s: State, t: State)
    requires ContentsOk(s)
    requires s.requests <= t.requests && s.adapter <= t.adapter && s.upstream <= t.upstream
    requires s.phase.Rank() >= 2 ==> t.phase.Rank() >= 2 && t.capabilities == s.capabilities
    requires forall c :: c in t.queues ==> t.queues[c] == QueueOf(s, c)
    ensures ContentsOk(t)
  {
    forall c, i | c in t.queues && 0 <= i < |t.queues[c]| ensures ContentOk(t, t.queues[c][i]) {
      assert c in s.queues && s.queues[c][i] == t.queues[c][i];
    }
  }

  lemma AcceptKeeps(s: State)
    requires Inv(s)
    ensures Inv(AcceptClient(s))
  {
    var t := AcceptClient(s);
    AcceptKeepsMaps(s);
    assert FatesOk(t, |s.requests|);
    assert AnswersOk(t);
    ContentsStable(s, t);
  }

  lemma AcceptKeepsMaps(s: State)
    requires MapsOk(s, |s.requests|)
    ensures MapsOk(AcceptClient(s), |s.requests|)
  {
    var t := AcceptClient(s);
    assert forall c :: c in t.clients <==> c in s.clients || c == s.nextClient;
    AscendingAppend(s.clients, s.nextClient);
    assert Shape(t);
  }

  lemma DisconnectKeeps(s: State, c: ClientId)
    requires Inv(s)
    ensures Inv(DisconnectClient(s, c))
  {
    var t := DisconnectClient(s, c);
    DisconnectKeepsMaps(s, c);
    DisconnectKeepsPending(s, c);
    DisconnectKeepsBuffer(s, c);
    assert AnswersOk(t);
    ContentsStable(s, t);
  }

  lemma DisconnectKeepsMaps(s: State, c: ClientId)
    requires Shape(s) && Registered(s) && UpstreamOk(s)
    ensures Shape(DisconnectClient(s, c)) && Registered(DisconnectClient(s, c)) && UpstreamOk(DisconnectClient(s, c))
  {
    WithoutContents(s.clients, c);
    WithoutAscending(s.clients, c);
    WithoutContents(s.initOrder, c);
  }

  lemma DisconnectKeepsPending(s: State, c: ClientId)
    requires Shape(s) && PendingOk(s)
    ensures PendingOk(DisconnectClient(s, c))
  {
  }

  lemma DisconnectKeepsBuffer(s: State, c: ClientId)
    requires Shape(s) && BufferOk(s, |s.requests|) && FatesOk(s, |s.requests|) && PendingOk(s)
    ensures BufferOk(DisconnectClient(s, c), |s.requests|) && FatesOk(DisconnectClient(s, c), |s.requests|)
  {
    WithoutContents(s.clients, c);
    var t := DisconnectClient(s, c);
    forall r | 0 <= r < |t.fates| && r < |t.requests| ensures FateOk(t, |s.requests|, r, t.fates[r]) {
      assert FateOk(s, |s.requests|, r, s.fates[r]);
      if t.fates[r].Waiting? {
        var i :| 0 <= i < |s.buffered| && s.buffered[i].req == r;
        assert t.buffered[i].req == r;
      }
    }
  }

  lemma RecordKeeps(s: State, c: ClientId, msg: Message)
    requires Inv(s) && c in s.clients
    ensures InvBut(Record(s, c, msg), |s.requests|)
  {
    var t := Record(s, c, msg);
    RecordKeepsMaps(s, c, msg);
    assert AnswersOk(t);
    ContentsStable(s, t);
  }

  lemma RecordKeepsMaps(s: State, c: ClientId, msg: Message)
    requires MapsOk(s, |s.requests|) && FatesOk(s, |s.requests|) && c in s.clients
    ensures MapsOk(Record(s, c, msg), |s.requests|) && FatesOk(Record(s, c, msg), |s.requests|)
  {
  }

  lemma ForwardKeeps(s: State, c: ClientId, msg: Message, r: nat)
    requires InvBut(s, r) && Open(s, r, c, r) && s.fates[r].Waiting?
    requires r + 1 == |s.requests| && s.requests[r].msg == msg
    ensures Inv(Forward(s, c, msg, r))
  {
    ForwardKeepsMaps(s, c, msg, r);
    ForwardKeepsBuffer(s, c, msg, r);
    ForwardKeepsAnswers(s, c, msg, r);
    ContentsStable(s, Forward(s, c, msg, r));
  }

  lemma ForwardKeepsMaps(s: State, c: ClientId, msg: Message, r: nat)
    requires Shape(s) && Registered(s) && UpstreamOk(s) && PendingOk(s)
    requires Open(s, r, c, r) && s.fates[r].Waiting? && r + 1 == |s.requests| && s.requests[r].msg == msg
    ensures Shape(Forward(s, c, msg, r)) && Registered(Forward(s, c, msg, r))
    ensures UpstreamOk(Forward(s, c, msg, r)) && PendingOk(Forward(s, c, msg, r))
  {
  }

  lemma ForwardKeepsBuffer(s: State, c: ClientId, msg: Message, r: nat)
    requires Shape(s) && BufferOk(s, r) && FatesOk(s, r) && PendingOk(s)
    requires Open(s, r, c, r) && s.fates[r].Waiting? && r + 1 == |s.requests| && s.requests[r].msg == msg
    ensures BufferOk(Forward(s, c, msg, r), |s.requests|)
    ensures FatesOk(Forward(s, c, msg, r), |s.requests|)
  {
  }

  lemma ForwardKeepsAnswers(s: State, c: ClientId, msg: Message, r: nat)
    requires AnswersOk(s) && Open(s, r, c, r)
    ensures AnswersOk(Forward(s, c, msg, r))
  {
  }

  lemma ReplySyntheticKeeps(s: State, c: ClientId, msg: Message, r: nat)
    requires InvBut(s, r) && Open(s, r, c, r) && s.fates[r].Waiting?
    requires s.requests[r].msg == msg && KindOf(msg) != Initialize
    ensures Inv(ReplySynthetic(s, c, msg, r))
  {
    var d := Delivery(SyntheticReply(msg), Synthetic(r));
    ReplyKeeps(s, c, d, r, AnsweredLocally(|QueueOf(s, c)|));
  }

  lemma ReplayKeeps(s: State, c: ClientId, event: Option<Message>)
    requires Inv(s) && c in s.clients
    ensures Inv(ReplayCached(s, c, event))
  {
    if event.Some? { PostKeeps(s, c, Delivery(event.value, Replay(|s.adapter|))); }
  }

  lemma GreetKeeps(s: State, c: ClientId, msg: Message, r: nat)
    requires InvBut(s, r) && r < |s.requests| && s.requests[r] == Request(c, msg)
    requires s.fates[r].Waiting? || s.fates[r].Discarded?
    requires KindOf(msg) == Initialize && s.phase.Rank() >= 2
    ensures Inv(Greet(s, c, msg, r))
  {
    if c in s.clients {
      var d := Delivery(GreetingReply(msg, s.capabilities), Greeting(r, |s.adapter|));
      var f := AnsweredLocally(|QueueOf(s, c)|);
      ReplyKeeps(s, c, d, r, f);
      var s1 := Reply(s, c, d, r, f);
      ReplayKeeps(s1, c, s.initializedEvent);
      ReplayKeeps(ReplayCached(s1, c, s.initializedEvent), c, s.stoppedEvent);
    }
  }

  lemma ClientRequestKeeps(s: State, c: ClientId, msg: Message)
    requires Inv(s) && c in s.clients
    ensures Inv(ClientRequest(s, c, msg))
  {
    RecordKeeps(s, c, msg);
    HandleKeeps(Record(s, c, msg), c, msg, |s.requests|, KindOf(msg));
  }

  lemma HandleKeeps(s: State, c: ClientId, msg: Message, r: nat, kind: Kind)
    requires InvBut(s, r) && Open(s, r, c, r) && s.fates[r].Waiting? && r + 1 == |s.requests|
    requires s.requests[r].msg == msg && kind == KindOf(msg)
    ensures Inv(HandleRequest(s, c, msg, r, kind))
  {
    if kind.Initialize? {
      InitializeKeeps(s, c, msg, r);
    } else if Intercepted(s.phase, kind) {
      ReplySyntheticKeeps(s, c, msg, r);
    } else {
      if kind.ConfigurationDone? { PhaseKeeps(s, r, Configured); }
      ForwardKeeps(Configure(s, kind), c, msg, r);
    }
  }

  /** Moving on to a later phase, the capabilities being as they were. */
  lemma PhaseKeeps(s: State, loose: nat, phase: Phase)
    requires InvBut(s, loose) && s.phase.Rank() <= phase.Rank()
    ensures InvBut(s.(phase := phase), loose)
  {
    ContentsStable(s, s.(phase := phase));
  }

  lemma InitializeKeeps(s: State, c: ClientId, msg: Message, r: nat)
    requires InvBut(s, r) && Open(s, r, c, r) && s.fates[r].Waiting?
    requires r + 1 == |s.requests| && s.requests[r].msg == msg
    requires KindOf(msg) == Initialize
    ensures Inv(InitializeRequest(s, c, msg, r))
  {
    var s1 := Register(s, c, msg);
    RegisterKeeps(s, c, msg, r);
    match s.phase
    case PreInit =>
      PhaseKeeps(s1, r, Initializing);
      ForwardKeeps(s1.(phase := Initializing), c, msg, r);
    case Initializing => BufferKeeps(s1, c, msg, r);
    case _ => GreetKeeps(s1, c, msg, r);
  }

  lemma RegisterKeeps(s: State, c: ClientId, msg: Message, loose: nat)
    requires InvBut(s, loose) && c in s.clients
    ensures InvBut(Register(s, c, msg), loose)
  {
    var t := Register(s, c, msg);
    assert forall x :: x in t.initOrder <==> x in s.initOrder || x == c;
    ContentsStable(s, t);
  }

  lemma BufferKeeps(s: State, c: ClientId, msg: Message, r: nat)
    requires InvBut(s, r) && Open(s, r, c, r) && s.fates[r].Waiting?
    requires r + 1 == |s.requests| && s.requests[r].msg == msg
    requires KindOf(msg) == Initialize
    ensures Inv(s.(buffered := s.buffered + [Buffered(c, msg, r)]))
  {
    var t := s.(buffered := s.buffered + [Buffered(c, msg, r)]);
    BufferKeepsFates(s, c, msg, r);
    assert MapsOk(t, |s.requests|);
    ContentsStable(s, t);
  }

  lemma BufferKeepsFates(s: State, c: ClientId, msg: Message, r: nat)
    requires FatesOk(s, r) && Open(s, r, c, r) && s.fates[r].Waiting? && r + 1 == |s.requests|
    ensures FatesOk(s.(buffered := s.buffered + [Buffered(c, msg, r)]), |s.requests|)
  {
    var t := s.(buffered := s.buffered + [Buffered(c, msg, r)]);
    assert t.buffered[|s.buffered|].req == r;
    forall q | 0 <= q < |t.fates| && q < |t.requests| ensures FateOk(t, |s.requests|, q, t.fates[q]) {
      if t.fates[q].Waiting? && q != r {
        var i :| 0 <= i < |s.buffered| && s.buffered[i].req == q;
        assert t.buffered[i].req == q;
      }
    }
  }

  // ---------------------------------------------------------------- adapter steps

  lemma BroadcastKeeps(s: State, m: Message, k: nat)
    requires Inv(s) && ContentOk(s, Delivery(m, Event(k)))
    ensures Inv(BroadcastEvent(s, m, k))
  {
    BroadcastKeepsMaps(s, m, k);
    BroadcastKeepsQueues(s, m, k);
  }

  lemma BroadcastKeepsQueues(s: State, m: Message, k: nat)
    requires AnswersOk(s) && ContentsOk(s) && ContentOk(s, Delivery(m, Event(k)))
    ensures AnswersOk(BroadcastEvent(s, m, k)) && ContentsOk(BroadcastEvent(s, m, k))
  {
    var t := BroadcastEvent(s, m, k);
    forall c, i | c in t.queues && 0 <= i < |t.queues[c]|
      ensures AnswerOk(t, c, i, t.queues[c][i].origin) && ContentOk(t, t.queues[c][i])
    {
      if i < |s.queues[c]| { assert t.queues[c][i] == s.queues[c][i]; }
    }
  }

  lemma BroadcastKeepsMaps(s: State, m: Message, k: nat)
    requires MapsOk(s, |s.requests|) && FatesOk(s, |s.requests|)
    ensures MapsOk(BroadcastEvent(s, m, k), |s.requests|) && FatesOk(BroadcastEvent(s, m, k), |s.requests|)
  {
  }

  /** Taking the oldest initialize out of the buffer leaves it to be dealt with. */
  lemma TakeKeeps(s: State)
    requires Inv(s) && s.buffered != []
    ensures InvBut(s.(buffered := s.buffered[1..]), s.buffered[0].req)
  {
    var t := s.(buffered := s.buffered[1..]);
    forall q | 0 <= q < |t.fates| && q < |t.requests|
      ensures FateOk(t, s.buffered[0].req, q, t.fates[q])
    {
      assert FateOk(s, |s.requests|, q, s.fates[q]);
      if t.fates[q].Waiting? && q != s.buffered[0].req {
        var i :| 0 <= i < |s.buffered| && s.buffered[i].req == q;
        assert t.buffered[i - 1].req == q;
      }
    }
    ContentsStable(s, t);
  }

  lemma {:induction false} DrainKeeps(s: State)
    requires Inv(s) && s.phase.Rank() >= 2
    ensures Inv(Drain(s))
    decreases |s.buffered|
  {
    if s.buffered != [] {
      var b := s.buffered[0];
      var t := s.(buffered := s.buffered[1..]);
      TakeKeeps(s);
      assert BufferedOk(s, b);
      GreetKeeps(t, b.client, b.msg, b.req);
      GreetFrame(t, b.client, b.msg, b.req);
      DrainKeeps(Greet(t, b.client, b.msg, b.req));
    }
  }

  /** Greeting a client touches its queue and the fate of its request, nothing else. */
  lemma GreetFrame(s: State, c: ClientId, msg: Message, r: nat)
    ensures SameBut(s, Greet(s, c, msg, r))
  {
  }

  ghost predicate SameBut(s: State, t: State) {
    t == s.(queues := t.queues, fates := t.fates)
  }

  lemma CacheCapabilitiesKeeps(s: State, m: Message)
    requires Inv(s)
    ensures Inv(CacheCapabilities(s, m))
  {
    if IsInitializeSuccess(m) && s.phase.Initializing? {
      LearnKeeps(s, Get(m, Body));
      DrainKeeps(s.(phase := Initialized, capabilities := Get(m, Body)));
    }
  }

  /** Nobody has been told the capabilities before they are cached. */
  lemma LearnKeeps(s: State, capabilities: Json)
    requires Inv(s) && s.phase.Initializing?
    ensures Inv(s.(phase := Initialized, capabilities := capabilities))
  {
    assert ContentsOk(s.(phase := Initialized, capabilities := capabilities));
  }

  lemma DeliverAnswerKeeps(s: State, n: int, m: Message, k: nat)
    requires Inv(s) && n in s.pending && k < |s.adapter|
    requires IsResponse(s.adapter[k]) && m == RewriteStaleVariableError(s.adapter[k])
    requires KeyOf(Get(m, RequestSeq)) == Some(n)
    ensures Inv(DeliverAnswer(s, n, m, k))
  {
    var p := s.pending[n];
    var r := ReqOf(s, n);
    var t := s.(pending := s.pending - {n});
    assert FateOk(s, |s.requests|, r, s.fates[r]);
    assert InvBut(t, r) by { ContentsStable(s, t); }
    ReplyKeeps(t, p.client, Delivery(m[RequestSeq := p.clientSeq], Answer(r, k)), r,
               AnsweredByAdapter(|QueueOf(s, p.client)|, k));
  }

  lemma ResolveKeeps(s: State, m: Message, k: nat)
    requires Inv(s) && k < |s.adapter| && IsResponse(s.adapter[k]) && m == RewriteStaleVariableError(s.adapter[k])
    ensures Inv(Resolve(s, m, k))
  {
    match KeyOf(Get(m, RequestSeq))
    case None =>
    case Some(n) => if n in s.pending { DeliverAnswerKeeps(s, n, m, k); }
  }

  lemma LogKeeps(s: State, msg: Message)
    requires Inv(s)
    ensures Inv(s.(adapter := s.adapter + [msg]))
  {
    ContentsStable(s, s.(adapter := s.adapter + [msg]));
  }

  lemma DispatchKeeps(s: State, msg: Message, k: nat, routing: Routing)
    requires Inv(s) && k < |s.adapter| && s.adapter[k] == msg && routing == RoutingOf(msg)
    ensures Inv(Dispatch(s, msg, k, routing))
  {
    match routing
    case ToSender =>
      var m := RewriteStaleVariableError(msg);
      CacheCapabilitiesKeeps(s, m);
      CacheCapabilitiesFrame(s, m);
      if !Get(m, RequestSeq).Null? { ResolveKeeps(CacheCapabilities(s, m), m, k); }
    case ToAll => BroadcastKeeps(s, msg, k);
    case ToTarget =>
      var target := PickReverseRequestTarget(s.initOrder, s.initArgs, msg);
      if target.Some? && target.value in s.clients {
        PostKeeps(s, target.value, Delivery(msg, Reverse(k)));
      }
    case Dropped =>
  }

  lemma AdapterMessageKeeps(s: State, msg: Message)
    requires Inv(s)
    ensures Inv(AdapterMessage(s, msg))
  {
    LogKeeps(s, msg);
    DispatchKeeps(s.(adapter := s.adapter + [msg]), msg, |s.adapter|, RoutingOf(msg));
  }

  lemma {:induction false} DrainFrame(s: State)
    ensures Drain(s) == s.(buffered := [], queues := Drain(s).queues, fates := Drain(s).fates)
    decreases |s.buffered|
  {
    if s.buffered != [] {
      var b := s.buffered[0];
      var t := s.(buffered := s.buffered[1..]);
      GreetFrame(t, b.client, b.msg, b.req);
      DrainFrame(Greet(t, b.client, b.msg, b.req));
    }
  }

  lemma CacheCapabilitiesFrame(s: State, m: Message)
    ensures var t := CacheCapabilities(s, m);
            t == s.(phase := t.phase, capabilities := t.capabilities, buffered := t.buffered,
                    queues := t.queues, fates := t.fates)
  {
    DrainFrame(s.(phase := Initialized, capabilities := Get(m, Body)));
  }

  // ---------------------------------------------------------------- frames

  ghost predicate SameHistory(s: State, t: State) {
    && t.requests == s.requests && t.adapter == s.adapter && t.capabilities == s.capabilities
    && t.clients == s.clients && t.nextClient == s.nextClient && t.joined == s.joined && t.left == s.left
  }

  lemma InitializeFrame(s: State, c: ClientId, msg: Message, r: nat)
    ensures SameHistory(s, InitializeRequest(s, c, msg, r))
  {
    GreetFrame(Register(s, c, msg), c, msg, r);
  }

  lemma RequestFrame(s: State, c: ClientId, msg: Message)
    ensures SameHistory(Record(s, c, msg), ClientRequest(s, c, msg))
  {
    HandleFrame(Record(s, c, msg), c, msg, |s.requests|, KindOf(msg));
  }

  lemma HandleFrame(s: State, c: ClientId, msg: Message, r: nat, kind: Kind)
    ensures SameHistory(s, HandleRequest(s, c, msg, r, kind))
  {
    if kind.Initialize? { InitializeFrame(s, c, msg, r); }
    else if Intercepted(s.phase, kind) { SyntheticFrame(s, c, msg, r); }
    else { ForwardFrame(Configure(s, kind), c, msg, r); }
  }

  lemma SyntheticFrame(s: State, c: ClientId, msg: Message, r: nat)
    ensures SameBut(s, ReplySynthetic(s, c, msg, r))
  {
  }

  lemma ForwardFrame(s: State, c: ClientId, msg: Message, r: nat)
    ensures var t := Forward(s, c, msg, r);
            t == s.(nextSeq := t.nextSeq, pending := t.pending, upstream := t.upstream, fates := t.fates)
  {
  }

  /** What adapter messages leave alone. */
  ghost predicate SameClients(s: State, t: State) {
    && t.nextClient == s.nextClient && t.requests == s.requests && t.upstream == s.upstream && t.adapter == s.adapter
    && t.initOrder == s.initOrder && t.initArgs == s.initArgs
    && t.clients == s.clients && t.joined == s.joined && t.left == s.left
  }

  lemma EventFrame(s: State, m: Message, k: nat)
    ensures SameClients(s, BroadcastEvent(s, m, k)) && SameClients(s, RouteReverseRequest(s, m, k))
  {
  }

  lemma ResponseFrame(s: State, m: Message, k: nat)
    ensures SameClients(s, RouteResponse(s, m, k))
  {
    CacheCapabilitiesFrame(s, m);
  }

  lemma DispatchFrame(s: State, msg: Message, k: nat, routing: Routing)
    ensures SameClients(s, Dispatch(s, msg, k, routing))
  {
    ResponseFrame(s, RewriteStaleVariableError(msg), k);
    EventFrame(s, msg, k);
  }

  lemma AdapterFrame(s: State, msg: Message)
    ensures SameClients(s.(adapter := s.adapter + [msg]), AdapterMessage(s, msg))
  {
    DispatchFrame(s.(adapter := s.adapter + [msg]), msg, |s.adapter|, RoutingOf(msg));
  }

  // ---------------------------------------------------------------- runs

  lemma NextKeeps(s: State, step: Step)
    requires Inv(s) && Enabled(s, step)
    ensures Inv(Next(s, step))
  {
    match step
    case Accept => AcceptKeeps(s);
    case FromClient(c, msg) => if IsRequest(msg) { ClientRequestKeeps(s, c, msg); }
    case FromAdapter(msg) => AdapterMessageKeeps(s, msg);
    case Disconnect(c) => DisconnectKeeps(s, c);
  }

  lemma InitialOk()
    ensures Inv(INITIAL)
  {
    var s := INITIAL;
    assert Shape(s) by {
      assert s.queues == map[] && s.joined == map[] && s.left == map[] && s.clients == [];
    }
  }

  lemma {:induction false} RunInvariant(run: Run, i: nat)
    requires Legal(run) && i < |run.states|
    ensures Inv(run.states[i])
  {
    if i == 0 {
      InitialOk();
    } else {
      RunInvariant(run, i - 1);
      assert Follows(run, i - 1);
      NextKeeps(run.states[i - 1], run.steps[i - 1]);
    }
  }

  lemma ReachableInv(s: State)
    requires Reachable(s)
    ensures Inv(s)
  {
    var run :| Legal(run) && s in run.states;
    var i :| 0 <= i < |run.states| && run.states[i] == s;
    RunInvariant(run, i);
  }

  lemma EmptyRun()
    ensures Legal(Run([], [INITIAL]))
  {
  }

  /** Another step at the end of a run. */
  lemma OneMore(run: Run, step: Step) returns (next: Run)
    requires Legal(run) && Enabled(run.states[|run.steps|], step)
    ensures Legal(next) && next.steps == run.steps + [step]
    ensures next.states == run.states + [Next(run.states[|run.steps|], step)]
  {
    next := Run(run.steps + [step], run.states + [Next(run.states[|run.steps|], step)]);
    forall i | 0 <= i < |next.steps| ensures Follows(next, i) {
      if i < |run.steps| { assert Follows(run, i); }
    }
  }
}
