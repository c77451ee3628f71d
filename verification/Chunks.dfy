/** `DapConnection._read_loop` (src/dap_mux/ipython_ext.py), which takes the bytes in chunks as they arrive and
    scans its buffer for messages after each of them. */
module Chunks {
  import opened Messages
  import opened Framing
  import opened Decoders

  // ---------------------------------------------------------------- Python's slices

  /** buf[to:] for an index up to the length: a negative one counts from the end. */
  function SliceFrom(buf: Bytes, to: int): Bytes
    requires to <= |buf|
  {
    if to > 0 then buf[to..]
    else if to == 0 || to <= -|buf| then buf
    else buf[|buf| + to..]
  }

  /** buf[from:to], likewise. */
  function Slice(buf: Bytes, from: nat, to: int): Bytes
    requires from <= |buf| && to <= |buf|
  {
    if from <= to then buf[from..to]
    else if to < 0 && from <= |buf| + to then buf[from..|buf| + to]
    else []
  }

  // ---------------------------------------------------------------- scanning a buffer

  /** How the scanning of a buffer ends, and the reading of chunks. */
  datatype Status =
    | Waiting        // for more bytes
    | Died           // a ValueError ends the thread
    | Stuck          // the inner loop meets the same buffer again and again
    | Disconnected   // the connection was closed while the chunk was handled

  /** One turn of the inner loop: it ends, or goes on with the rest of the buffer. */
  datatype Turned =
    | Ended(status: Status)
    | Again(body: Option<Bytes>, rest: Bytes)

  /** The turn for a header that ends at `headerEnd`. A header without a length is skipped. */
  function TurnOf(buf: Bytes, headerEnd: nat, header: Header): Turned
    requires headerEnd <= |buf|
  {
    match header
    case BadHeader => Ended(Died)
    case NoLength => Again(None, buf[headerEnd..])
    case Length(n) =>
      var totalLen := headerEnd + n;
      if |buf| < totalLen then Ended(Waiting)
      else Again(Some(Slice(buf, headerEnd, totalLen)), SliceFrom(buf, totalLen))
  }

  function FirstTurn(buf: Bytes): Turned {
    var i := FindSeparator(buf, 0);
    if i == -1 then Ended(Waiting) else TurnOf(buf, i + 4, DecodeHeader(buf[..i + 4]))
  }

  /** The messages found, the bytes left over, and why there is no more. */
  datatype Scanned = Scanned(found: seq<Message>, left: Bytes, status: Status)

  /** The inner loop. */
  function Scan(codec: Codec, buf: Bytes): Scanned
    decreases |buf|
  {
    match FirstTurn(buf)
    case Ended(status) => Scanned([], if status.Waiting? then buf else [], status)
    case Again(body, rest) =>
      if |rest| < |buf| then Prepend(Parsed(codec, body), Scan(codec, rest)) else Scanned([], [], Stuck)
  }

  /** A body that is no JSON text is skipped. */
  function Parsed(codec: Codec, body: Option<Bytes>): seq<Message> {
    if body.None? then []
    else match codec.parse(body.value) case None => [] case Some(m) => [m]
  }

  function Prepend(ms: seq<Message>, s: Scanned): Scanned {
    s.(found := ms + s.found)
  }

  lemma ScanTurn(codec: Codec, buf: Bytes, headerEnd: nat)
    requires FindSeparator(buf, 0) >= 0 && headerEnd == FindSeparator(buf, 0) + 4
    ensures var t := TurnOf(buf, headerEnd, DecodeHeader(buf[..headerEnd]));
      if t.Ended? then Scan(codec, buf) == Scanned([], if t.status.Waiting? then buf else [], t.status)
      else Scan(codec, buf).status == Stuck
           || (|t.rest| < |buf| && Scan(codec, buf) == Prepend(Parsed(codec, t.body), Scan(codec, t.rest)))
  {
  }

  // ---------------------------------------------------------------- when the inner loop ends

  /** The announced end of the first message, if it lies before the start of the buffer. */
  predicate CountsFromEnd(buf: Bytes) {
    var i := FindSeparator(buf, 0);
    i >= 0 &&
    match DecodeHeader(buf[..i + 4])
    case Length(n) => i + 4 + n < 0
    case _ => false
  }

  /** The first header announces its end at the very start of the buffer, or farther before it than the buffer
      is long. */
  predicate Repeats(buf: Bytes) {
    var i := FindSeparator(buf, 0);
    i >= 0 &&
    match DecodeHeader(buf[..i + 4])
    case Length(n) => i + 4 + n == 0 || i + 4 + n <= -|buf|
    case _ => false
  }

  /** A turn leaves the buffer as it is for such a header, and else makes it shorter. */
  lemma TurnShrinks(buf: Bytes)
    requires FirstTurn(buf).Again?
    ensures Repeats(buf) ==> FirstTurn(buf) == Again(Some([]), buf)
    ensures !Repeats(buf) ==> |FirstTurn(buf).rest| < |buf|
  {
  }

  /** The inner loop ends after at most k turns. */
  predicate EndsWithin(buf: Bytes, k: nat)
    decreases k
  {
    match FirstTurn(buf)
    case Ended(_) => true
    case Again(_, rest) => k > 0 && EndsWithin(rest, k - 1)
  }

  ghost predicate Ends(buf: Bytes) {
    exists k: nat :: EndsWithin(buf, k)
  }

  /** After some turns the buffer is one that repeats. */
  predicate MeetsRepeat(buf: Bytes)
    decreases |buf|
  {
    match FirstTurn(buf)
    case Ended(_) => false
    case Again(_, rest) => Repeats(buf) || (|rest| < |buf| && MeetsRepeat(rest))
  }

  lemma {:induction false} EndsUnlessStuck(codec: Codec, buf: Bytes) returns (k: nat)
    requires Scan(codec, buf).status != Stuck
    ensures EndsWithin(buf, k)
    decreases |buf|
  {
    k := 0;
    if FirstTurn(buf).Again? {
      var turns := EndsUnlessStuck(codec, FirstTurn(buf).rest);
      k := turns + 1;
    }
  }

  lemma {:induction false} NeverEnds(buf: Bytes, k: nat)
    requires MeetsRepeat(buf)
    ensures !EndsWithin(buf, k)
    decreases k
  {
    TurnShrinks(buf);
    if k > 0 { NeverEnds(FirstTurn(buf).rest, k - 1); }
  }

  lemma {:induction false} StuckAtRepeat(codec: Codec, buf: Bytes)
    ensures Scan(codec, buf).status == Stuck <==> MeetsRepeat(buf)
    decreases |buf|
  {
    if FirstTurn(buf).Again? {
      TurnShrinks(buf);
      if !Repeats(buf) { StuckAtRepeat(codec, FirstTurn(buf).rest); }
    }
  }

  /** The inner loop ends if and only if it meets no buffer that repeats, and that is when scanning is not stuck. */
  lemma LoopEndsExactlyWhen(codec: Codec, buf: Bytes)
    ensures Ends(buf) <==> !MeetsRepeat(buf)
    ensures Scan(codec, buf).status == Stuck <==> MeetsRepeat(buf)
  {
    StuckAtRepeat(codec, buf);
    if MeetsRepeat(buf) {
      forall k: nat ensures !EndsWithin(buf, k) { NeverEnds(buf, k); }
    } else {
      var k := EndsUnlessStuck(codec, buf);
      assert EndsWithin(buf, k);
    }
  }

  // ---------------------------------------------------------------- reading chunks

  /** The event on which the reader closes its own connection. */
  predicate EndsSession(m: Message) {
    IsEvent(m) && Text(m, EventName) == "terminated"
  }

  predicate Terminates(ms: seq<Message>) {
    exists i :: 0 <= i < |ms| && EndsSession(ms[i])
  }

  /** The connection is closed at once, but noticed only when the buffer has been dealt with. */
  function Closing(s: Scanned): Scanned {
    if s.status.Waiting? && Terminates(s.found) then s.(status := Disconnected) else s
  }

  /** What the reader has after the next chunk: nothing more once it has stopped. */
  function Feed(codec: Codec, s: Scanned, chunk: Bytes): Scanned {
    if s.status.Waiting? then Closing(Prepend(s.found, Scan(codec, s.left + chunk))) else s
  }

  function FeedAll(codec: Codec, chunks: seq<Bytes>): Scanned {
    if chunks == [] then Scanned([], [], Waiting)
    else Feed(codec, FeedAll(codec, chunks[..|chunks| - 1]), chunks[|chunks| - 1])
  }

  function Concat(chunks: seq<Bytes>): Bytes {
    if chunks == [] then [] else Concat(chunks[..|chunks| - 1]) + chunks[|chunks| - 1]
  }

  lemma FeedNext(codec: Codec, chunks: seq<Bytes>, i: nat)
    requires i < |chunks|
    ensures FeedAll(codec, chunks[..i + 1]) == Feed(codec, FeedAll(codec, chunks[..i]), chunks[i])
  {
    assert chunks[..i + 1][..i] == chunks[..i];
  }

  /** A reader that has stopped stays as it is, and one that goes on keeps what it has found. */
  lemma {:induction false} FeedMore(codec: Codec, chunks: seq<Bytes>, i: nat)
    requires i <= |chunks|
    ensures FeedAll(codec, chunks[..i]).found <= FeedAll(codec, chunks).found
    ensures !FeedAll(codec, chunks[..i]).status.Waiting? ==> FeedAll(codec, chunks) == FeedAll(codec, chunks[..i])
  {
    if i < |chunks| {
      var first := chunks[..|chunks| - 1];
      assert first[..i] == chunks[..i];
      FeedMore(codec, first, i);
    } else {
      assert chunks[..i] == chunks;
    }
  }

  /** A reader that is waiting has found no such event, so that it is only looked for in the next chunk. */
  lemma FeedWaiting(codec: Codec, chunks: seq<Bytes>, i: nat)
    requires i < |chunks| && FeedAll(codec, chunks[..i]).status.Waiting?
    ensures var s := FeedAll(codec, chunks[..i]);
      FeedAll(codec, chunks[..i + 1]) == Prepend(s.found, Closing(Scan(codec, s.left + chunks[i])))
    ensures FeedAll(codec, chunks).status != Stuck ==>
      Scan(codec, FeedAll(codec, chunks[..i]).left + chunks[i]).status != Stuck
  {
    var s := FeedAll(codec, chunks[..i]);
    FeedNext(codec, chunks, i);
    FeedMore(codec, chunks, i + 1);
    TerminatesAppend(s.found, Scan(codec, s.left + chunks[i]).found);
  }

  lemma ReadEnds(codec: Codec, chunks: seq<Bytes>, i: nat)
    requires i <= |chunks| && (i == |chunks| || !FeedAll(codec, chunks[..i]).status.Waiting?)
    ensures FeedAll(codec, chunks) == FeedAll(codec, chunks[..i])
  {
    FeedMore(codec, chunks, i);
    assert chunks[..|chunks|] == chunks;
  }

  /** A `DapConnection` with its reader thread: `running` while the connection is open and the thread alive. */
  class ChunkedReader {
    var buf: Bytes
    var running: bool

    constructor ()
      ensures buf == [] && running
    {
      buf, running := [], true;
    }

    /** What `_read_loop` does with one chunk. The messages found are dispatched in this order. */
    method Receive(codec: Codec, chunk: Bytes) returns (found: seq<Message>)
      requires running && Scan(codec, buf + chunk).status != Stuck
      modifies this
      ensures var s := Closing(Scan(codec, old(buf) + chunk));
        found == s.found && (running <==> s.status.Waiting?) && (running ==> buf == s.left)
    {
      buf := buf + chunk;
      found := [];
      while FindSeparator(buf, 0) != -1
        invariant Prepend(found, Scan(codec, buf)) == Scan(codec, old(buf) + chunk)
        invariant running <==> !Terminates(found)
        decreases |buf|
      {
        var headerEnd := FindSeparator(buf, 0) + 4;
        ScanTurn(codec, buf, headerEnd);
        var body, stop := Turn(headerEnd, DecodeHeader(buf[..headerEnd]));
        if stop.Some? {
          running := running && stop.value.Waiting?;
          return;
        }
        var more := Parsed(codec, body);
        PrependAgain(found, more, Scan(codec, buf));
        if more != [] && EndsSession(more[0]) { running := false; }
        TerminatesAppend(found, more);
        found := found + more;
      }
    }

    /** One turn of the inner loop, up to the parsing of the body. */
    method Turn(headerEnd: nat, header: Header) returns (body: Option<Bytes>, stop: Option<Status>)
      requires 0 < headerEnd <= |buf|
      modifies this`buf
      ensures match TurnOf(old(buf), headerEnd, header)
              case Ended(status) => stop == Some(status) && buf == old(buf)
              case Again(b, rest) => stop == None && body == b && buf == rest
    {
      body, stop := None, None;
      if header.BadHeader? { return None, Some(Died); }
      if header.NoLength? {
        buf := buf[headerEnd..];
        return None, None;
      }
      var totalLen := headerEnd + header.n;
      if |buf| < totalLen { return None, Some(Waiting); }
      body := Some(Slice(buf, headerEnd, totalLen));
      buf := SliceFrom(buf, totalLen);
    }

    /** `_read_loop`: take chunks until there are no more or the connection is closed. */
    method ReadLoop(codec: Codec, chunks: seq<Bytes>) returns (found: seq<Message>)
      requires buf == [] && running && FeedAll(codec, chunks).status != Stuck
      modifies this
      ensures found == FeedAll(codec, chunks).found
      ensures running <==> FeedAll(codec, chunks).status.Waiting?
      ensures running ==> buf == FeedAll(codec, chunks).left
    {
      found := [];
      var i := 0;
      ghost var s := Scanned([], [], Waiting);
      while i < |chunks| && running
        invariant 0 <= i <= |chunks| && s == FeedAll(codec, chunks[..i])
        invariant found == s.found && (running <==> s.status.Waiting?) && (running ==> buf == s.left)
      {
        FeedWaiting(codec, chunks, i);
        s := Prepend(found, Closing(Scan(codec, buf + chunks[i])));
        var more := Receive(codec, chunks[i]);
        found := found + more;
        i := i + 1;
      }
      ReadEnds(codec, chunks, i);
    }
  }

  lemma TerminatesAppend(a: seq<Message>, b: seq<Message>)
    ensures Terminates(a + b) <==> Terminates(a) || Terminates(b)
  {
    if Terminates(a) {
      var i :| 0 <= i < |a| && EndsSession(a[i]);
      assert EndsSession((a + b)[i]);
    }
    if Terminates(b) {
      var i :| 0 <= i < |b| && EndsSession(b[i]);
      assert EndsSession((a + b)[|a| + i]);
    }
  }

  lemma PrependAgain(a: seq<Message>, b: seq<Message>, s: Scanned)
    ensures Prepend(a + b, s) == Prepend(a, Prepend(b, s))
  {
    assert a + b + s.found == a + (b + s.found);
  }
}
