/** What the chunked reader's inner loop does with each kind of header and body, told by the bytes in its buffer. */
module Turns {
  import opened Messages
  import opened Framing
  import opened Chunks
  import opened Meanings
  import opened WireFormat

  // ---------------------------------------------------------------- slices

  /** Where a Python index lies in a sequence of this length: a negative one counts from the end. */
  function Position(length: nat, index: int): (p: nat)
    ensures p <= length
  {
    var i := if index < 0 then length + index else index;
    if i < 0 then 0 else if i > length then length else i
  }

  /** The slices are those of Python. */
  lemma SlicesByPosition(buf: Bytes, from: nat, to: int)
    requires from <= |buf| && to <= |buf|
    ensures SliceFrom(buf, to) == buf[Position(|buf|, to)..]
    ensures Slice(buf, from, to) ==
            if from <= Position(|buf|, to) then buf[from..Position(|buf|, to)] else []
  {
  }

  // ---------------------------------------------------------------- turns

  /** The bytes up to and including the first separator. */
  ghost predicate IsHeader(header: Bytes) {
    && 4 <= |header| && SeparatorAt(header, |header| - 4)
    && (forall i: nat :: SeparatorAt(header, i) ==> i == |header| - 4)
  }

  lemma TurnFor(header: Bytes, rest: Bytes)
    requires IsHeader(header)
    ensures FirstTurn(header + rest) == TurnOf(header + rest, |header|, DecodeHeader(header))
  {
    FirstSeparator(header, rest);
    assert (header + rest)[..|header|] == header;
  }

  /** A header that is malformed ends the thread; one without a length is skipped. */
  lemma HeadersWithoutBody(codec: Codec, header: Bytes, rest: Bytes)
    requires IsHeader(header)
    ensures DecodeHeader(header) == BadHeader ==> Scan(codec, header + rest) == Scanned([], [], Died)
    ensures DecodeHeader(header) == NoLength ==> Scan(codec, header + rest) == Scan(codec, rest)
  {
    TurnFor(header, rest);
    assert (header + rest)[|header|..] == rest;
    assert Prepend([], Scan(codec, rest)) == Scan(codec, rest);
  }

  /** A body that has not arrived in full is waited for. */
  lemma BodyIsAwaited(codec: Codec, header: Bytes, part: Bytes)
    requires IsHeader(header) && DecodeHeader(header).Length? && |part| < DecodeHeader(header).n
    ensures Scan(codec, header + part) == Scanned([], header + part, Waiting)
  {
    TurnFor(header, part);
  }

  lemma BodyIsCutOut(header: Bytes, body: Bytes, rest: Bytes)
    requires IsHeader(header) && DecodeHeader(header) == Length(|body|)
    ensures FirstTurn(header + body + rest) == Again(Some(body), rest)
  {
    TurnFor(header, body + rest);
    var buf := header + (body + rest);
    assert header + body + rest == buf;
    assert buf[|header|..|header| + |body|] == body;
    assert buf[|header| + |body|..] == rest;
  }

  lemma TurnIsScanned(codec: Codec, buf: Bytes, body: Bytes, rest: Bytes)
    requires FirstTurn(buf) == Again(Some(body), rest) && |rest| < |buf|
    ensures var next := Scan(codec, rest);
      Scan(codec, buf) ==
      if codec.parse(body).Some? then Scanned([codec.parse(body).value] + next.found, next.left, next.status) else next
  {
    assert Prepend([], Scan(codec, rest)) == Scan(codec, rest);
  }

  /** One that has arrived is dispatched if it is a message and skipped if not, and the loop goes on behind it. */
  lemma BodyIsDispatched(codec: Codec, header: Bytes, body: Bytes, rest: Bytes)
    requires IsHeader(header) && DecodeHeader(header) == Length(|body|)
    ensures var next := Scan(codec, rest);
      Scan(codec, header + body + rest) ==
      if codec.parse(body).Some? then Scanned([codec.parse(body).value] + next.found, next.left, next.status) else next
  {
    BodyIsCutOut(header, body, rest);
    TurnIsScanned(codec, header + body + rest, body, rest);
  }

  lemma NegativeLengthCuts(header: Bytes, rest: Bytes, n: int)
    requires IsHeader(header) && DecodeHeader(header) == Length(n) && n < 0
    ensures var buf, p := header + rest, Position(|header + rest|, |header| + n);
      FirstTurn(buf) == Again(Some(if |header| <= p then buf[|header|..p] else []), buf[p..])
  {
    TurnFor(header, rest);
    SlicesByPosition(header + rest, |header|, |header| + n);
  }

  /** A negative length cuts by Python's rules: the body between the end of the header and the announced end, and
      what is left from the announced end on. If that is the whole buffer, the loop does not end. */
  lemma HeadersWithNegativeLength(codec: Codec, header: Bytes, rest: Bytes, n: int)
    requires IsHeader(header) && DecodeHeader(header) == Length(n) && n < 0
    ensures var buf, p := header + rest, Position(|header + rest|, |header| + n);
      if p == 0 then Scan(codec, buf) == Scanned([], [], Stuck)
      else Scan(codec, buf) ==
           Prepend(Parsed(codec, Some(if |header| <= p then buf[|header|..p] else [])), Scan(codec, buf[p..]))
  {
    NegativeLengthCuts(header, rest, n);
  }

  /** Without a separator there is nothing to do yet. */
  lemma NoHeader(codec: Codec, buf: Bytes)
    requires forall i: nat :: !SeparatorAt(buf, i)
    ensures Scan(codec, buf) == Scanned([], buf, Waiting)
  {
  }

  // ---------------------------------------------------------------- the end of the session

  lemma SessionEndsByName(m: Message)
    ensures EndsSession(m) <==> IsEventNamed(m, "terminated")
  {
    TypesByText(m);
    TextIs(m, EventName, "terminated");
  }

  /** After a chunk in which the messages found include an event named terminated, the reader takes no other. */
  lemma TerminatedStopsTheReader(codec: Codec, chunks: seq<Bytes>, chunk: Bytes)
    requires FeedAll(codec, chunks).status.Waiting?
    ensures var s := FeedAll(codec, chunks);
      var next := Scan(codec, s.left + chunk);
      FeedAll(codec, chunks + [chunk]).found == s.found + next.found
    ensures (exists m :: m in FeedAll(codec, chunks + [chunk]).found && IsEventNamed(m, "terminated")) ==>
              FeedAll(codec, chunks + [chunk]).status != Waiting
  {
    assert (chunks + [chunk])[..|chunks|] == chunks;
    var found := FeedAll(codec, chunks + [chunk]).found;
    if m :| m in found && IsEventNamed(m, "terminated") {
      SessionEndsByName(m);
      var i :| 0 <= i < |found| && found[i] == m;
      assert EndsSession(found[i]);
    }
  }
}
