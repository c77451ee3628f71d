/** What difference it makes where the bytes on their way to `DapConnection._read_loop` are cut into chunks. */
module Cuts {
  import opened Messages
  import opened Framing
  import opened Decoders
  import opened Chunks

  // ---------------------------------------------------------------- scanning piece by piece

  /** Some header is met whose announced end lies before the start of the buffer: what it cuts out then depends
      on how much the buffer holds. */
  predicate MeetsCountFromEnd(buf: Bytes)
    decreases |buf|
  {
    match FirstTurn(buf)
    case Ended(_) => false
    case Again(_, rest) => CountsFromEnd(buf) || (|rest| < |buf| && MeetsCountFromEnd(rest))
  }

  /** Scanning goes on with more bytes. */
  function Continue(codec: Codec, s: Scanned, more: Bytes): Scanned {
    if s.status.Waiting? then Prepend(s.found, Scan(codec, s.left + more)) else s
  }

  /** A turn that does not end the loop does the same with more bytes behind the buffer, and a turn that ends
      it for want of bytes comes again. */
  lemma TurnSplits(a: Bytes, b: Bytes)
    requires !CountsFromEnd(a + b)
    ensures !CountsFromEnd(a)
    ensures FirstTurn(a) == Ended(Died) ==> FirstTurn(a + b) == Ended(Died)
    ensures FirstTurn(a).Again? ==>
      var t := FirstTurn(a); FirstTurn(a + b) == Again(t.body, if |t.rest| < |a| then t.rest + b else a + b)
  {
    var i := FindSeparator(a, 0);
    if i >= 0 {
      SeparatorExtends(a, b);
      assert (a + b)[..i + 4] == a[..i + 4];
      TurnOfSplits(a, b, i + 4, DecodeHeader(a[..i + 4]));
    }
  }

  lemma TurnOfSplits(a: Bytes, b: Bytes, headerEnd: nat, header: Header)
    requires headerEnd <= |a| && headerEnd > 0 && (header.Length? ==> headerEnd + header.n >= 0)
    ensures TurnOf(a, headerEnd, header).Again? ==>
      var t := TurnOf(a, headerEnd, header);
      TurnOf(a + b, headerEnd, header) == Again(t.body, if |t.rest| < |a| then t.rest + b else a + b)
  {
    if header.NoLength? {
      assert (a + b)[headerEnd..] == a[headerEnd..] + b;
    }
    if header.Length? && headerEnd + header.n <= |a| {
      var total := headerEnd + header.n;
      assert (a + b)[total..] == a[total..] + b;
      if headerEnd <= total { assert (a + b)[headerEnd..total] == a[headerEnd..total]; }
    }
  }

  lemma {:induction false} ScanSplits(codec: Codec, a: Bytes, b: Bytes)
    requires !MeetsCountFromEnd(a + b)
    ensures !MeetsCountFromEnd(a)
    ensures Scan(codec, a + b) == Continue(codec, Scan(codec, a), b)
    ensures Scan(codec, a).status.Waiting? ==> !MeetsCountFromEnd(Scan(codec, a).left + b)
    decreases |a|
  {
    NoCountFromEnd(a + b);
    TurnSplits(a, b);
    match FirstTurn(a)
    case Ended(status) =>
      assert Prepend([], Scan(codec, a + b)) == Scan(codec, a + b);
      EndedStatus(a);
    case Again(body, rest) =>
      if |rest| < |a| {
        ScanSplits(codec, rest, b);
        PrependTwice(Parsed(codec, body), Scan(codec, rest), codec, b);
      }
  }

  lemma NoCountFromEnd(buf: Bytes)
    requires !MeetsCountFromEnd(buf)
    ensures !CountsFromEnd(buf)
  {
  }

  lemma EndedStatus(buf: Bytes)
    requires FirstTurn(buf).Ended?
    ensures FirstTurn(buf).status.Waiting? || FirstTurn(buf).status.Died?
  {
  }

  lemma PrependTwice(ms: seq<Message>, s: Scanned, codec: Codec, b: Bytes)
    ensures Prepend(ms, Continue(codec, s, b)) == Continue(codec, Prepend(ms, s), b)
  {
    var t := Scan(codec, s.left + b);
    assert ms + (s.found + t.found) == ms + s.found + t.found;
  }

  /** More bytes add to what is found. */
  lemma ScanGrows(codec: Codec, stream: Bytes, i: nat, j: nat)
    requires !MeetsCountFromEnd(stream) && i <= j <= |stream|
    ensures Scan(codec, stream[..i]).found <= Scan(codec, stream[..j]).found
    ensures !Scan(codec, stream[..i]).status.Waiting? ==> Scan(codec, stream[..j]) == Scan(codec, stream[..i])
  {
    assert stream == stream[..j] + stream[j..];
    ScanSplits(codec, stream[..j], stream[j..]);
    assert stream[..j] == stream[..i] + stream[i..j];
    ScanSplits(codec, stream[..i], stream[i..j]);
  }

  // ---------------------------------------------------------------- what a reader reads

  /** How many chunks are read: up to the first after which an event that ends the session has been found. */
  function ChunksRead(codec: Codec, chunks: seq<Bytes>): (k: nat)
    ensures k <= |chunks|
  {
    if chunks == [] then 0
    else
      var first := chunks[..|chunks| - 1];
      if Terminates(Scan(codec, Concat(first)).found) then ChunksRead(codec, first) else |chunks|
  }

  function BytesRead(codec: Codec, chunks: seq<Bytes>): Bytes {
    Concat(chunks[..ChunksRead(codec, chunks)])
  }

  /** Whatever the cut, the reader ends as if it had scanned the bytes it has read at once. */
  lemma {:induction false} ReadsAsOne(codec: Codec, chunks: seq<Bytes>)
    requires !MeetsCountFromEnd(Concat(chunks))
    ensures FeedAll(codec, chunks) == Closing(Scan(codec, BytesRead(codec, chunks)))
  {
    if chunks != [] {
      var first, last := chunks[..|chunks| - 1], chunks[|chunks| - 1];
      var k := ChunksRead(codec, first);
      ScanSplits(codec, Concat(first), last);
      ReadsAsOne(codec, first);
      if Terminates(Scan(codec, Concat(first)).found) {
        assert chunks[..k] == first[..k];
        ReadTerminates(codec, first);
      } else {
        ReadsAll(codec, first);
        assert chunks[..|chunks|] == chunks;
        ContinueCloses(codec, Scan(codec, Concat(first)), last);
      }
    } else {
      assert FirstTurn([]) == Ended(Waiting);
    }
  }

  lemma ContinueCloses(codec: Codec, s: Scanned, chunk: Bytes)
    requires !Terminates(s.found)
    ensures Feed(codec, Closing(s), chunk) == Closing(Continue(codec, s, chunk))
  {
  }

  lemma {:induction false} ReadsAll(codec: Codec, chunks: seq<Bytes>)
    requires !Terminates(Scan(codec, Concat(chunks)).found) && !MeetsCountFromEnd(Concat(chunks))
    ensures ChunksRead(codec, chunks) == |chunks| && BytesRead(codec, chunks) == Concat(chunks)
  {
    assert chunks[..|chunks|] == chunks;
    if chunks != [] {
      var first, last := chunks[..|chunks| - 1], chunks[|chunks| - 1];
      ScanSplits(codec, Concat(first), last);
      if Terminates(Scan(codec, Concat(first)).found) {
        PrefixTerminates(Scan(codec, Concat(first)).found, Scan(codec, Concat(chunks)).found);
      }
    }
  }

  lemma PrefixTerminates(a: seq<Message>, b: seq<Message>)
    requires a <= b && Terminates(a)
    ensures Terminates(b)
  {
    var i :| 0 <= i < |a| && EndsSession(a[i]);
    assert EndsSession(b[i]);
  }

  lemma {:induction false} ReadTerminates(codec: Codec, chunks: seq<Bytes>)
    requires Terminates(Scan(codec, Concat(chunks)).found)
    ensures Terminates(Scan(codec, BytesRead(codec, chunks)).found)
  {
    if ChunksRead(codec, chunks) == |chunks| {
      assert chunks[..|chunks|] == chunks;
    } else {
      var first := chunks[..|chunks| - 1];
      ReadTerminates(codec, first);
      assert chunks[..ChunksRead(codec, first)] == first[..ChunksRead(codec, first)];
    }
  }

  /** Reading stops after the first chunk with which the event is found. */
  lemma {:induction false} ChunksReadIsFirst(codec: Codec, chunks: seq<Bytes>, j: nat)
    requires !MeetsCountFromEnd(Concat(chunks)) && j < ChunksRead(codec, chunks)
    ensures !Terminates(Scan(codec, Concat(chunks[..j])).found)
  {
    var first := chunks[..|chunks| - 1];
    assert chunks[..j] == first[..j];
    ScanSplits(codec, Concat(first), chunks[|chunks| - 1]);
    if Terminates(Scan(codec, Concat(first)).found) {
      ChunksReadIsFirst(codec, first, j);
    } else if Terminates(Scan(codec, Concat(first[..j])).found) {
      ConcatPrefix(first, j);
      ScanGrows(codec, Concat(first), |Concat(first[..j])|, |Concat(first)|);
      assert Concat(first)[..|Concat(first)|] == Concat(first);
      PrefixTerminates(Scan(codec, Concat(first[..j])).found, Scan(codec, Concat(first)).found);
    }
  }

  lemma {:induction false} ConcatPrefix(chunks: seq<Bytes>, j: nat)
    requires j <= |chunks|
    ensures |Concat(chunks[..j])| <= |Concat(chunks)|
    ensures Concat(chunks[..j]) == Concat(chunks)[..|Concat(chunks[..j])|]
  {
    if j == |chunks| {
      assert chunks[..j] == chunks;
    } else {
      var first := chunks[..|chunks| - 1];
      assert chunks[..j] == first[..j];
      ConcatPrefix(first, j);
    }
  }

  // ---------------------------------------------------------------- where messages end

  /** How many bytes it takes to find the first i + 1 messages. */
  function EndOf(codec: Codec, stream: Bytes, i: nat, from: nat := 0): (k: nat)
    requires from <= |stream|
    ensures from <= k <= |stream|
    ensures forall j {:trigger Scan(codec, stream[..j])} :: from <= j < k ==> |Scan(codec, stream[..j]).found| <= i
    ensures k < |stream| ==> |Scan(codec, stream[..k]).found| > i
    decreases |stream| - from
  {
    if from == |stream| || |Scan(codec, stream[..from]).found| > i then from else EndOf(codec, stream, i, from + 1)
  }

  /** The bytes up to k hold more than i messages exactly if k is past the end of the i-th. */
  lemma FoundBy(codec: Codec, stream: Bytes, i: nat, k: nat)
    requires !MeetsCountFromEnd(stream) && i < |Scan(codec, stream).found| && k <= |stream|
    ensures |Scan(codec, stream[..k]).found| > i <==> k >= EndOf(codec, stream, i)
    ensures Scan(codec, stream[..k]).found <= Scan(codec, stream).found
  {
    assert stream[..|stream|] == stream;
    ScanGrows(codec, stream, k, |stream|);
    var e := EndOf(codec, stream, i);
    if k >= e { ScanGrows(codec, stream, e, k); }
  }

  /** No JSON text is empty. */
  predicate EmptyIsNoText(codec: Codec) {
    codec.parse([]) == None
  }

  /** A buffer that ends where its first header does holds no message. */
  lemma {:induction false} HeaderOnly(codec: Codec, buf: Bytes)
    requires EmptyIsNoText(codec) && !MeetsCountFromEnd(buf)
    requires forall j: nat :: SeparatorAt(buf, j) ==> j + 4 == |buf|
    ensures Scan(codec, buf).found == []
    decreases |buf|
  {
    NoCountFromEnd(buf);
    var t := FirstTurn(buf);
    if t.Again? && |t.rest| < |buf| {
      var d := |buf| - |t.rest|;
      forall j: nat | SeparatorAt(t.rest, j) ensures j + 4 == |t.rest| {
        assert SeparatorAt(buf, d + j);
      }
      HeaderOnly(codec, t.rest);
    }
  }

  /** With one more byte a buffer that waits for more gives one message at most. */
  lemma OneMoreByte(codec: Codec, buf: Bytes, x: Byte)
    requires EmptyIsNoText(codec) && FirstTurn(buf) == Ended(Waiting) && !MeetsCountFromEnd(buf + [x])
    ensures |Scan(codec, buf + [x]).found| <= 1
  {
    var more := buf + [x];
    var i := FindSeparator(buf, 0);
    if i == -1 {
      assert forall j: nat :: j + 4 <= |buf| ==> (SeparatorAt(more, j) <==> SeparatorAt(buf, j));
      HeaderOnly(codec, more);
    } else {
      SeparatorExtends(buf, [x]);
      assert more[..i + 4] == buf[..i + 4];
      if FirstTurn(more).Again? { assert FirstTurn(more).rest == [] && FirstTurn([]) == Ended(Waiting); }
    }
  }

  lemma {:induction false} LeftWaits(codec: Codec, buf: Bytes)
    requires Scan(codec, buf).status.Waiting?
    ensures FirstTurn(Scan(codec, buf).left) == Ended(Waiting)
    decreases |buf|
  {
    if FirstTurn(buf).Again? { LeftWaits(codec, FirstTurn(buf).rest); }
  }

  /** No two messages end at the same byte. */
  lemma MessagesEndOneByOne(codec: Codec, stream: Bytes, k: nat)
    requires EmptyIsNoText(codec) && !MeetsCountFromEnd(stream) && k < |stream|
    ensures |Scan(codec, stream[..k + 1]).found| <= |Scan(codec, stream[..k]).found| + 1
  {
    assert stream == stream[..k + 1] + stream[k + 1..];
    ScanSplits(codec, stream[..k + 1], stream[k + 1..]);
    assert stream[..k + 1] == stream[..k] + [stream[k]];
    ScanSplits(codec, stream[..k], [stream[k]]);
    if Scan(codec, stream[..k]).status.Waiting? {
      LeftWaits(codec, stream[..k]);
      OneMoreByte(codec, Scan(codec, stream[..k]).left, stream[k]);
    }
  }

  lemma FoundAtEnd(codec: Codec, stream: Bytes, i: nat)
    requires EmptyIsNoText(codec) && !MeetsCountFromEnd(stream) && i < |Scan(codec, stream).found|
    ensures EndOf(codec, stream, i) > 0
    ensures |Scan(codec, stream[..EndOf(codec, stream, i)]).found| == i + 1
  {
    var e := EndOf(codec, stream, i);
    FoundBy(codec, stream, i, e);
    assert stream[..0] == [] && FirstTurn([]) == Ended(Waiting);
    MessagesEndOneByOne(codec, stream, e - 1);
  }

  // ---------------------------------------------------------------- where it matters

  /** The first event that ends the session; |ms| if there is none. */
  function FirstEnd(ms: seq<Message>): (i: nat)
    ensures i <= |ms| && !Terminates(ms[..i]) && (i < |ms| ==> EndsSession(ms[i]))
    ensures i < |ms| <==> Terminates(ms)
  {
    if ms == [] then 0
    else if EndsSession(ms[0]) then assert ms[..0] == []; 0
    else
      var i := FirstEnd(ms[1..]);
      assert ms[1..][..i] == ms[1..i + 1];
      assert forall j :: 0 <= j < |ms| - 1 ==> ms[j + 1] == ms[1..][j];
      i + 1
  }

  lemma PrefixFirstEnd(ms: seq<Message>, part: seq<Message>)
    requires part <= ms
    ensures Terminates(part) <==> FirstEnd(ms) < |part|
  {
    var i := FirstEnd(ms);
    if i < |part| { assert EndsSession(part[i]); }
    else { assert forall j :: 0 <= j < |part| ==> part[j] == ms[..i][j]; }
  }

  /** The chunks of a stream as they may arrive: none is empty or longer than `limit`. */
  predicate IsCut(chunks: seq<Bytes>, stream: Bytes, limit: nat) {
    Concat(chunks) == stream && forall i :: 0 <= i < |chunks| ==> 0 < |chunks[i]| <= limit
  }

  /** Cuts of the stream into chunks of at most this length all lead to the same messages. */
  ghost predicate CutsAgree(codec: Codec, stream: Bytes, limit: nat) {
    forall c, d :: IsCut(c, stream, limit) && IsCut(d, stream, limit) ==>
      FeedAll(codec, c).found == FeedAll(codec, d).found
  }

  /** A message follows the first event that ends the session, so closely that one chunk can hold the ends of both. */
  predicate CanBeLost(codec: Codec, stream: Bytes, limit: nat) {
    var ms := Scan(codec, stream).found;
    var i := FirstEnd(ms);
    i + 1 < |ms| && EndOf(codec, stream, i + 1) < EndOf(codec, stream, i) + limit
  }

  /** The event that ends the session is found with the bytes up to its end. */
  lemma EndReached(codec: Codec, stream: Bytes, k: nat)
    requires !MeetsCountFromEnd(stream) && Terminates(Scan(codec, stream).found) && k <= |stream|
    ensures var e := EndOf(codec, stream, FirstEnd(Scan(codec, stream).found));
      Terminates(Scan(codec, stream[..k]).found) <==> e <= k
  {
    FoundBy(codec, stream, FirstEnd(Scan(codec, stream).found), k);
    PrefixFirstEnd(Scan(codec, stream).found, Scan(codec, stream[..k]).found);
  }

  /** With one chunk less than is read, that end is not reached. */
  lemma LastChunkReaches(codec: Codec, chunks: seq<Bytes>)
    requires !MeetsCountFromEnd(Concat(chunks)) && Terminates(Scan(codec, Concat(chunks)).found)
    requires ChunksRead(codec, chunks) > 0
    ensures |Concat(chunks[..ChunksRead(codec, chunks) - 1])|
            < EndOf(codec, Concat(chunks), FirstEnd(Scan(codec, Concat(chunks)).found))
  {
    var j := ChunksRead(codec, chunks) - 1;
    ConcatPrefix(chunks, j);
    ChunksReadIsFirst(codec, chunks, j);
    EndReached(codec, Concat(chunks), |Concat(chunks[..j])|);
  }

  lemma ConcatLast(chunks: seq<Bytes>, k: nat)
    requires 0 < k <= |chunks|
    ensures Concat(chunks[..k]) == Concat(chunks[..k - 1]) + chunks[k - 1]
  {
    assert chunks[..k][..k - 1] == chunks[..k - 1];
  }

  lemma SomeChunkIsRead(codec: Codec, chunks: seq<Bytes>)
    requires Terminates(Scan(codec, BytesRead(codec, chunks)).found)
    ensures ChunksRead(codec, chunks) > 0
  {
    assert FirstTurn([]) == Ended(Waiting);
  }

  /** How many bytes are read of a stream that ends the session: less than one chunk past the end of that event. */
  lemma BytesReadPastEnd(codec: Codec, stream: Bytes, chunks: seq<Bytes>, limit: nat)
    requires !MeetsCountFromEnd(stream) && IsCut(chunks, stream, limit) && Terminates(Scan(codec, stream).found)
    ensures var e, n := EndOf(codec, stream, FirstEnd(Scan(codec, stream).found)), |BytesRead(codec, chunks)|;
      e <= n < e + limit && n <= |stream| && BytesRead(codec, chunks) == stream[..n]
  {
    ConcatPrefix(chunks, ChunksRead(codec, chunks));
    ReadTerminates(codec, chunks);
    EndReached(codec, stream, |BytesRead(codec, chunks)|);
    SomeChunkIsRead(codec, chunks);
    LastChunkReaches(codec, chunks);
    ConcatLast(chunks, ChunksRead(codec, chunks));
  }

  lemma FoundInCut(codec: Codec, stream: Bytes, chunks: seq<Bytes>, limit: nat) returns (n: nat)
    requires !MeetsCountFromEnd(stream) && IsCut(chunks, stream, limit) && Terminates(Scan(codec, stream).found)
    ensures var e := EndOf(codec, stream, FirstEnd(Scan(codec, stream).found)); e <= n < e + limit && n <= |stream|
    ensures n == |BytesRead(codec, chunks)| && FeedAll(codec, chunks).found == Scan(codec, stream[..n]).found
  {
    n := |BytesRead(codec, chunks)|;
    ReadsAsOne(codec, chunks);
    BytesReadPastEnd(codec, stream, chunks, limit);
  }

  lemma FoundUpTo(codec: Codec, stream: Bytes, i: nat, n: nat)
    requires !MeetsCountFromEnd(stream) && i < |Scan(codec, stream).found| && EndOf(codec, stream, i) <= n <= |stream|
    requires i + 1 < |Scan(codec, stream).found| ==> n < EndOf(codec, stream, i + 1)
    ensures Scan(codec, stream[..n]).found == Scan(codec, stream).found[..i + 1]
  {
    FoundBy(codec, stream, i, n);
    if i + 1 < |Scan(codec, stream).found| { FoundBy(codec, stream, i + 1, n); }
  }

  /** What is dispatched if no message can be lost: all up to the event that ends the session. */
  lemma DispatchedUnlessLost(codec: Codec, stream: Bytes, chunks: seq<Bytes>, limit: nat)
    requires !MeetsCountFromEnd(stream) && IsCut(chunks, stream, limit) && !CanBeLost(codec, stream, limit)
    ensures var ms := Scan(codec, stream).found;
      FeedAll(codec, chunks).found == if Terminates(ms) then ms[..FirstEnd(ms) + 1] else ms
  {
    var ms := Scan(codec, stream).found;
    if Terminates(ms) {
      var n := FoundInCut(codec, stream, chunks, limit);
      FoundUpTo(codec, stream, FirstEnd(ms), n);
    } else {
      ReadsAsOne(codec, chunks);
      ReadsAll(codec, chunks);
    }
  }

  /** Single bytes. */
  function Singles(stream: Bytes): (chunks: seq<Bytes>)
    ensures |chunks| == |stream| && forall i :: 0 <= i < |chunks| ==> |chunks[i]| == 1
  {
    seq(|stream|, i requires 0 <= i < |stream| => [stream[i]])
  }

  lemma {:induction false} ConcatSingles(stream: Bytes)
    ensures Concat(Singles(stream)) == stream
  {
    if stream != [] {
      var first := stream[..|stream| - 1];
      assert Singles(stream)[..|stream| - 1] == Singles(first);
      ConcatSingles(first);
    }
  }

  lemma {:induction false} ConcatAppend(c: seq<Bytes>, d: seq<Bytes>)
    ensures Concat(c + d) == Concat(c) + Concat(d)
  {
    if d == [] {
      assert c + d == c;
    } else {
      assert (c + d)[..|c + d| - 1] == c + d[..|d| - 1];
      ConcatAppend(c, d[..|d| - 1]);
    }
  }

  /** Cut into single bytes a stream gives nothing after the event that ends the session. */
  lemma SinglesStop(codec: Codec, stream: Bytes, chunks: seq<Bytes>)
    requires EmptyIsNoText(codec) && !MeetsCountFromEnd(stream) && Terminates(Scan(codec, stream).found)
    requires IsCut(chunks, stream, 1)
    ensures |FeedAll(codec, chunks).found| == FirstEnd(Scan(codec, stream).found) + 1
  {
    var n := FoundInCut(codec, stream, chunks, 1);
    var i := FirstEnd(Scan(codec, stream).found);
    FoundAtEnd(codec, stream, i);
    assert n == EndOf(codec, stream, i);
    assert |Scan(codec, stream[..n]).found| == i + 1;
  }

  /** A chunk that starts before the end of the event is read. */
  lemma ReadsAtLeast(codec: Codec, chunks: seq<Bytes>, k: nat)
    requires k < |chunks| && |Concat(chunks[..k])| < |BytesRead(codec, chunks)|
    ensures |Concat(chunks[..k + 1])| <= |BytesRead(codec, chunks)|
  {
    var n := ChunksRead(codec, chunks);
    if n <= k {
      assert chunks[..k][..n] == chunks[..n];
      ConcatPrefix(chunks[..k], n);
    } else {
      assert chunks[..n][..k + 1] == chunks[..k + 1];
      ConcatPrefix(chunks[..n], k + 1);
    }
  }

  /** Single bytes, but for one chunk from p to q. */
  function WithChunk(stream: Bytes, p: nat, q: nat): seq<Bytes>
    requires p < q <= |stream|
  {
    Singles(stream[..p]) + [stream[p..q]] + Singles(stream[q..])
  }

  lemma CutWithChunk(stream: Bytes, p: nat, q: nat, limit: nat)
    requires p < q <= |stream| && q - p <= limit
    ensures IsCut(WithChunk(stream, p, q), stream, limit)
    ensures Concat(WithChunk(stream, p, q)[..p]) == stream[..p]
    ensures Concat(WithChunk(stream, p, q)[..p + 1]) == stream[..q]
  {
    var c, d := Singles(stream[..p]) + [stream[p..q]], Singles(stream[q..]);
    ConcatSingles(stream[..p]);
    ConcatSingles(stream[q..]);
    ConcatAppend(c, d);
    assert c[..p] == Singles(stream[..p]) == (c + d)[..p] && c == (c + d)[..p + 1];
    assert stream[..p] + stream[p..q] == stream[..q];
    assert stream[..q] + stream[q..] == stream;
  }

  lemma LossShows(codec: Codec, stream: Bytes, limit: nat)
    requires EmptyIsNoText(codec) && !MeetsCountFromEnd(stream) && CanBeLost(codec, stream, limit)
    ensures !CutsAgree(codec, stream, limit)
  {
    var i := FirstEnd(Scan(codec, stream).found);
    var p, q := EndOf(codec, stream, i) - 1, EndOf(codec, stream, i + 1);
    FoundAtEnd(codec, stream, i);
    FoundAtEnd(codec, stream, i + 1);
    FoundBy(codec, stream, i, q);
    var chunks := WithChunk(stream, p, q);
    CutWithChunk(stream, p, q, limit);
    var n := FoundInCut(codec, stream, chunks, limit);
    ReadsAtLeast(codec, chunks, p);
    FoundBy(codec, stream, i + 1, n);
    ConcatSingles(stream);
    SinglesStop(codec, stream, Singles(stream));
    assert IsCut(Singles(stream), stream, limit);
  }

  /** Where the stream is cut makes no difference if and only if no message follows the first event that ends
      the session closely enough to end in the same chunk. */
  lemma CutsAgreeExactlyWhen(codec: Codec, stream: Bytes, limit: nat)
    requires EmptyIsNoText(codec) && !MeetsCountFromEnd(stream)
    ensures CutsAgree(codec, stream, limit) <==> !CanBeLost(codec, stream, limit)
  {
    if CanBeLost(codec, stream, limit) {
      LossShows(codec, stream, limit);
    } else {
      forall c, d | IsCut(c, stream, limit) && IsCut(d, stream, limit)
        ensures FeedAll(codec, c).found == FeedAll(codec, d).found
      {
        DispatchedUnlessLost(codec, stream, c, limit);
        DispatchedUnlessLost(codec, stream, d, limit);
      }
    }
  }

  /** With chunks of any length: if and only if no message at all follows that event. */
  lemma AnyCutsAgreeExactlyWhen(codec: Codec, stream: Bytes, limit: nat)
    requires EmptyIsNoText(codec) && !MeetsCountFromEnd(stream) && limit >= |stream|
    ensures CutsAgree(codec, stream, limit) <==> FirstEnd(Scan(codec, stream).found) + 1 >= |Scan(codec, stream).found|
  {
    CutsAgreeExactlyWhen(codec, stream, limit);
    var i := FirstEnd(Scan(codec, stream).found);
    if i + 1 < |Scan(codec, stream).found| { FoundAtEnd(codec, stream, i); }
  }
}
