/** `read_message` and `DapConnection._read_loop` side by side, the round trip through each, and streams on
    which the latter loses something. */
module Readers {
  import opened Messages
  import opened Framing
  import opened Decoders
  import opened Chunks
  import opened Cuts

  // ---------------------------------------------------------------- the two readers agree

  lemma TurnGot(codec: Codec, stream: Bytes, headerEnd: nat, n: nat)
    requires headerEnd <= |stream| && ReadBody(codec, stream[headerEnd..], n).Got?
    ensures var r := ReadBody(codec, stream[headerEnd..], n);
      var t := TurnOf(stream, headerEnd, Length(n));
      t.Again? && t.rest == r.rest && Parsed(codec, t.body) == [r.m]
  {
    assert stream[headerEnd..][..n] == stream[headerEnd..headerEnd + n];
    assert stream[headerEnd..][n..] == stream[headerEnd + n..];
  }

  lemma ScanGot(codec: Codec, stream: Bytes)
    requires ReadMessage(codec, stream).Got?
    ensures var r := ReadMessage(codec, stream); Scan(codec, stream) == Prepend([r.m], Scan(codec, r.rest))
    ensures MeetsCountFromEnd(stream) <==> MeetsCountFromEnd(ReadMessage(codec, stream).rest)
  {
    var i := FindSeparator(stream, 0);
    TurnGot(codec, stream, i + 4, DecodeHeader(stream[..i + 4]).n);
    GotIsShorter(codec, stream);
  }

  lemma ReadAllNext(codec: Codec, stream: Bytes)
    requires ReadMessage(codec, stream).Got?
    ensures var r := ReadMessage(codec, stream);
      ReadAll(codec, stream) == ([r.m] + ReadAll(codec, r.rest).0, ReadAll(codec, r.rest).1) && |r.rest| < |stream|
  {
    GotIsShorter(codec, stream);
  }

  /** Scanning a stream finds what the stream reader reads, and goes on from where that failed. */
  lemma {:induction false} ScanReads(codec: Codec, stream: Bytes)
    ensures var r := ReadAll(codec, stream); Scan(codec, stream) == Prepend(r.0, Scan(codec, r.1))
    ensures MeetsCountFromEnd(stream) <==> MeetsCountFromEnd(ReadAll(codec, stream).1)
    decreases |stream|
  {
    if ReadMessage(codec, stream).Got? {
      var m, rest := ReadMessage(codec, stream).m, ReadMessage(codec, stream).rest;
      ReadAllNext(codec, stream);
      ScanGot(codec, stream);
      ScanReads(codec, rest);
      PrependAgain([m], ReadAll(codec, rest).0, Scan(codec, ReadAll(codec, rest).1));
    } else {
      assert Prepend([], Scan(codec, stream)) == Scan(codec, stream);
    }
  }

  lemma {:induction false} ReadAllFails(codec: Codec, stream: Bytes)
    ensures !ReadMessage(codec, ReadAll(codec, stream).1).Got?
    decreases |stream|
  {
    if ReadMessage(codec, stream).Got? {
      ReadAllNext(codec, stream);
      ReadAllFails(codec, ReadMessage(codec, stream).rest);
    }
  }

  /** However the bytes are cut, the chunked reader finds what the stream reader reads of the bytes that the
      former takes, which are all unless the session ends, and then goes on from where that failed. */
  lemma ReadersAgree(codec: Codec, chunks: seq<Bytes>)
    requires !MeetsCountFromEnd(Concat(chunks))
    ensures var r := ReadAll(codec, BytesRead(codec, chunks));
      FeedAll(codec, chunks) == Closing(Prepend(r.0, Scan(codec, r.1))) && !ReadMessage(codec, r.1).Got?
    ensures !Terminates(Scan(codec, Concat(chunks)).found) ==> BytesRead(codec, chunks) == Concat(chunks)
  {
    ReadsAsOne(codec, chunks);
    ScanReads(codec, BytesRead(codec, chunks));
    ReadAllFails(codec, BytesRead(codec, chunks));
    if !Terminates(Scan(codec, Concat(chunks)).found) { ReadsAll(codec, chunks); }
  }

  lemma EncodedScan(codec: Codec, ms: seq<Message>)
    requires Lawful(codec)
    ensures Scan(codec, EncodeAll(codec, ms)) == Scanned(ms, [], Waiting)
    ensures !MeetsCountFromEnd(EncodeAll(codec, ms))
  {
    ReadAllEncoded(codec, ms);
    ScanReads(codec, EncodeAll(codec, ms));
    assert FirstTurn([]) == Ended(Waiting);
    assert ms + [] == ms;
  }

  /** Round trip. The stream reader returns all messages that were encoded. The chunked reader, however the
      bytes are cut, returns all of them if none ends the session, and else the first ones up to the one that
      does at least. */
  lemma RoundTrip(codec: Codec, ms: seq<Message>, chunks: seq<Bytes>)
    requires Lawful(codec) && Concat(chunks) == EncodeAll(codec, ms)
    ensures ReadAll(codec, Concat(chunks)) == (ms, [])
    ensures !Terminates(ms) ==> FeedAll(codec, chunks) == Scanned(ms, [], Waiting)
    ensures Terminates(ms) ==>
      FeedAll(codec, chunks).status == Disconnected && ms[..FirstEnd(ms) + 1] <= FeedAll(codec, chunks).found <= ms
  {
    ReadAllEncoded(codec, ms);
    EncodedScan(codec, ms);
    ReadsAsOne(codec, chunks);
    if Terminates(ms) {
      var n := ChunksRead(codec, chunks);
      ConcatPrefix(chunks, n);
      FoundOf(codec, Concat(chunks), |BytesRead(codec, chunks)|);
      ReadTerminates(codec, chunks);
      PrefixFirstEnd(ms, Scan(codec, BytesRead(codec, chunks)).found);
    } else {
      ReadsAll(codec, chunks);
    }
  }

  lemma FoundOf(codec: Codec, stream: Bytes, n: nat)
    requires !MeetsCountFromEnd(stream) && n <= |stream| && Scan(codec, stream).status.Waiting?
    ensures Scan(codec, stream[..n]).found <= Scan(codec, stream).found && Scan(codec, stream[..n]).status.Waiting?
  {
    assert stream[..|stream|] == stream;
    ScanGrows(codec, stream, n, |stream|);
  }

  // ---------------------------------------------------------------- what can be lost

  /** A message behind the event that ends the session comes through in one chunk, and is lost in two. */
  lemma AMessageThatCanBeLost(codec: Codec, end: Message, m: Message)
    requires Lawful(codec) && EndsSession(end)
    ensures FeedAll(codec, [Encode(codec, end) + Encode(codec, m)]) == Scanned([end, m], [], Disconnected)
    ensures FeedAll(codec, [Encode(codec, end), Encode(codec, m)]) == Scanned([end], [], Disconnected)
  {
    var x, y := Encode(codec, end), Encode(codec, m);
    assert EncodeAll(codec, [m]) == y + [] == y;
    assert EncodeAll(codec, [end]) == x + [] == x;
    assert EncodeAll(codec, [end, m]) == x + EncodeAll(codec, [m]) by { assert [end, m][1..] == [m]; }
    EncodedScan(codec, [end]);
    EncodedScan(codec, [end, m]);
    assert EndsSession([end][0]) && EndsSession([end, m][0]);
    OneChunk(codec, x);
    OneChunk(codec, x + y);
    assert [x, y][..1] == [x];
  }

  lemma OneChunk(codec: Codec, chunk: Bytes)
    ensures FeedAll(codec, [chunk]) == Closing(Scan(codec, chunk))
  {
    assert [chunk][..0] == [];
    assert [] + chunk == chunk;
    assert Prepend([], Scan(codec, chunk)) == Scan(codec, chunk);
  }

  // ---------------------------------------------------------------- negative lengths

  /** "Content-Length:-20" to "Content-Length:-29", with the separator. */
  function NegativeHeader(d: nat): Bytes
    requires d < 10
  {
    FIELD_NAME + [45, 50, 48 + d] + SEPARATOR
  }

  lemma NegativeHeaderDecodes(d: nat)
    requires d < 10
    ensures |NegativeHeader(d)| == 22 && FindSeparator(NegativeHeader(d), 0) == 18
    ensures DecodeHeader(NegativeHeader(d)) == Length(-20 - d)
  {
    var digits: Bytes := [45, 50, 48 + d];
    var buf := NegativeHeader(d);
    forall j | 0 <= j < 18 ensures !SeparatorAt(buf, j) && buf[j] != CR {
      assert buf[j] == (FIELD_NAME + digits)[j];
    }
    assert SeparatorAt(buf, 18);
    LineEndAt(buf, 0, 18);
    assert buf[0..18] == FIELD_NAME + digits;
    assert (FIELD_NAME + digits)[|FIELD_NAME|..] == digits;
    assert Strip(digits) == digits;
    assert digits[1..] == [50, 48 + d] && [50, 48 + d][..1] == [50];
    assert ParseDigits([50]) == Some(2);
    assert ParseDigits([50, 48 + d]) == Some(20 + d);
    forall i | 0 <= i < |buf| ensures buf[i] <= 127 {
      assert buf[i] in FIELD_NAME || buf[i] in digits || buf[i] in SEPARATOR;
    }
  }

  /** "Content-Length:-22" announces its end at its own start: whatever follows, the inner loop never ends. */
  lemma AHeaderThatStaysInTheBuffer(codec: Codec, more: Bytes)
    ensures Scan(codec, NegativeHeader(2) + more).status == Stuck && !Ends(NegativeHeader(2) + more)
  {
    var header := NegativeHeader(2);
    NegativeHeaderDecodes(2);
    SeparatorExtends(header, more);
    assert (header + more)[..22] == header;
    LoopEndsExactlyWhen(codec, header + more);
  }

  lemma NoSeparator(buf: Bytes)
    requires forall i :: 0 <= i < |buf| ==> buf[i] != CR
    ensures FindSeparator(buf, 0) == -1
  {
  }

  /** That header with something behind it but a byte at the end. */
  lemma CutsOutText(text: Bytes, x: Byte)
    ensures FirstTurn(NegativeHeader(3) + (text + [x])) == Again(Some(text), [x])
  {
    var header := NegativeHeader(3);
    var whole := header + (text + [x]);
    NegativeHeaderDecodes(3);
    SeparatorExtends(header, text + [x]);
    assert whole[..22] == header[..22] == header;
    assert whole[22..|whole| - 1] == text;
  }

  lemma CutsOutNothing()
    ensures FirstTurn(NegativeHeader(3)) == Again(Some([]), [LF])
  {
    var header := NegativeHeader(3);
    NegativeHeaderDecodes(3);
    assert header[..22] == header;
  }

  lemma ScanNothing(codec: Codec, buf: Bytes)
    requires forall i :: 0 <= i < |buf| ==> buf[i] != CR
    ensures Scan(codec, buf) == Scanned([], buf, Waiting)
  {
    NoSeparator(buf);
  }

  lemma InOneChunk(codec: Codec, m: Message)
    requires Lawful(codec)
    ensures FeedAll(codec, [NegativeHeader(3) + (codec.dump(m) + [SPACE])]).found == [m]
  {
    CutsOutText(codec.dump(m), SPACE);
    ScanNothing(codec, [SPACE]);
    OneChunk(codec, NegativeHeader(3) + (codec.dump(m) + [SPACE]));
  }

  lemma InTwoChunks(codec: Codec, text: Bytes)
    requires EmptyIsNoText(codec) && forall i :: 0 <= i < |text| ==> text[i] != CR
    ensures FeedAll(codec, [NegativeHeader(3), text]).found == []
  {
    var header := NegativeHeader(3);
    CutsOutNothing();
    ScanNothing(codec, [LF]);
    OneChunk(codec, header);
    ScanNothing(codec, [LF] + text);
    FeedNext(codec, [header, text], 1);
    assert [header, text][..1] == [header] && [header, text][..2] == [header, text];
  }

  /** "Content-Length:-23" announces its end at the last byte of the buffer, so that what it cuts out depends on
      how many bytes have arrived: a text behind it is a message in one chunk, and none in two. */
  lemma ACutThatMatters(codec: Codec, m: Message)
    requires Lawful(codec) && EmptyIsNoText(codec) && forall i :: 0 <= i < |codec.dump(m)| ==> codec.dump(m)[i] != CR
    ensures FeedAll(codec, [NegativeHeader(3) + (codec.dump(m) + [SPACE])]).found == [m]
    ensures FeedAll(codec, [NegativeHeader(3), codec.dump(m) + [SPACE]]).found == []
  {
    InOneChunk(codec, m);
    InTwoChunks(codec, codec.dump(m) + [SPACE]);
  }
}
