/** `read_message`, which takes the header byte by byte from a stream (src/dap_mux/protocol.py), and the loop
    that calls it again and again (src/dap_mux/client.py). */
module Decoders {
  import opened Messages
  import opened Framing

  // ---------------------------------------------------------------- the stream reader

  /** An asyncio.StreamReader: what is still to come before the end of the stream. */
  class StreamReader {
    var data: Bytes

    constructor (data: Bytes)
      ensures this.data == data
    {
      this.data := data;
    }

    /** `read(1)`: no byte at the end of the stream. */
    method ReadByte() returns (chunk: Bytes)
      modifies this
      ensures old(data) == [] ==> chunk == [] && data == []
      ensures old(data) != [] ==> chunk == old(data)[..1] && data == old(data)[1..]
    {
      if data == [] { return []; }
      chunk, data := data[..1], data[1..];
    }

    /** `readexactly(n)`; None is an IncompleteReadError, after which the stream is exhausted. */
    method ReadExactly(n: nat) returns (r: Option<Bytes>)
      modifies this
      ensures n <= |old(data)| ==> r == Some(old(data)[..n]) && data == old(data)[n..]
      ensures n > |old(data)| ==> r == None && data == []
    {
      if n > |data| { data := []; return None; }
      r, data := Some(data[..n]), data[n..];
    }

    /** `_read_header`; None is a ConnectionError. */
    method ReadHeader() returns (header: Option<Bytes>)
      modifies this
      ensures FindSeparator(old(data), 0) == -1 ==> header == None && data == []
      ensures var i := FindSeparator(old(data), 0);
        i >= 0 ==> header == Some(old(data)[..i + 4]) && data == old(data)[i + 4..]
    {
      var buf: Bytes := [];
      while FindSeparator(buf, 0) == -1
        invariant buf + data == old(data)
        invariant forall j: nat :: SeparatorAt(buf, j) ==> j + 4 == |buf|
        decreases |data|
      {
        var chunk := ReadByte();
        if chunk == [] {
          assert buf == old(data);
          return None;
        }
        assert buf + chunk + data == old(data);
        forall j: nat | SeparatorAt(buf + chunk, j) ensures j + 4 == |buf + chunk| {
          if j + 4 < |buf + chunk| { assert SeparatorAt(buf, j); }
        }
        buf := buf + chunk;
      }
      SeparatorExtends(buf, data);
      assert old(data)[..|buf|] == buf && old(data)[|buf|..] == data;
      return Some(buf);
    }

    /** `read_message` */
    method Read(codec: Codec) returns (r: Read)
      modifies this
      ensures r == ReadMessage(codec, old(data))
      ensures r.Got? ==> data == r.rest
    {
      var header := ReadHeader();
      if header.None? { return Closed; }
      match DecodeHeader(header.value)
      case Length(n) =>
        if n < 0 { return Malformed; }
        var body := ReadExactly(n);
        if body.None? { return Closed; }
        match codec.parse(body.value) {
          case None => return Malformed;
          case Some(m) => return Got(m, data);
        }
      case _ => return Malformed;
    }

    /** `_read_loop`: read messages until that fails. */
    method ReadMessages(codec: Codec) returns (ms: seq<Message>)
      modifies this
      ensures ms == ReadAll(codec, old(data)).0
    {
      ms := [];
      while true
        invariant ms + ReadAll(codec, data).0 == ReadAll(codec, old(data)).0
        decreases |data|
      {
        GotIsShorter(codec, data);
        var r := Read(codec);
        if !r.Got? { return; }
        ms := ms + [r.m];
      }
    }
  }

  // ---------------------------------------------------------------- all messages of a stream

  /** The messages that `read_message`, called again and again, returns before it fails, and what is left then. */
  function ReadAll(codec: Codec, stream: Bytes): (seq<Message>, Bytes)
    decreases |stream|
  {
    match ReadMessage(codec, stream)
    case Got(m, rest) =>
      if |rest| < |stream| then
        var r := ReadAll(codec, rest);
        ([m] + r.0, r.1)
      else ([], stream)
    case _ => ([], stream)
  }

  lemma GotIsShorter(codec: Codec, stream: Bytes)
    ensures ReadMessage(codec, stream).Got? ==> |ReadMessage(codec, stream).rest| < |stream|
  {
  }

  lemma {:induction false} ReadAllEncoded(codec: Codec, ms: seq<Message>)
    requires Lawful(codec)
    ensures ReadAll(codec, EncodeAll(codec, ms)) == (ms, [])
  {
    if ms != [] {
      var rest := EncodeAll(codec, ms[1..]);
      EncodeReadsBack(codec, ms[0], rest);
      GotIsShorter(codec, Encode(codec, ms[0]) + rest);
      ReadAllEncoded(codec, ms[1..]);
      assert [ms[0]] + ms[1..] == ms;
    }
  }
}
