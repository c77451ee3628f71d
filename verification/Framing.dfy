/** Content-Length framing (src/dap_mux/protocol.py), byte by byte. The body of a message is JSON text,
    of which only this is used: what is printed parses back. */
module Framing {
  import opened Messages

  type Byte = b: int | 0 <= b < 256
  type Bytes = seq<Byte>

  const CR: Byte := 13
  const LF: Byte := 10
  const SEPARATOR: Bytes := [CR, LF, CR, LF]
  /** "Content-Length:" */
  const FIELD_NAME: Bytes := [67, 111, 110, 116, 101, 110, 116, 45, 76, 101, 110, 103, 116, 104, 58]
  const SPACE: Byte := 32

  /** JSON text in UTF-8: json.dumps and json.loads. */
  datatype Codec = Codec(dump: Message -> Bytes, parse: Bytes -> Option<Message>)

  ghost predicate Lawful(codec: Codec) {
    forall m :: codec.parse(codec.dump(m)) == Some(m)
  }

  // ---------------------------------------------------------------- decimal numbers

  /** `str(n)` */
  function Decimal(n: nat): (digits: Bytes)
    ensures digits != [] && forall i :: 0 <= i < |digits| ==> IsDigit(digits[i])
  {
    if n < 10 then [48 + n] else Decimal(n / 10) + [48 + n % 10]
  }

  predicate IsDigit(b: Byte) { 48 <= b <= 57 }

  /** The value of digits, which single underscores may separate. */
  function ParseDigits(s: Bytes): Option<nat> {
    if s == [] || !IsDigit(s[|s| - 1]) then None
    else
      var rest := s[..|s| - 1];
      var d: int := s[|s| - 1] as int - 48;
      if rest == [] then Some(d)
      else
        match ParseDigits(if rest[|rest| - 1] == 95 then rest[..|rest| - 1] else rest)
        case None => None
        case Some(v) => Some(10 * v + d)
  }

  /** `int(s)` of stripped ASCII text; None is a ValueError. */
  function ParseInt(s: Bytes): Option<int> {
    if s != [] && (s[0] == 43 || s[0] == 45) then
      match ParseDigits(s[1..])
      case None => None
      case Some(v) =>
        var value: int := v;
        Some(if s[0] == 45 then -value else value)
    else
      match ParseDigits(s)
      case None => None
      case Some(v) => Some(v)
  }

  predicate IsWhitespace(b: Byte) { 9 <= b <= 13 || 28 <= b <= 32 }

  function Strip(s: Bytes): Bytes {
    if s != [] && IsWhitespace(s[0]) then Strip(s[1..])
    else if s != [] && IsWhitespace(s[|s| - 1]) then Strip(s[..|s| - 1])
    else s
  }

  lemma {:induction false} DecimalRoundTrip(n: nat)
    ensures ParseDigits(Decimal(n)) == Some(n)
  {
    if n >= 10 {
      DecimalRoundTrip(n / 10);
      var s := Decimal(n);
      assert s[..|s| - 1] == Decimal(n / 10);
    }
  }

  // ---------------------------------------------------------------- headers

  predicate SeparatorAt(buf: Bytes, i: nat) {
    i + 4 <= |buf| && buf[i] == CR && buf[i + 1] == LF && buf[i + 2] == CR && buf[i + 3] == LF
  }

  /** The first separator at or after `from`, or -1. */
  function FindSeparator(buf: Bytes, from: nat): (i: int)
    ensures i == -1 || from <= i
    ensures i >= 0 ==> SeparatorAt(buf, i) && forall j :: from <= j < i ==> !SeparatorAt(buf, j)
    ensures i == -1 ==> forall j :: from <= j ==> !SeparatorAt(buf, j)
    decreases |buf| - from
  {
    if from + 4 > |buf| then -1
    else if SeparatorAt(buf, from) then from
    else FindSeparator(buf, from + 1)
  }

  /** Where the line that starts at `from` ends: at the next CR LF, or at the end of the text. */
  function LineEnd(text: Bytes, from: nat): (end: nat)
    requires from <= |text|
    ensures from <= end <= |text|
    ensures end < |text| ==> end + 2 <= |text| && text[end] == CR && text[end + 1] == LF
    decreases |text| - from
  {
    if from + 2 > |text| then |text|
    else if text[from] == CR && text[from + 1] == LF then from
    else LineEnd(text, from + 1)
  }

  /** What follows "Content-Length:" on the first line that starts with it. */
  function FindLength(text: Bytes, from: nat): Option<Bytes>
    requires from <= |text|
    decreases |text| - from
  {
    var end := LineEnd(text, from);
    if FIELD_NAME <= text[from..end] then Some(text[from..end][|FIELD_NAME|..])
    else if end == |text| then None
    else FindLength(text, end + 2)
  }

  datatype Header =
    | Length(n: int)
    | NoLength    // no Content-Length line
    | BadHeader   // not ASCII, or no number: a ValueError

  predicate IsAscii(text: Bytes) {
    forall i :: 0 <= i < |text| ==> text[i] <= 127
  }

  function DecodeHeader(header: Bytes): Header {
    if !IsAscii(header) then BadHeader
    else
      match FindLength(header, 0)
      case None => NoLength
      case Some(text) =>
        match ParseInt(Strip(text))
        case None => BadHeader
        case Some(n) => Length(n)
  }

  // ---------------------------------------------------------------- messages

  function LengthHeader(n: nat): Bytes {
    FIELD_NAME + [SPACE] + Decimal(n) + SEPARATOR
  }

  /** `encode_message` */
  function Encode(codec: Codec, m: Message): Bytes {
    LengthHeader(|codec.dump(m)|) + codec.dump(m)
  }

  function EncodeAll(codec: Codec, ms: seq<Message>): Bytes {
    if ms == [] then [] else Encode(codec, ms[0]) + EncodeAll(codec, ms[1..])
  }

  datatype Read =
    | Got(m: Message, rest: Bytes)
    | Closed      // the stream ended: a ConnectionError or IncompleteReadError
    | Malformed   // a ValueError

  /** `read_message` on all the bytes that are still to come. */
  function ReadMessage(codec: Codec, stream: Bytes): Read {
    var i := FindSeparator(stream, 0);
    if i == -1 then Closed
    else
      match DecodeHeader(stream[..i + 4])
      case Length(n) => if n < 0 then Malformed else ReadBody(codec, stream[i + 4..], n)
      case _ => Malformed
  }

  function ReadBody(codec: Codec, stream: Bytes, n: nat): Read {
    if |stream| < n then Closed
    else
      match codec.parse(stream[..n])
      case None => Malformed
      case Some(m) => Got(m, stream[n..])
  }

  // ---------------------------------------------------------------- what follows does not matter

  lemma SeparatorExtends(a: Bytes, b: Bytes)
    requires FindSeparator(a, 0) >= 0
    ensures FindSeparator(a + b, 0) == FindSeparator(a, 0)
  {
    var i := FindSeparator(a, 0);
    assert SeparatorAt(a + b, i);
    assert forall j :: 0 <= j < i ==> (SeparatorAt(a, j) <==> SeparatorAt(a + b, j));
  }

  /** Once a message can be read, more bytes only stay behind it; and a malformed stream stays malformed. */
  lemma ReadExtends(codec: Codec, a: Bytes, b: Bytes)
    requires !ReadMessage(codec, a).Closed?
    ensures ReadMessage(codec, a + b) ==
            match ReadMessage(codec, a) case Got(m, rest) => Got(m, rest + b) case other => other
  {
    var i := FindSeparator(a, 0);
    SeparatorExtends(a, b);
    assert (a + b)[..i + 4] == a[..i + 4];
    assert (a + b)[i + 4..] == a[i + 4..] + b;
    var h := DecodeHeader(a[..i + 4]);
    if h.Length? && h.n >= 0 {
      assert (a[i + 4..] + b)[..h.n] == a[i + 4..][..h.n];
      assert (a[i + 4..] + b)[h.n..] == a[i + 4..][h.n..] + b;
    }
  }

  // ---------------------------------------------------------------- round trip

  lemma HeaderSeparator(n: nat, body: Bytes)
    ensures FindSeparator(LengthHeader(n) + body, 0) + 4 == |LengthHeader(n)|
  {
    var s := LengthHeader(n) + body;
    var i := |LengthHeader(n)| - 4;
    assert SeparatorAt(s, i);
    forall j | 0 <= j < i ensures !SeparatorAt(s, j) {
      assert s[j] == (FIELD_NAME + [SPACE] + Decimal(n))[j];
    }
  }

  lemma HeaderLine(n: nat)
    ensures LineEnd(LengthHeader(n), 0) == |LengthHeader(n)| - 4
  {
    var s := LengthHeader(n);
    var i := |s| - 4;
    assert s[i] == CR && s[i + 1] == LF;
    assert forall j :: 0 <= j < i ==> s[j] == (FIELD_NAME + [SPACE] + Decimal(n))[j];
    LineEndAt(s, 0, i);
  }

  lemma LineEndAt(text: Bytes, from: nat, i: nat)
    requires from <= i && i + 2 <= |text| && text[i] == CR && text[i + 1] == LF
    requires forall j :: from <= j < i ==> text[j] != CR
    ensures LineEnd(text, from) == i
    decreases i - from
  {
    if from < i { LineEndAt(text, from + 1, i); }
  }

  lemma HeaderDecodes(n: nat)
    ensures DecodeHeader(LengthHeader(n)) == Length(n)
  {
    var s, d := LengthHeader(n), Decimal(n);
    HeaderLine(n);
    var line := s[0..|s| - 4];
    assert line == FIELD_NAME + ([SPACE] + d);
    assert line[|FIELD_NAME|..] == [SPACE] + d;
    assert ([SPACE] + d)[1..] == d;
    assert Strip([SPACE] + d) == Strip(d) == d;
    DecimalRoundTrip(n);
    forall i | 0 <= i < |s| ensures s[i] <= 127 {
      assert s[i] in FIELD_NAME || s[i] == SPACE || s[i] in d || s[i] in SEPARATOR;
    }
  }

  /** A message can be read back from its encoding, and nothing after it is touched. */
  lemma EncodeReadsBack(codec: Codec, m: Message, rest: Bytes)
    requires Lawful(codec)
    ensures ReadMessage(codec, Encode(codec, m) + rest) == Got(m, rest)
  {
    var body := codec.dump(m);
    var h := LengthHeader(|body|);
    var s := Encode(codec, m) + rest;
    assert s == h + (body + rest);
    HeaderSeparator(|body|, body + rest);
    HeaderDecodes(|body|);
    assert s[..|h|] == h && s[|h|..] == body + rest;
    assert (body + rest)[..|body|] == body && (body + rest)[|body|..] == rest;
  }

  /** No encoding is a proper prefix of another. */
  lemma PrefixCode(codec: Codec, a: Message, b: Message)
    requires Lawful(codec) && Encode(codec, a) <= Encode(codec, b)
    ensures Encode(codec, a) == Encode(codec, b) && a == b
  {
    var x, y := Encode(codec, a), Encode(codec, b);
    assert y == x + y[|x|..];
    EncodeReadsBack(codec, a, y[|x|..]);
    EncodeReadsBack(codec, b, []);
    assert y + [] == y;
  }

  /** On a strict prefix of an encoding the reader fails for want of bytes, rather than returning a message. */
  lemma StrictPrefixIsIncomplete(codec: Codec, m: Message, cut: nat)
    requires Lawful(codec) && cut < |Encode(codec, m)|
    ensures ReadMessage(codec, Encode(codec, m)[..cut]) == Closed
  {
    var x := Encode(codec, m);
    assert x == x[..cut] + x[cut..];
    EncodeReadsBack(codec, m, []);
    assert x + [] == x;
    if !ReadMessage(codec, x[..cut]).Closed? {
      ReadExtends(codec, x[..cut], x[cut..]);
    }
  }

  // ---------------------------------------------------------------- client names

  /** "client-" */
  const CLIENT_PREFIX: Bytes := [99, 108, 105, 101, 110, 116, 45]

  function ClientName(c: ClientId): Bytes {
    CLIENT_PREFIX + Decimal(c + 1)
  }

  /** Numbering the clients names them apart: a client's number and its name are interchangeable. */
  lemma ClientNamesDiffer(c: ClientId, d: ClientId)
    requires ClientName(c) == ClientName(d)
    ensures c == d
  {
    assert ClientName(c)[|CLIENT_PREFIX|..] == Decimal(c + 1);
    assert ClientName(d)[|CLIENT_PREFIX|..] == Decimal(d + 1);
    DecimalRoundTrip(c + 1);
    DecimalRoundTrip(d + 1);
  }
}
