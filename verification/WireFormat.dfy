/** The bytes on the wire as text: what the encoder writes, and which headers and messages the decoders accept. */
module WireFormat {
  import opened Messages
  import opened Framing

  /** The bytes are the characters of the text. */
  predicate Spells(bytes: Bytes, text: string) {
    |bytes| == |text| && forall i :: 0 <= i < |bytes| ==> bytes[i] as int == text[i] as int
  }

  lemma NameIsSpelled()
    ensures Spells(FIELD_NAME, "Content-Length:") && Spells(FIELD_NAME + [SPACE], "Content-Length: ")
    ensures Spells(SEPARATOR, "\r\n\r\n")
  {
    var text := "Content-Length: ";
    assert text[0] == 'C' && text[1] == 'o' && text[2] == 'n' && text[3] == 't' && text[4] == 'e';
    assert text[5] == 'n' && text[6] == 't' && text[7] == '-' && text[8] == 'L' && text[9] == 'e';
    assert text[10] == 'n' && text[11] == 'g' && text[12] == 't' && text[13] == 'h' && text[14] == ':';
    assert text[15] == ' ' && "Content-Length:" == text[..15];
  }

  lemma SpelledAlike(a: Bytes, b: Bytes, text: string)
    requires Spells(a, text) && Spells(b, text)
    ensures a == b
  {
  }

  // ---------------------------------------------------------------- numbers

  /** n without its last i digits. */
  function Shifted(n: nat, i: nat): nat {
    if i == 0 then n else Shifted(n / 10, i - 1)
  }

  /** A number is written with its decimal digits, the units last, and without leading zeros. */
  lemma {:induction false} DecimalByPlace(n: nat, i: nat)
    requires i < |Decimal(n)|
    ensures Decimal(n)[|Decimal(n)| - 1 - i] as int == '0' as int + Shifted(n, i) % 10
    ensures i > 0 ==> Shifted(n, i) > 0
    ensures i + 1 == |Decimal(n)| ==> Shifted(n, i) < 10
  {
    if n >= 10 && i > 0 {
      DecimalByPlace(n / 10, i - 1);
      assert Decimal(n)[|Decimal(n)| - 1 - i] == Decimal(n / 10)[|Decimal(n / 10)| - 1 - (i - 1)];
    }
  }

  /** A sign may stand before the digits. */
  lemma SignedNumber(n: nat, sign: Byte)
    ensures ParseInt(Decimal(n)) == Some(n)
    ensures sign as int == '-' as int ==> ParseInt([sign] + Decimal(n)) == Some(-(n as int))
    ensures sign as int == '+' as int ==> ParseInt([sign] + Decimal(n)) == Some(n)
  {
    DecimalRoundTrip(n);
    assert ([sign] + Decimal(n))[1..] == Decimal(n);
  }

  /** A character that is no digit, sign or underscore makes the text no number. */
  lemma {:induction false} NotANumber(s: Bytes, i: nat)
    requires i < |s| && !IsDigit(s[i]) && s[i] != 95
    ensures ParseDigits(s) == None
    ensures s[i] != 43 && s[i] != 45 ==> ParseInt(s) == None
  {
    var rest := s[..|s| - 1];
    if i < |rest| {
      NotANumber(rest, i);
      if rest[|rest| - 1] == 95 { NotANumber(rest[..|rest| - 1], i); }
    }
    if i > 0 && (s[0] == 43 || s[0] == 45) { NotDigits(s[1..], i - 1); }
  }

  lemma {:induction false} NotDigits(s: Bytes, i: nat)
    requires i < |s| && !IsDigit(s[i]) && s[i] != 95
    ensures ParseDigits(s) == None
  {
    var rest := s[..|s| - 1];
    if i < |rest| { NotDigits(if rest[|rest| - 1] == 95 then rest[..|rest| - 1] else rest, i); }
  }

  /** White space around a text that neither starts nor ends with such is stripped. */
  lemma {:induction false} StripsAround(before: Bytes, s: Bytes, after: Bytes)
    requires forall i :: 0 <= i < |before| ==> IsWhitespace(before[i])
    requires forall i :: 0 <= i < |after| ==> IsWhitespace(after[i])
    requires s != [] && !IsWhitespace(s[0]) && !IsWhitespace(s[|s| - 1])
    ensures Strip(before + s + after) == s
    decreases |before| + |after|
  {
    var all := before + s + after;
    if before != [] {
      assert all[0] == before[0] && all[1..] == before[1..] + s + after;
      StripsAround(before[1..], s, after);
    } else if after != [] {
      assert all[0] == s[0] && all[|all| - 1] == after[|after| - 1];
      assert all[..|all| - 1] == before + s + after[..|after| - 1];
      StripsAround(before, s, after[..|after| - 1]);
    } else {
      assert all == s;
    }
  }

  // ---------------------------------------------------------------- headers

  /** Every message is written as "Content-Length: ", the length of its text in bytes, an empty line and the text. */
  lemma EncodingByText(codec: Codec, m: Message)
    ensures var e, digits, body := Encode(codec, m), Decimal(|codec.dump(m)|), codec.dump(m);
      && |e| == 16 + |digits| + 4 + |body|
      && Spells(e[..16], "Content-Length: ") && e[16..16 + |digits|] == digits
      && Spells(e[16 + |digits|..16 + |digits| + 4], "\r\n\r\n") && e[16 + |digits| + 4..] == body
  {
    NameIsSpelled();
    var e, digits, body := Encode(codec, m), Decimal(|codec.dump(m)|), codec.dump(m);
    assert e == FIELD_NAME + [SPACE] + digits + SEPARATOR + body;
    assert e[..16] == FIELD_NAME + [SPACE];
    assert e[16 + |digits|..16 + |digits| + 4] == SEPARATOR;
  }

  lemma LineEndsFirst(text: Bytes, from: nat, i: nat)
    requires from <= i && i + 2 <= |text| && text[i] == CR && text[i + 1] == LF
    requires forall j :: from <= j < i ==> !(text[j] == CR && text[j + 1] == LF)
    ensures LineEnd(text, from) == i
    decreases i - from
  {
    if from < i { LineEndsFirst(text, from + 1, i); }
  }

  /** ASCII text without CR LF in it or at its end. */
  predicate IsOneLine(line: Bytes) {
    forall i :: 0 <= i < |line| ==> line[i] <= 127 && !(line[i] == CR && (line + [CR])[i + 1] == LF)
  }

  lemma NameIsOneLine(value: Bytes)
    requires IsOneLine(value)
    ensures IsOneLine(FIELD_NAME + value)
  {
    var line := FIELD_NAME + value;
    forall j | 0 <= j < |line| ensures line[j] <= 127 && !(line[j] == CR && (line + [CR])[j + 1] == LF) {
      if j < |FIELD_NAME| {
        assert line[j] == FIELD_NAME[j];
      } else {
        assert line[j] == value[j - |FIELD_NAME|] && (line + [CR])[j + 1] == (value + [CR])[j - |FIELD_NAME| + 1];
      }
    }
  }

  lemma LineEndsItself(line: Bytes, rest: Bytes)
    requires IsOneLine(line)
    ensures LineEnd(line + [CR, LF] + rest, 0) == |line|
    ensures IsAscii(line + [CR, LF] + rest) <==> IsAscii(rest)
  {
    var text := line + [CR, LF] + rest;
    forall j | 0 <= j < |line| ensures text[j] <= 127 && !(text[j] == CR && text[j + 1] == LF) {
      assert text[j] == line[j] && text[j + 1] == (line + [CR])[j + 1];
    }
    LineEndsFirst(text, 0, |line|);
    SameAscii(line + [CR, LF], rest);
  }

  /** A header of ASCII text whose first line is "Content-Length:" and then something is decoded by that. */
  lemma FirstLineDecodes(name: Bytes, value: Bytes, rest: Bytes)
    requires Spells(name, "Content-Length:") && IsOneLine(value) && IsAscii(rest)
    ensures var h := DecodeHeader(name + value + [CR, LF] + rest);
      if ParseInt(Strip(value)).Some? then h == Length(ParseInt(Strip(value)).value) else h == BadHeader
  {
    NameIsSpelled();
    SpelledAlike(name, FIELD_NAME, "Content-Length:");
    var line, text := name + value, name + value + [CR, LF] + rest;
    NameIsOneLine(value);
    LineEndsItself(line, rest);
    assert text[0..|line|] == line && line[|FIELD_NAME|..] == value;
  }

  /** "Content-Length: ", a number and an empty line announce that number. */
  lemma HeaderByText(name: Bytes, n: nat, end: Bytes)
    requires Spells(name, "Content-Length: ") && Spells(end, "\r\n\r\n")
    ensures DecodeHeader(name + Decimal(n) + end) == Length(n)
  {
    NameIsSpelled();
    SpelledAlike(name, FIELD_NAME + [SPACE], "Content-Length: ");
    SpelledAlike(end, SEPARATOR, "\r\n\r\n");
    HeaderDecodes(n);
  }

  /** The number may have white space around it, and a sign. */
  lemma LooseHeader(name: Bytes, before: Bytes, sign: Byte, n: nat, after: Bytes, rest: Bytes)
    requires Spells(name, "Content-Length:") && (sign == 43 || sign == 45)
    requires forall i :: 0 <= i < |before| ==> before[i] == 32 || before[i] == 9
    requires forall i :: 0 <= i < |after| ==> after[i] == 32 || after[i] == 9
    requires IsAscii(rest)
    ensures DecodeHeader(name + (before + Decimal(n) + after) + [CR, LF] + rest) == Length(n)
    ensures DecodeHeader(name + (before + ([sign] + Decimal(n)) + after) + [CR, LF] + rest) ==
            Length(if sign as int == '-' as int then -(n as int) else n as int)
  {
    SignedNumber(n, sign);
    var digits, signed := Decimal(n), [sign] + Decimal(n);
    StripsAround(before, digits, after);
    StripsAround(before, signed, after);
    NoLineEnd(before, digits, after);
    NoLineEnd(before, signed, after);
    FirstLineDecodes(name, before + digits + after, rest);
    FirstLineDecodes(name, before + signed + after, rest);
  }

  lemma NoLineEnd(before: Bytes, s: Bytes, after: Bytes)
    requires forall i :: 0 <= i < |before| ==> before[i] == 32 || before[i] == 9
    requires forall i :: 0 <= i < |after| ==> after[i] == 32 || after[i] == 9
    requires forall i :: 0 <= i < |s| ==> IsDigit(s[i]) || s[i] == 43 || s[i] == 45
    ensures IsOneLine(before + s + after)
  {
    var all := before + s + after;
    forall i | 0 <= i < |all| ensures all[i] <= 127 && all[i] != CR {
      assert all[i] in before || all[i] in s || all[i] in after;
    }
  }

  // ---------------------------------------------------------------- other lines

  lemma {:induction false} LineEndBehind(a: Bytes, b: Bytes, from: nat)
    requires from <= |b|
    ensures LineEnd(a + b, |a| + from) == |a| + LineEnd(b, from)
    decreases |b| - from
  {
    if from + 2 <= |b| && !(b[from] == CR && b[from + 1] == LF) { LineEndBehind(a, b, from + 1); }
  }

  lemma {:induction false} FindLengthBehind(a: Bytes, b: Bytes, from: nat)
    requires from <= |b|
    ensures FindLength(a + b, |a| + from) == FindLength(b, from)
    decreases |b| - from
  {
    LineEndBehind(a, b, from);
    var end := LineEnd(b, from);
    assert (a + b)[|a| + from..|a| + end] == b[from..end];
    if end < |b| { FindLengthBehind(a, b, end + 2); }
  }

  /** A line that does not start with "Content-Length:" makes no difference. */
  lemma OtherLinesAreSkipped(name: Bytes, line: Bytes, rest: Bytes)
    requires Spells(name, "Content-Length:") && !(name <= line)
    requires IsOneLine(line)
    ensures DecodeHeader(line + [CR, LF] + rest) == DecodeHeader(rest)
  {
    NameIsSpelled();
    SpelledAlike(name, FIELD_NAME, "Content-Length:");
    var head, text := line + [CR, LF], line + [CR, LF] + rest;
    LineEndsItself(line, rest);
    assert text[0..|line|] == line;
    FindLengthBehind(head, rest, 0);
    assert FindLength(text, 0) == FindLength(rest, 0);
  }

  lemma SameAscii(a: Bytes, b: Bytes)
    requires forall i :: 0 <= i < |a| ==> a[i] <= 127
    ensures IsAscii(a + b) <==> IsAscii(b)
  {
    forall i | 0 <= i < |b| ensures b[i] == (a + b)[|a| + i] {
    }
  }

  /** A header without such a line has no length, and one that is not ASCII is malformed. */
  lemma HeadersWithoutLength(header: Bytes, i: nat)
    ensures DecodeHeader([CR, LF]) == NoLength && DecodeHeader([]) == NoLength
    ensures i < |header| && header[i] >= 128 ==> DecodeHeader(header) == BadHeader
  {
    var text := [CR, LF];
    assert LineEnd(text, 0) == 0 && |text[0..0]| == 0 && LineEnd(text, 2) == 2 && |text[2..2]| == 0;
    assert FindLength(text, 2) == None && FindLength([], 0) == None;
  }

  // ---------------------------------------------------------------- messages

  /** The stream starts with a header that announces the length of the text behind it, which parses to m. */
  ghost predicate StartsWith(codec: Codec, stream: Bytes, m: Message, rest: Bytes, header: Bytes, body: Bytes) {
    && stream == header + body + rest
    && 4 <= |header| && SeparatorAt(header, |header| - 4)
    && (forall i: nat :: SeparatorAt(header, i) ==> i == |header| - 4)
    && DecodeHeader(header) == Length(|body|) && codec.parse(body) == Some(m)
  }

  lemma FirstSeparator(header: Bytes, more: Bytes)
    requires 4 <= |header| && SeparatorAt(header, |header| - 4)
    requires forall i: nat :: SeparatorAt(header, i) ==> i == |header| - 4
    ensures FindSeparator(header + more, 0) == |header| - 4
  {
    SeparatorExtends(header, more);
  }

  lemma HeaderEndsFirst(stream: Bytes)
    requires FindSeparator(stream, 0) >= 0
    ensures var header := stream[..FindSeparator(stream, 0) + 4];
      SeparatorAt(header, |header| - 4) && forall i: nat :: SeparatorAt(header, i) ==> i == |header| - 4
  {
    var end := FindSeparator(stream, 0);
    var header := stream[..end + 4];
    forall i: nat | SeparatorAt(header, i) ensures i == end { assert SeparatorAt(stream, i); }
  }

  lemma ReadStartsWith(codec: Codec, stream: Bytes, m: Message, rest: Bytes)
    requires ReadMessage(codec, stream) == Got(m, rest)
    ensures exists header, body :: StartsWith(codec, stream, m, rest, header, body)
  {
    var end := FindSeparator(stream, 0) + 4;
    var header, tail := stream[..end], stream[end..];
    var body := tail[..DecodeHeader(header).n];
    HeaderEndsFirst(stream);
    assert stream == header + tail && tail == body + rest;
    assert header + (body + rest) == header + body + rest;
    assert StartsWith(codec, stream, m, rest, header, body);
  }

  lemma StartIsRead(codec: Codec, stream: Bytes, m: Message, rest: Bytes, header: Bytes, body: Bytes)
    requires StartsWith(codec, stream, m, rest, header, body)
    ensures ReadMessage(codec, stream) == Got(m, rest)
  {
    FirstSeparator(header, body + rest);
    assert stream == header + (body + rest);
    assert stream[..|header|] == header && stream[|header|..] == body + rest;
    assert (body + rest)[..|body|] == body && (body + rest)[|body|..] == rest;
  }

  /** A message is read exactly if the stream starts so, and then the rest is left. */
  lemma ReadsExactlyWhen(codec: Codec, stream: Bytes, m: Message, rest: Bytes)
    ensures ReadMessage(codec, stream) == Got(m, rest) <==>
      exists header, body :: StartsWith(codec, stream, m, rest, header, body)
  {
    if ReadMessage(codec, stream) == Got(m, rest) { ReadStartsWith(codec, stream, m, rest); }
    forall header, body | StartsWith(codec, stream, m, rest, header, body)
      ensures ReadMessage(codec, stream) == Got(m, rest)
    {
      StartIsRead(codec, stream, m, rest, header, body);
    }
  }

  /** The reader fails for want of bytes exactly if there is no whole header, or a body is announced that is longer
      than what is left. */
  lemma ClosedExactlyWhen(codec: Codec, stream: Bytes)
    ensures ReadMessage(codec, stream) == Closed <==>
      (forall i: nat :: !SeparatorAt(stream, i)) || exists header, part :: Announces(stream, header, part)
  {
    var i := FindSeparator(stream, 0);
    if i >= 0 {
      var header, part := stream[..i + 4], stream[i + 4..];
      HeaderEndsFirst(stream);
      assert stream == header + part;
      forall h, p | Announces(stream, h, p) ensures h == header && p == part {
        FirstSeparator(h, p);
        assert stream[..|h|] == h && stream[|h|..] == p;
      }
      assert ReadMessage(codec, stream) == Closed <==> Announces(stream, header, part);
    }
  }

  /** The stream is a header and then too few bytes. */
  ghost predicate Announces(stream: Bytes, header: Bytes, part: Bytes) {
    && stream == header + part
    && 4 <= |header| && SeparatorAt(header, |header| - 4)
    && (forall i: nat :: SeparatorAt(header, i) ==> i == |header| - 4)
    && DecodeHeader(header).Length? && DecodeHeader(header).n > |part|
  }

  /** The n-th client is named "client-n". */
  lemma ClientNameByText(c: ClientId)
    ensures |ClientName(c)| == 7 + |Decimal(c + 1)|
    ensures Spells(ClientName(c)[..7], "client-") && ClientName(c)[7..] == Decimal(c + 1)
  {
    assert ClientName(c)[..7] == CLIENT_PREFIX;
    assert "client-"[0] == 'c' && "client-"[1] == 'l' && "client-"[2] == 'i' && "client-"[3] == 'e';
    assert "client-"[4] == 'n' && "client-"[5] == 't' && "client-"[6] == '-';
  }
}
