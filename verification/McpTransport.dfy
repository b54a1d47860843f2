// MCP message framing over a byte stream (src/core/orchestra_thread/mcp_transport.py).
// The JSON codec is a parameter; everything else is done on bytes.
module McpTransport {

  import opened Wrappers
  import opened PyText
  import opened Bytes

  const NEWLINE: byte := 10
  const CR: byte := 13
  const OPEN_BRACE: byte := 123
  const OPEN_BRACKET: byte := 91
  const CLOSE_BRACE: byte := 125

  datatype Framing = ContentLength | Newline

  datatype ReadError = BadHeader | MissingLength | BadLength | NotAnObject

  // One read_message call: a message, the end of the stream, or an exception.
  datatype Reading<+P> = Message(payload: P) | EndOfStream | Failed(error: ReadError)

  // json.dumps(...).encode() and json.loads with the dict check.
  datatype Codec<!P> = Codec(dumps: P -> bytes, loads: bytes -> Option<P>)

  // Object text opens and closes with a brace, and JSON text has no raw newline
  // (section 7 of RFC 8259).
  predicate IsObjectText(b: bytes)
  {
    |b| >= 2 && b[0] == OPEN_BRACE && b[|b| - 1] == CLOSE_BRACE && NEWLINE !in b
  }

  ghost predicate Faithful<P(!new)>(codec: Codec<P>)
  {
    forall p: P :: IsObjectText(codec.dumps(p)) && codec.loads(codec.dumps(p)) == Some(p)
  }

  // Object text kept as it is: one codec that meets the assumption.
  type ObjectText = b: bytes | IsObjectText(b) witness [123, 125]

  function TextCodec(): (codec: Codec<ObjectText>)
    ensures Faithful(codec)
  {
    var dumps: ObjectText -> bytes := (t: ObjectText) => t;
    var loads: bytes -> Option<ObjectText> :=
      (b: bytes) => if IsObjectText(b) then (var t: ObjectText := b; Some(t)) else None;
    Codec(dumps, loads)
  }

  // ---------- bytes and ASCII text ----------

  predicate IsAscii(s: string)
  {
    forall i :: 0 <= i < |s| ==> s[i] as int < 128
  }

  function ToBytes(s: string): (r: bytes)
    requires IsAscii(s)
    ensures |r| == |s|
  {
    seq(|s|, i requires 0 <= i < |s| => s[i] as int as byte)
  }

  // bytes.decode("ascii")
  function FromAscii(b: bytes): (r: Option<string>)
  {
    if b == [] then Some("")
    else if b[0] >= 128 then None
    else
      match FromAscii(b[1..])
      case None => None
      case Some(s) => Some([b[0] as int as char] + s)
  }

  lemma {:induction false} AsciiRoundTrip(s: string)
    requires IsAscii(s)
    ensures FromAscii(ToBytes(s)) == Some(s)
  {
    if s != "" {
      AsciiRoundTrip(s[1..]);
      assert ToBytes(s)[1..] == ToBytes(s[1..]);
      assert [s[0]] + s[1..] == s;
    }
  }

  predicate IsBlank(b: byte)
  {
    9 <= b <= 13 || 28 <= b <= 32
  }

  function StripLeft(b: bytes): bytes
  {
    if b != [] && IsBlank(b[0]) then StripLeft(b[1..]) else b
  }

  function StripRight(b: bytes): bytes
  {
    if b != [] && IsBlank(b[|b| - 1]) then StripRight(b[..|b| - 1]) else b
  }

  function StripBytes(b: bytes): bytes
  {
    StripRight(StripLeft(b))
  }

  // ---------- writing ----------

  const HEADER_NAME := "Content-Length: "
  const CRLF := "\r\n"

  function LengthHeader(n: nat): (r: string)
  {
    HEADER_NAME + PrintNat(n) + CRLF + CRLF
  }

  lemma LengthHeaderAscii(n: nat)
    ensures IsAscii(LengthHeader(n))
  {
    assert forall i :: 0 <= i < |PrintNat(n)| ==> IsDigit(PrintNat(n)[i]);
  }

  function EncodeMessage<P>(codec: Codec<P>, payload: P, framing: Framing): bytes
  {
    var body := codec.dumps(payload);
    match framing
    case ContentLength =>
      LengthHeaderAscii(|body|);
      ToBytes(LengthHeader(|body|)) + body
    case Newline => body + [NEWLINE]
  }

  function EncodeAll<P>(codec: Codec<P>, ps: seq<P>, framing: Framing): bytes
  {
    if ps == [] then [] else EncodeMessage(codec, ps[0], framing) + EncodeAll(codec, ps[1..], framing)
  }

  // ---------- reading ----------

  class Reader {
    var data: bytes

    constructor (data: bytes)
      ensures this.data == data
    {
      this.data := data;
    }

    // read(size): at most size bytes, everything when size is negative.
    method Read(size: int) returns (chunk: bytes)
      modifies this
      ensures chunk + data == old(data)
      ensures chunk == Taken(old(data), size)
    {
      chunk := Taken(data, size);
      data := data[|chunk|..];
    }

    // readline(): up to and including the next newline.
    method ReadLine() returns (line: bytes)
      modifies this
      ensures line + data == old(data)
      ensures line == old(data)[..LineEnd(old(data))]
    {
      var n := LineEnd(data);
      line := data[..n];
      data := data[n..];
    }
  }

  function Taken(data: bytes, size: int): (r: bytes)
    ensures r <= data
  {
    if size < 0 || size >= |data| then data else data[..size]
  }

  function LineEnd(data: bytes): (n: nat)
    ensures n <= |data|
    ensures data != [] ==> n > 0
    ensures forall i :: 0 <= i < n - 1 ==> data[i] != NEWLINE
    ensures n < |data| ==> data[n - 1] == NEWLINE
  {
    if data == [] then 0
    else if data[0] == NEWLINE then 1
    else 1 + LineEnd(data[1..])
  }

  const HEADER_END: bytes := [13, 10, 13, 10]

  predicate EndsHeader(header: bytes)
  {
    |header| >= 4 && header[|header| - 4..] == HEADER_END
  }

  // How many bytes the header reader takes in all, having taken k without
  // success; None when the stream ends first.
  function HeaderRest(first: bytes, data: bytes, k: nat): (n: Option<nat>)
    requires k <= |data|
    ensures n.Some? ==> k <= n.value <= |data|
    decreases |data| - k
  {
    if EndsHeader(first + data[..k]) then Some(k)
    else if k == |data| then None
    else HeaderRest(first, data, k + 1)
  }

  function LengthOfLines(lines: seq<string>): Result<int, ReadError>
  {
    if lines == [] then Err(MissingLength)
    else if "content-length:" <= Lower(lines[0]) then
      match ParseInt(lines[0][|"content-length:"|..])
      case None => Err(BadLength)
      case Some(n) => Ok(n)
    else LengthOfLines(lines[1..])
  }

  function ParseContentLength(header: bytes): Result<int, ReadError>
  {
    match FromAscii(header)
    case None => Err(BadHeader)
    case Some(text) => LengthOfLines(Split(text, CRLF))
  }

  function Decoded<P>(codec: Codec<P>, raw: bytes): Reading<P>
  {
    match codec.loads(raw)
    case None => Failed(NotAnObject)
    case Some(p) => Message(p)
  }

  // After the header: the body is what its length says, as far as there is data.
  function BodyReading<P>(codec: Codec<P>, header: bytes, data: bytes): (Reading<P>, bytes)
  {
    match ParseContentLength(header)
    case Err(e) => (Failed(e), data)
    case Ok(n) =>
      var body := Taken(data, n);
      (if body == [] then EndOfStream else Decoded(codec, body), data[|body|..])
  }

  // What reading one length-prefixed message yields and leaves.
  function LengthReading<P>(codec: Codec<P>, first: bytes, data: bytes): (Reading<P>, bytes)
  {
    match HeaderRest(first, data, 0)
    case None => (EndOfStream, [])
    case Some(k) => BodyReading(codec, first + data[..k], data[k..])
  }

  function LineReading<P>(codec: Codec<P>, first: bytes, data: bytes): (Reading<P>, bytes)
  {
    var n := LineEnd(data);
    var line := first + data[..n];
    (if line == [] then EndOfStream else Decoded(codec, StripBytes(line)), data[n..])
  }

  // read_message: the hint decides, or else the first byte does.
  function OneReading<P>(codec: Codec<P>, hint: Option<Framing>, data: bytes): (Reading<P>, bytes, Option<Framing>)
  {
    match hint
    case Some(ContentLength) => var r := LengthReading(codec, [], data); (r.0, r.1, hint)
    case Some(Newline) => var r := LineReading(codec, [], data); (r.0, r.1, hint)
    case None =>
      if data == [] then (EndOfStream, [], None)
      else if data[0] == OPEN_BRACE || data[0] == OPEN_BRACKET then
        var r := LineReading(codec, [data[0]], data[1..]);
        (r.0, r.1, Some(Newline))
      else
        var r := LengthReading(codec, [data[0]], data[1..]);
        (r.0, r.1, Some(ContentLength))
  }

  method ReadNewlineMessage<P>(codec: Codec<P>, reader: Reader, first: bytes) returns (r: Reading<P>)
    modifies reader
    ensures (r, reader.data) == LineReading(codec, first, old(reader.data))
  {
    var rest := reader.ReadLine();
    var line := first + rest;
    assert reader.data == old(reader.data)[LineEnd(old(reader.data))..];
    if line == [] {
      return EndOfStream;
    }
    return Decoded(codec, StripBytes(line));
  }

  method ReadContentLengthMessage<P>(codec: Codec<P>, reader: Reader, first: bytes) returns (r: Reading<P>)
    modifies reader
    ensures (r, reader.data) == LengthReading(codec, first, old(reader.data))
  {
    var header := first;
    ghost var start := reader.data;
    ghost var k := 0;
    assert start[0..] == start && first + start[..0] == first;
    while !EndsHeader(header)
      invariant k <= |start| && reader.data == start[k..] && header == first + start[..k]
      invariant HeaderRest(first, start, k) == HeaderRest(first, start, 0)
      decreases |reader.data|
    {
      var chunk := reader.Read(1);
      if chunk == [] {
        return EndOfStream;
      }
      NextByte(first, start, k);
      header := header + chunk;
      k := k + 1;
    }
    var length := ParseContentLength(header);
    if length.Err? {
      return Failed(length.error);
    }
    var body := reader.Read(length.value);
    assert reader.data == start[k..][|body|..];
    if body == [] {
      return EndOfStream;
    }
    return Decoded(codec, body);
  }

  lemma NextByte(first: bytes, start: bytes, k: nat)
    requires k < |start|
    ensures Taken(start[k..], 1) == [start[k]] && start[k..][1..] == start[k + 1..]
    ensures first + start[..k + 1] == first + start[..k] + [start[k]]
  {
  }

  method ReadMessage<P>(codec: Codec<P>, reader: Reader, hint: Option<Framing>) returns (r: Reading<P>, next: Option<Framing>)
    modifies reader
    ensures (r, reader.data, next) == OneReading(codec, hint, old(reader.data))
    // An opening brace or bracket announces a line, anything else a header.
    ensures hint.Some? ==> next == hint
    ensures hint.None? && old(reader.data) != [] ==>
              next == Some(if old(reader.data)[0] == 123 || old(reader.data)[0] == 91 then Newline else ContentLength)
  {
    match hint {
      case Some(ContentLength) =>
        r := ReadContentLengthMessage(codec, reader, []);
        next := hint;
      case Some(Newline) =>
        r := ReadNewlineMessage(codec, reader, []);
        next := hint;
      case None =>
        ghost var start := reader.data;
        var first := reader.Read(1);
        if first == [] {
          return EndOfStream, None;
        }
        assert first == [start[0]] && reader.data == start[1..];
        if first[0] == OPEN_BRACE || first[0] == OPEN_BRACKET {
          r := ReadNewlineMessage(codec, reader, first);
          next := Some(Newline);
        } else {
          r := ReadContentLengthMessage(codec, reader, first);
          next := Some(ContentLength);
        }
    }
  }

  // ---------- whole streams ----------

  lemma {:induction false} HeaderRestEnds(first: bytes, data: bytes, k: nat)
    requires k <= |data| && HeaderRest(first, data, k).Some?
    ensures EndsHeader(first + data[..HeaderRest(first, data, k).value])
    decreases |data| - k
  {
    if !EndsHeader(first + data[..k]) {
      HeaderRestEnds(first, data, k + 1);
    }
  }

  // A message always takes at least one byte off the stream.
  lemma MessageConsumes<P>(codec: Codec<P>, hint: Option<Framing>, data: bytes)
    requires OneReading(codec, hint, data).0.Message?
    ensures |OneReading(codec, hint, data).1| < |data|
  {
    if hint == Some(ContentLength) {
      var k := HeaderRest([], data, 0).value;
      assert EndsHeader([] + data[..k]) by {
        HeaderRestEnds([], data, 0);
      }
    }
  }

  // Reading again and again with the carried hint until something else than a
  // message comes.
  function AllReadings<P>(codec: Codec<P>, hint: Option<Framing>, data: bytes): (seq<P>, Reading<P>)
    decreases |data|
  {
    var one := OneReading(codec, hint, data);
    if !one.0.Message? then ([], one.0)
    else
      MessageConsumes(codec, hint, data);
      var later := AllReadings(codec, one.2, one.1);
      ([one.0.payload] + later.0, later.1)
  }

  method ReadStream<P>(codec: Codec<P>, reader: Reader) returns (ps: seq<P>, last: Reading<P>)
    modifies reader
    ensures (ps, last) == AllReadings(codec, None, old(reader.data))
  {
    ps := [];
    var hint: Option<Framing> := None;
    ghost var start := AllReadings(codec, None, reader.data);
    assert [] + start.0 == start.0;
    while true
      invariant var later := AllReadings(codec, hint, reader.data); start == (ps + later.0, later.1)
      decreases |reader.data|
    {
      ghost var data := reader.data;
      var r, next := ReadMessage(codec, reader, hint);
      if !r.Message? {
        assert ps + [] == ps;
        return ps, r;
      }
      MessageConsumes(codec, hint, data);
      assert ps + ([r.payload] + AllReadings(codec, next, reader.data).0)
          == (ps + [r.payload]) + AllReadings(codec, next, reader.data).0;
      ps, hint := ps + [r.payload], next;
    }
  }

  lemma {:induction false} LineEndIs(body: bytes, rest: bytes)
    requires NEWLINE !in body
    ensures LineEnd(body + [NEWLINE] + rest) == |body| + 1
  {
    var data := body + [NEWLINE] + rest;
    if body != [] {
      assert data[1..] == body[1..] + [NEWLINE] + rest;
      LineEndIs(body[1..], rest);
    }
  }

  lemma StripBody(body: bytes)
    requires IsObjectText(body)
    ensures StripBytes(body + [NEWLINE]) == body
  {
    var line := body + [NEWLINE];
    assert StripLeft(line) == line;
    assert line[..|line| - 1] == body;
    assert StripRight(line) == StripRight(body) == body;
  }

  // Reading a line message back, the first byte possibly taken already.
  lemma LineRoundTrip<P(!new)>(codec: Codec<P>, p: P, taken: nat, rest: bytes)
    requires Faithful(codec) && taken <= 1
    ensures var body := codec.dumps(p);
            LineReading(codec, body[..taken], body[taken..] + [NEWLINE] + rest) == (Message(p), rest)
  {
    var body := codec.dumps(p);
    assert IsObjectText(body) && codec.loads(body) == Some(p);
    var data := body[taken..] + [NEWLINE] + rest;
    LineEndIs(body[taken..], rest);
    assert body[..taken] + data[..LineEnd(data)] == body + [NEWLINE];
    assert data[LineEnd(data)..] == rest;
    StripBody(body);
  }

  lemma {:induction false} HeaderRestIs(first: bytes, data: bytes, k: nat, n: nat)
    requires k <= n <= |data| && EndsHeader(first + data[..n])
    requires forall j :: k <= j < n ==> !EndsHeader(first + data[..j])
    ensures HeaderRest(first, data, k) == Some(n)
    decreases n - k
  {
    if k < n {
      HeaderRestIs(first, data, k + 1, n);
    }
  }

  // The header of a message is one line without a carriage return, ended twice.
  function HeaderLine(n: nat): string
  {
    HEADER_NAME + PrintNat(n)
  }

  lemma HeaderLineShape(n: nat)
    ensures '\r' !in HeaderLine(n) && IsAscii(HeaderLine(n))
    ensures LengthHeader(n) == HeaderLine(n) + CRLF + CRLF
    ensures HeaderLine(n)[0] == 'C'
  {
    var digits := PrintNat(n);
    assert forall i :: 0 <= i < |digits| ==> IsDigit(digits[i]);
    assert forall i :: 0 <= i < |HEADER_NAME| ==> HEADER_NAME[i] as int < 128 && HEADER_NAME[i] != '\r';
  }

  lemma HeaderNameLower(digits: string)
    ensures "content-length:" <= Lower(HEADER_NAME + digits)
    ensures (HEADER_NAME + digits)[15..] == " " + digits
  {
    var name := "content-length:";
    var low := Lower(HEADER_NAME + digits);
    forall i | 0 <= i < 15
      ensures low[i] == name[i]
    {
      assert (HEADER_NAME + digits)[i] == HEADER_NAME[i];
    }
    assert low[..15] == name;
  }

  // In such a header the blank line occurs at the end only.
  lemma BlankLineOnce(line: bytes, j: nat)
    requires CR !in line && j <= |line| + 4
    ensures EndsHeader((line + HEADER_END)[..j]) <==> j == |line| + 4
  {
    var h := line + HEADER_END;
    if j == |h| {
      assert h[..j] == h && h[j - 4..] == HEADER_END;
    } else if j >= 4 {
      assert h[..j][j - 4..][0] == h[j - 4] && h[..j][j - 4..][2] == h[j - 2];
    }
  }

  lemma HeaderBytes(n: nat)
    requires IsAscii(LengthHeader(n)) && IsAscii(HeaderLine(n))
    ensures CR !in ToBytes(HeaderLine(n))
    ensures ToBytes(LengthHeader(n)) == ToBytes(HeaderLine(n)) + HEADER_END
  {
    HeaderLineShape(n);
    var line := ToBytes(HeaderLine(n));
    forall b | b in line
      ensures b != CR
    {
      var i :| 0 <= i < |line| && line[i] == b;
      assert HeaderLine(n)[i] in HeaderLine(n);
    }
  }

  lemma NoBreakInside(line: string, rest: string, j: nat)
    requires '\r' !in line && j < |line|
    ensures !OccursAt(line + rest, CRLF, j)
  {
    var text := line + rest;
    assert text[j] == line[j] && line[j] in line;
    if j + 2 <= |text| {
      assert text[j..j + 2][0] != CRLF[0];
    }
  }

  lemma LineBreakFound(line: string)
    requires '\r' !in line
    ensures Find(line + CRLF + CRLF, CRLF) == Some(|line|)
  {
    var rest := CRLF + CRLF;
    assert line + CRLF + CRLF == line + rest;
    assert (line + rest)[|line|..|line| + 2] == CRLF;
    forall j: nat | j < |line|
      ensures !OccursAt(line + rest, CRLF, j)
    {
      NoBreakInside(line, rest, j);
    }
    FindIs(line + rest, CRLF, |line|);
  }

  lemma FirstLine(line: string)
    requires '\r' !in line
    ensures Split(line + CRLF + CRLF, CRLF)[0] == line
  {
    LineBreakFound(line);
    assert (line + CRLF + CRLF)[..|line|] == line;
  }

  lemma BlankThenDigits(n: nat)
    ensures ParseInt(" " + PrintNat(n)).Some? && ParseInt(" " + PrintNat(n)).value == n
  {
    var digits := PrintNat(n);
    PrintedIsTrimmed(n);
    StripLeading(digits);
    PlainDigitsParse(digits);
    DigitsRoundTrip(n);
  }

  lemma LengthParsed(n: nat)
    requires IsAscii(LengthHeader(n))
    ensures ParseContentLength(ToBytes(LengthHeader(n))) == Ok(n)
  {
    AsciiRoundTrip(LengthHeader(n));
    HeaderLineShape(n);
    FirstLine(HeaderLine(n));
    HeaderNameLower(PrintNat(n));
    BlankThenDigits(n);
    FirstLineDecides(Split(LengthHeader(n), CRLF), n);
  }

  predicate NamesLength(line: string)
  {
    "content-length:" <= Lower(line)
  }

  lemma {:induction false} OtherHeadersSkipped(before: seq<string>, rest: seq<string>)
    requires forall l :: l in before ==> !NamesLength(l)
    ensures LengthOfLines(before + rest) == LengthOfLines(rest)
  {
    if before == [] {
      assert before + rest == rest;
    } else {
      assert (before + rest)[1..] == before[1..] + rest && (before + rest)[0] == before[0];
      assert before[0] in before;
      OtherHeadersSkipped(before[1..], rest);
    }
  }

  lemma LengthLine(line: string, after: seq<string>)
    requires NamesLength(line)
    ensures |line| >= 15
    ensures LengthOfLines([line] + after) ==
            match ParseInt(line[15..]) case None => Err(BadLength) case Some(n) => Ok(n)
  {
    assert ([line] + after)[0] == line;
  }

  // The first line that names the length decides, in any letter case and behind
  // any other header lines.
  lemma LengthLineDecides(before: seq<string>, line: string, after: seq<string>)
    requires (forall l :: l in before ==> !NamesLength(l)) && NamesLength(line)
    ensures |line| >= 15
    ensures LengthOfLines(before + [line] + after) ==
            match ParseInt(line[15..]) case None => Err(BadLength) case Some(n) => Ok(n)
  {
    OtherHeadersSkipped(before, [line] + after);
    assert before + [line] + after == before + ([line] + after);
    LengthLine(line, after);
  }

  // Without one there is no length.
  lemma {:induction false} NoLength(lines: seq<string>)
    requires forall l :: l in lines ==> !NamesLength(l)
    ensures LengthOfLines(lines) == Err(MissingLength)
  {
    if lines != [] {
      assert lines[0] in lines;
      NoLength(lines[1..]);
    }
  }

  // A header is read line by line.
  lemma HeaderLines(lines: seq<string>)
    requires lines != [] && IsAscii(Join(lines, CRLF)) && forall l :: l in lines ==> '\r' !in l
    ensures ParseContentLength(ToBytes(Join(lines, CRLF))) == LengthOfLines(lines)
  {
    AsciiRoundTrip(Join(lines, CRLF));
    SplitJoin(lines, CRLF);
  }

  lemma FirstLineDecides(lines: seq<string>, n: nat)
    requires lines != [] && lines[0] == HeaderLine(n)
    requires "content-length:" <= Lower(lines[0]) && lines[0][15..] == " " + PrintNat(n)
    requires ParseInt(" " + PrintNat(n)).Some? && ParseInt(" " + PrintNat(n)).value == n
    ensures LengthOfLines(lines) == Ok(n)
  {
  }

  lemma LengthRoundTrip<P(!new)>(codec: Codec<P>, p: P, taken: nat, rest: bytes)
    requires Faithful(codec) && taken <= 1
    requires IsAscii(LengthHeader(|codec.dumps(p)|))
    ensures var body := codec.dumps(p);
            var header := ToBytes(LengthHeader(|body|));
            LengthReading(codec, header[..taken], header[taken..] + (body + rest)) == (Message(p), rest)
  {
    var body := codec.dumps(p);
    assert IsObjectText(body) && codec.loads(body) == Some(p);
    var header := ToBytes(LengthHeader(|body|));
    HeaderLineShape(|body|);
    HeaderBytes(|body|);
    LengthParsed(|body|);
    WholeHeader(codec, ToBytes(HeaderLine(|body|)), taken, body, rest);
    BodyRead(codec, p, header, rest);
  }

  lemma WholeHeader<P>(codec: Codec<P>, line: bytes, taken: nat, body: bytes, rest: bytes)
    requires CR !in line && taken <= 1
    ensures var header := line + HEADER_END;
            LengthReading(codec, header[..taken], header[taken..] + (body + rest)) == BodyReading(codec, header, body + rest)
  {
    var header := line + HEADER_END;
    var first, data := header[..taken], header[taken..] + (body + rest);
    HeaderRestOfMessage(line, taken, body + rest);
    BodyTaken(first, data, |header| - taken, header, body, rest);
  }

  lemma BodyRead<P(!new)>(codec: Codec<P>, p: P, header: bytes, rest: bytes)
    requires IsObjectText(codec.dumps(p)) && codec.loads(codec.dumps(p)) == Some(p)
    requires ParseContentLength(header) == Ok(|codec.dumps(p)|)
    ensures BodyReading(codec, header, codec.dumps(p) + rest) == (Message(p), rest)
  {
    var body := codec.dumps(p);
    assert Taken(body + rest, |body|) == body;
    assert (body + rest)[|body|..] == rest;
  }

  lemma HeaderRestOfMessage(line: bytes, taken: nat, more: bytes)
    requires CR !in line && taken <= 1
    ensures var header := line + HEADER_END;
            HeaderRest(header[..taken], header[taken..] + more, 0) == Some(|header| - taken)
  {
    var header := line + HEADER_END;
    var first, data := header[..taken], header[taken..] + more;
    forall j | 0 <= j <= |header| - taken
      ensures EndsHeader(first + data[..j]) <==> j == |header| - taken
    {
      BlankLineOnce(line, taken + j);
      assert first + data[..j] == header[..taken + j];
    }
    HeaderRestIs(first, data, 0, |header| - taken);
  }

  lemma BodyTaken(first: bytes, data: bytes, k: nat, header: bytes, body: bytes, rest: bytes)
    requires first + data == header + (body + rest) && k + |first| == |header|
    ensures first + data[..k] == header && data[k..] == body + rest
  {
    var all := header + (body + rest);
    assert data == all[|first|..];
    assert data[k..] == all[|header|..] == body + rest;
    assert (first + data)[..|header|] == first + data[..k];
  }

  // The hint a reader may carry while reading this framing.
  predicate HintFits(hint: Option<Framing>, framing: Framing)
  {
    hint == None || hint == Some(framing)
  }

  lemma TakeOne(data: bytes, whole: bytes, more: bytes)
    requires data == whole + more && whole != []
    ensures whole[..0] == [] && data == whole[0..] + more
    ensures whole[..1] == [data[0]] && data[1..] == whole[1..] + more
  {
  }

  lemma LineMessage<P(!new)>(codec: Codec<P>, p: P, hint: Option<Framing>, rest: bytes)
    requires Faithful(codec) && HintFits(hint, Newline)
    ensures OneReading(codec, hint, EncodeMessage(codec, p, Newline) + rest) == (Message(p), rest, Some(Newline))
  {
    var body := codec.dumps(p);
    assert IsObjectText(body);
    assert body + [NEWLINE] + rest == body + ([NEWLINE] + rest);
    TakeOne(body + [NEWLINE] + rest, body, [NEWLINE] + rest);
    var taken := if hint.None? then 1 else 0;
    LineRoundTrip(codec, p, taken, rest);
    assert body[taken..] + [NEWLINE] + rest == body[taken..] + ([NEWLINE] + rest);
  }

  lemma LengthMessage<P(!new)>(codec: Codec<P>, p: P, hint: Option<Framing>, rest: bytes)
    requires Faithful(codec) && HintFits(hint, ContentLength)
    ensures OneReading(codec, hint, EncodeMessage(codec, p, ContentLength) + rest) == (Message(p), rest, Some(ContentLength))
  {
    var body := codec.dumps(p);
    LengthHeaderAscii(|body|);
    HeaderFirstByte(|body|);
    var header := ToBytes(LengthHeader(|body|));
    var data := EncodeMessage(codec, p, ContentLength) + rest;
    assert data == header + (body + rest);
    TakeOne(data, header, body + rest);
    if hint.None? {
      LengthRoundTrip(codec, p, 1, rest);
      WithoutHint(codec, data);
    } else {
      LengthRoundTrip(codec, p, 0, rest);
      WithHint(codec, data);
    }
  }

  lemma WithHint<P>(codec: Codec<P>, data: bytes)
    ensures var r := LengthReading(codec, [], data);
            OneReading(codec, Some(ContentLength), data) == (r.0, r.1, Some(ContentLength))
  {
  }

  // A first byte that cannot open JSON text starts a header.
  lemma WithoutHint<P>(codec: Codec<P>, data: bytes)
    requires data != [] && data[0] == 67
    ensures var r := LengthReading(codec, [data[0]], data[1..]);
            OneReading(codec, None, data) == (r.0, r.1, Some(ContentLength))
  {
  }

  lemma HeaderFirstByte(n: nat)
    requires IsAscii(LengthHeader(n))
    ensures ToBytes(LengthHeader(n))[0] == 67
  {
    HeaderLineShape(n);
    assert LengthHeader(n)[0] == HeaderLine(n)[0] == 'C';
  }

  lemma MessageRoundTrip<P(!new)>(codec: Codec<P>, p: P, framing: Framing, hint: Option<Framing>, rest: bytes)
    requires Faithful(codec) && HintFits(hint, framing)
    ensures OneReading(codec, hint, EncodeMessage(codec, p, framing) + rest) == (Message(p), rest, Some(framing))
  {
    match framing
    case Newline => LineMessage(codec, p, hint, rest);
    case ContentLength => LengthMessage(codec, p, hint, rest);
  }

  // For either framing, reading an encoded list with the carried hint, starting
  // from none, returns exactly the list and then the end of the stream.
  lemma {:induction false} StreamRoundTrip<P(!new)>(codec: Codec<P>, ps: seq<P>, framing: Framing, hint: Option<Framing>)
    requires Faithful(codec) && HintFits(hint, framing)
    ensures AllReadings(codec, hint, EncodeAll(codec, ps, framing)) == (ps, EndOfStream)
  {
    var data := EncodeAll(codec, ps, framing);
    if ps == [] {
      assert LineEnd([]) == 0;
      assert HeaderRest([], [], 0).None?;
    } else {
      MessageRoundTrip(codec, ps[0], framing, hint, EncodeAll(codec, ps[1..], framing));
      StreamRoundTrip(codec, ps[1..], framing, Some(framing));
      assert [ps[0]] + ps[1..] == ps;
    }
  }
}
