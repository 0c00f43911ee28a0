/**
 * The later snapshot's responses read back with the request parser's own grammar: the status
 * line, the header section (names lower-cased, values trimmed) and the body as its framing
 * headers say.  Each response writer's output reads back as the status, the headers and the
 * content it was given, whichever framing it chose.
 */
module SourcesResponse {
  import opened Outcomes
  import opened JavaText
  import opened JavaInt
  import opened Bytes
  import opened LineReader
  import opened Util
  import opened FileTypes
  import opened SourcesRequest
  import opened SourcesServer

  /** The status line and the header section; the rest is what follows the empty line. */
  function ReadHead(input: string): Result<(string, map<string, string>, string)> {
    match NextLine(input)
    case None => Err(BadRequest)
    case Some((status, rest)) =>
      var block :- HeadersFrom(map[], rest);
      Ok((status, block.0, block.1))
  }

  /** A response names its body's length when it carries Content-Length or the chunked coding. */
  predicate IsFramed(headers: map<string, string>) {
    "transfer-encoding" in headers || "content-length" in headers
  }

  /**
   * A whole response: the head, then the body framed by Content-Length or the chunked coding; a
   * response with neither has for body all that follows the head, up to the server's closing of
   * the connection (section 6.3 of RFC 9112).
   */
  function ReadResponse(input: string): Result<(string, map<string, string>, seq<byte>)> {
    var head :- ReadHead(input);
    if !IsFramed(head.1) then
      Ok((head.0, head.1, CharsToBytes(head.2)))
    else
      var body :- ReadBody(head.1, head.2);
      Ok((head.0, head.1, body.0))
  }

  /** Printable ASCII other than the space and ':'. */
  predicate IsTokenChar(c: char) {
    ' ' < c && c as int < 0x7f && c != ':'
  }

  /** A header name or value the parser keeps as it is: one non-empty run of token chars. */
  predicate IsToken(s: string) {
    s != [] && forall i | 0 <= i < |s| :: IsTokenChar(s[i])
  }

  // ---------------------------------------------------------------------------------------------
  // Reading a head.

  lemma TrimOfTrimmed(s: string)
    requires s != [] && !IsTrimmed(s[0]) && !IsTrimmed(s[|s| - 1])
    ensures Trim(s) == s
  {
  }

  lemma NoLineEndAppend(a: string, b: string)
    requires HasNoLineEnd(a) && HasNoLineEnd(b)
    ensures HasNoLineEnd(a + b)
  {
  }

  /** A token is one line of ASCII text, holds no ':' and has nothing to trim. */
  lemma TokenText(s: string)
    requires IsToken(s)
    ensures ':' !in s && HasNoLineEnd(s) && IsAscii(s) && Trim(s) == s
  {
    assert forall c | c in s :: IsTokenChar(c);
    TrimOfTrimmed(s);
  }

  /** "Name: value" is read back as the lower-cased name and the value. */
  lemma HeaderOf(name: string, value: string)
    requires IsToken(name) && IsToken(value)
    ensures ParseHeaderLine(name + ": " + value) == Ok((ToLower(name), value))
  {
    TokenText(name);
    TokenText(value);
    NoCharPlain(HeaderSeparator, ':', name);
    NoCharPlain(HeaderSeparator, ':', value);
    PlainHasNoMatch(HeaderSeparator, name);
    PlainHasNoMatch(HeaderSeparator, value);
    HeaderLineOf(name, value);
  }

  /** A header line is one line of ASCII text. */
  lemma HeaderLineText(name: string, value: string)
    requires IsToken(name) && IsToken(value)
    ensures name + ": " + value != [] && HasNoLineEnd(name + ": " + value) && IsAscii(name + ": " + value)
  {
    var sep := ": ";
    TokenText(name);
    TokenText(value);
    NoLineEndAppend(name, sep);
    NoLineEndAppend(name + sep, value);
    AsciiAppend(name, sep);
    AsciiAppend(name + sep, value);
  }

  /** A header line that parses is put into the map, and the lines after it go on from there. */
  lemma PutFirst(headers: map<string, string>, line: string, rest: seq<string>, name: string, value: string)
    requires ParseHeaderLine(line) == Ok((name, value))
    ensures PutHeaders(headers, [line] + rest) == PutHeaders(headers[name := value], rest)
  {
    assert ([line] + rest)[0] == line && ([line] + rest)[1..] == rest;
  }

  /** Two header lines make a map of the two, the second put last. */
  lemma PutTwo(l1: string, l2: string, k1: string, v1: string, k2: string, v2: string)
    requires ParseHeaderLine(l1) == Ok((k1, v1)) && ParseHeaderLine(l2) == Ok((k2, v2))
    ensures PutHeaders(map[], [l1, l2]) == Ok(map[k1 := v1][k2 := v2])
  {
    var m1 := map[k1 := v1];
    PutFirst(map[], l1, [l2], k1, v1);
    PutFirst(m1, l2, [], k2, v2);
    assert PutHeaders(m1[k2 := v2], []) == Ok(m1[k2 := v2]);
    assert [l1] + [l2] == [l1, l2] && [l2] + [] == [l2];
  }

  lemma AppendAssoc(a: string, b: string, c: string)
    ensures a + b + c == a + (b + c)
  {
  }

  /** A status line and a header section are read back as such, and the rest is left. */
  lemma HeadOf(status: string, lines: seq<string>, headers: map<string, string>, rest: string)
    requires HasNoLineEnd(status)
    requires forall i | 0 <= i < |lines| :: lines[i] != [] && HasNoLineEnd(lines[i])
    requires PutHeaders(map[], lines) == Ok(headers)
    ensures ReadHead(status + "\r\n" + HeaderBlock(lines) + rest) == Ok((status, headers, rest))
  {
    var block := HeaderBlock(lines) + rest;
    AppendAssoc(status + "\r\n", HeaderBlock(lines), rest);
    ReadCrlfLine(status, block);
    HeadersOfBlock(map[], lines, rest);
    assert HeadersFrom(map[], block) == Ok((headers, rest));
  }

  /** "Content-Type: " and a token is read as the content-type header. */
  lemma ContentTypeLine(value: string)
    requires IsToken(value)
    ensures ParseHeaderLine("Content-Type: " + value) == Ok(("content-type", value))
    ensures "Content-Type: " + value != [] && HasNoLineEnd("Content-Type: " + value) && IsAscii("Content-Type: " + value)
  {
    var name := "Content-Type";
    assert ToLower(name) == "content-type" && IsToken(name);
    assert name + ": " == "Content-Type: ";
    HeaderOf(name, value);
    HeaderLineText(name, value);
  }

  /** "Content-Length: " and a token is read as the content-length header. */
  lemma ContentLengthLine(value: string)
    requires IsToken(value)
    ensures ParseHeaderLine("Content-Length: " + value) == Ok(("content-length", value))
    ensures "Content-Length: " + value != [] && HasNoLineEnd("Content-Length: " + value) && IsAscii("Content-Length: " + value)
  {
    var name := "Content-Length";
    assert ToLower(name) == "content-length" && IsToken(name);
    assert name + ": " == "Content-Length: ";
    HeaderOf(name, value);
    HeaderLineText(name, value);
  }

  /** "Transfer-Encoding: " and a token is read as the transfer-encoding header. */
  lemma TransferEncodingLine(value: string)
    requires IsToken(value)
    ensures ParseHeaderLine("Transfer-Encoding: " + value) == Ok(("transfer-encoding", value))
    ensures "Transfer-Encoding: " + value != [] && HasNoLineEnd("Transfer-Encoding: " + value) && IsAscii("Transfer-Encoding: " + value)
  {
    var name := "Transfer-Encoding";
    assert ToLower(name) == "transfer-encoding" && IsToken(name);
    assert name + ": " == "Transfer-Encoding: ";
    HeaderOf(name, value);
    HeaderLineText(name, value);
  }

  /** Decimal and hex numbers are tokens. */
  lemma NumberText(n: nat, radix: Radix)
    ensures IsToken(Format(n, radix))
  {
    var s := Format(n, radix);
    FormatChars(n, radix);
    forall i | 0 <= i < |s| ensures IsTokenChar(s[i]) {
      assert IsFormatChar(s[i], radix);
    }
  }

  // ---------------------------------------------------------------------------------------------
  // The text on the wire.

  /** Status line, two headers, a blank line and a body, as written by five writes. */
  lemma TextOfFive(status: string, a: string, b: string, body: seq<byte>)
    requires IsAscii(status) && IsAscii(a) && IsAscii(b)
    ensures Latin1(Wire([Logged(status + "\r\n"), Logged(a + "\r\n"), Logged(b + "\r\n"), Raw(CharsToBytes("\r\n")), Raw(body)]))
      == status + "\r\n" + HeaderBlock([a, b]) + Latin1(body)
  {
    LinesOfFive(status, a, b, "\r\n", body);
    BlockOfTwo(a, b);
  }

  lemma LinesOfFive(status: string, a: string, b: string, eol: string, body: seq<byte>)
    requires IsAscii(status) && IsAscii(a) && IsAscii(b) && IsAscii(eol)
    ensures Latin1(Wire([Logged(status + eol), Logged(a + eol), Logged(b + eol), Raw(CharsToBytes(eol)), Raw(body)]))
      == status + eol + (a + eol + (b + eol + eol)) + Latin1(body)
  {
    var x1, x2, x3, x4 := CharsToBytes(status + eol), CharsToBytes(a + eol), CharsToBytes(b + eol), CharsToBytes(eol);
    WireFive(Logged(status + eol), Logged(a + eol), Logged(b + eol), Raw(x4), Raw(body));
    Latin1OfFive(x1, x2, x3, x4, body);
    AsciiLines(status, eol);
    AsciiLines(a, eol);
    AsciiLines(b, eol);
    AsciiReadBack(eol);
  }

  lemma Latin1OfFive(x1: seq<byte>, x2: seq<byte>, x3: seq<byte>, x4: seq<byte>, x5: seq<byte>)
    ensures Latin1(x1 + x2 + x3 + x4 + x5) == Latin1(x1) + (Latin1(x2) + (Latin1(x3) + Latin1(x4))) + Latin1(x5)
  {
    Latin1Append(x1 + x2 + x3 + x4, x5);
    Latin1Append(x1 + x2 + x3, x4);
    Latin1Append(x1 + x2, x3);
    Latin1Append(x1, x2);
  }

  lemma BlockOfTwo(a: string, b: string)
    ensures HeaderBlock([a, b]) == a + "\r\n" + (b + "\r\n" + "\r\n")
  {
    assert [a, b][0] == a && [a, b][1..] == [b];
    assert [b][0] == b && [b][1..] == [];
    assert HeaderBlock([b]) == b + "\r\n" + "\r\n";
  }

  lemma AsciiLines(a: string, eol: string)
    requires IsAscii(a) && IsAscii(eol)
    ensures Latin1(CharsToBytes(a + eol)) == a + eol
  {
    AsciiAppend(a, eol);
    AsciiReadBack(a + eol);
  }

  /** The head of a chunked response, two lines in its first write, then what follows. */
  lemma LinesOfChunkedHead(status: string, a: string, b: string, eol: string, rest: seq<Write>)
    requires IsAscii(status) && IsAscii(a) && IsAscii(b) && IsAscii(eol)
    ensures Latin1(Wire([Logged(status + eol + a + eol), Logged(b + eol), Raw(CharsToBytes(eol))] + rest))
      == status + eol + (a + eol + (b + eol + eol)) + Latin1(Wire(rest))
  {
    AsciiLine(status, eol, a);
    AsciiAppend(b, eol);
    TwoLinesThen(status + eol + a + eol, b + eol, eol, rest);
    Regroup(status, eol, a, b, Latin1(Wire(rest)));
  }

  lemma AsciiLine(status: string, eol: string, a: string)
    requires IsAscii(status) && IsAscii(a) && IsAscii(eol)
    ensures IsAscii(status + eol + a + eol)
  {
    AsciiAppend(status, eol);
    AsciiAppend(status + eol, a);
    AsciiAppend(status + eol + a, eol);
  }

  lemma Regroup(s: string, e: string, a: string, b: string, r: string)
    ensures s + e + a + e + (b + e) + e + r == s + e + (a + e + (b + e + e)) + r
  {
  }

  lemma TwoLinesThen(l1: string, l2: string, eol: string, rest: seq<Write>)
    requires IsAscii(l1) && IsAscii(l2) && IsAscii(eol)
    ensures Latin1(Wire([Logged(l1), Logged(l2), Raw(CharsToBytes(eol))] + rest)) == l1 + l2 + eol + Latin1(Wire(rest))
  {
    var x1, x2, x3 := CharsToBytes(l1), CharsToBytes(l2), CharsToBytes(eol);
    WireThreeThen(Logged(l1), Logged(l2), Raw(x3), rest);
    Latin1Append(x1 + x2 + x3, Wire(rest));
    Latin1Append(x1 + x2, x3);
    Latin1Append(x1, x2);
    AsciiReadBack(l1);
    AsciiReadBack(l2);
    AsciiReadBack(eol);
  }

  // ---------------------------------------------------------------------------------------------
  // The chunked coding.

  /** The chunks are the content cut in order: each 1 to 16 bytes, all but the last exactly 16. */
  lemma {:induction false} ChunkPiecesShape(content: seq<byte>)
    ensures Concat(ChunkPieces(content)) == content
    ensures forall i | 0 <= i < |ChunkPieces(content)| :: 0 < |ChunkPieces(content)[i]| <= ChunkSize
    ensures forall i | 0 <= i < |ChunkPieces(content)| - 1 :: |ChunkPieces(content)[i]| == ChunkSize
    decreases |content|
  {
    var ps := ChunkPieces(content);
    if content == [] {
    } else if |content| >= ChunkSize {
      var rest := content[ChunkSize..];
      ChunkPiecesShape(rest);
      assert ps == [content[..ChunkSize]] + ChunkPieces(rest);
      assert ps[0] == content[..ChunkSize] && ps[1..] == ChunkPieces(rest);
      assert content[..ChunkSize] + rest == content;
      forall i | 0 < i < |ps| ensures ps[i] == ChunkPieces(rest)[i - 1] {
      }
    } else {
      assert ps == [content] && ps[1..] == [];
      assert Concat(ps) == content + Concat([]);
    }
  }

  /** The chunk writes read back as the chunked coding of the pieces. */
  lemma {:induction false} FramesText(pieces: seq<seq<byte>>)
    ensures Latin1(Wire(FrameWrites(pieces))) == ChunkedFrames(pieces)
    decreases |pieces|
  {
    if pieces == [] {
      LastFramesText();
    } else {
      var p, rest := pieces[0], pieces[1..];
      NumberText(|p|, 16);
      TokenText(Hex(|p|));
      FrameText(Hex(|p|), p, "\r\n", FrameWrites(rest));
      FramesText(rest);
      assert FrameWrites(pieces) ==
        [Raw(CharsToBytes(Hex(|p|) + "\r\n")), Raw(p), Raw(CharsToBytes("\r\n"))] + FrameWrites(rest);
      assert ChunkedFrames(pieces) == ChunkFrame(p) + ChunkedFrames(rest);
    }
  }

  lemma LastFramesText()
    ensures Latin1(Wire(FrameWrites([]))) == ChunkedFrames([])
  {
    LastFrameText("0", "\r\n");
    assert "0" + "\r\n" == "0\r\n";
    assert "0" + "\r\n" + "\r\n" == "0\r\n\r\n";
  }

  lemma LastFrameText(zero: string, eol: string)
    requires IsAscii(zero) && IsAscii(eol)
    ensures Latin1(Wire([Raw(CharsToBytes(zero + eol)), Raw(CharsToBytes(eol))])) == zero + eol + eol
  {
    SentTwo([], [], Raw(CharsToBytes(zero + eol)), Raw(CharsToBytes(eol)));
    assert [] + CharsToBytes(zero + eol) == CharsToBytes(zero + eol);
    Latin1Append(CharsToBytes(zero + eol), CharsToBytes(eol));
    AsciiLines(zero, eol);
    AsciiReadBack(eol);
  }

  lemma FrameText(size: string, p: seq<byte>, eol: string, rest: seq<Write>)
    requires IsAscii(size) && IsAscii(eol)
    ensures Latin1(Wire([Raw(CharsToBytes(size + eol)), Raw(p), Raw(CharsToBytes(eol))] + rest))
      == size + eol + Latin1(p) + eol + Latin1(Wire(rest))
  {
    var x1, x3 := CharsToBytes(size + eol), CharsToBytes(eol);
    WireThreeThen(Raw(x1), Raw(p), Raw(x3), rest);
    Latin1Append(x1 + p + x3, Wire(rest));
    Latin1Append(x1 + p, x3);
    Latin1Append(x1, p);
    AsciiLines(size, eol);
    AsciiReadBack(eol);
  }

  // ---------------------------------------------------------------------------------------------
  // The responses read back.

  /** The status line "HTTP/1.1 code message" is one line of ASCII text. */
  lemma StatusText(code: nat, message: string)
    requires IsAscii(message) && HasNoLineEnd(message)
    ensures IsAscii("HTTP/1.1 " + Decimal(code) + " " + message)
    ensures HasNoLineEnd("HTTP/1.1 " + Decimal(code) + " " + message)
  {
    var version, sp, d := "HTTP/1.1 ", " ", Decimal(code);
    NumberText(code, 10);
    TokenText(d);
    AsciiAppend(version, d);
    AsciiAppend(version + d, sp);
    AsciiAppend(version + d + sp, message);
    NoLineEndAppend(version, d);
    NoLineEndAppend(version + d, sp);
    NoLineEndAppend(version + d + sp, message);
  }

  lemma OkStatus()
    ensures IsAscii("HTTP/1.1 200 OK") && HasNoLineEnd("HTTP/1.1 200 OK")
    ensures "HTTP/1.1 200 OK\r\n" == "HTTP/1.1 200 OK" + "\r\n"
  {
  }

  /** A head and a body that ends the input make a response. */
  lemma ReadResponseOf(input: string, status: string, headers: map<string, string>, rest: string, body: seq<byte>)
    requires ReadHead(input) == Ok((status, headers, rest))
    requires IsFramed(headers) && ReadBody(headers, rest) == Ok((body, []))
    ensures ReadResponse(input) == Ok((status, headers, body))
  {
  }

  lemma LinesOfTwo(l1: string, l2: string)
    requires l1 != [] && HasNoLineEnd(l1) && l2 != [] && HasNoLineEnd(l2)
    ensures forall i | 0 <= i < |[l1, l2]| :: [l1, l2][i] != [] && HasNoLineEnd([l1, l2][i])
  {
    var lines := [l1, l2];
    forall i | 0 <= i < |lines| ensures lines[i] != [] && HasNoLineEnd(lines[i]) {
      if i == 1 {
        assert lines[i] == l2;
      }
    }
  }

  /** A status line and two header lines read back as the status and the two headers. */
  lemma HeadOfTwo(status: string, l1: string, l2: string, k1: string, v1: string, k2: string, v2: string, rest: string)
    requires HasNoLineEnd(status)
    requires l1 != [] && HasNoLineEnd(l1) && ParseHeaderLine(l1) == Ok((k1, v1))
    requires l2 != [] && HasNoLineEnd(l2) && ParseHeaderLine(l2) == Ok((k2, v2))
    ensures ReadHead(status + "\r\n" + HeaderBlock([l1, l2]) + rest) == Ok((status, map[k1 := v1][k2 := v2], rest))
  {
    var lines := [l1, l2];
    PutTwo(l1, l2, k1, v1, k2, v2);
    LinesOfTwo(l1, l2);
    HeadOf(status, lines, map[k1 := v1][k2 := v2], rest);
  }

  /**
   * A response framed by Content-Length reads back as its status line, its Content-Type and
   * Content-Length headers, and its body.
   */
  lemma LengthFramedReadBack(status: string, contentType: string, body: seq<byte>)
    requires IsAscii(status) && HasNoLineEnd(status) && IsToken(contentType) && |body| <= MaxValue
    ensures ReadResponse(Latin1(Wire([Logged(status + "\r\n"), Logged("Content-Type: " + contentType + "\r\n"),
                                      Logged("Content-Length: " + Decimal(|body|) + "\r\n"),
                                      Raw(CharsToBytes("\r\n")), Raw(body)])))
      == Ok((status, map["content-type" := contentType]["content-length" := Decimal(|body|)], body))
  {
    LengthFramedText(status, contentType, body);
    LengthFramedResponse(status, contentType, body);
  }

  lemma LengthFramedText(status: string, contentType: string, body: seq<byte>)
    requires IsAscii(status) && HasNoLineEnd(status) && IsToken(contentType) && |body| <= MaxValue
    ensures Latin1(Wire([Logged(status + "\r\n"), Logged("Content-Type: " + contentType + "\r\n"),
                         Logged("Content-Length: " + Decimal(|body|) + "\r\n"),
                         Raw(CharsToBytes("\r\n")), Raw(body)]))
      == status + "\r\n" + HeaderBlock(["Content-Type: " + contentType, "Content-Length: " + Decimal(|body|)]) + Latin1(body)
  {
    var size := Decimal(|body|);
    NumberText(|body|, 10);
    LengthFramedLines(contentType, size);
    TextOfFive(status, "Content-Type: " + contentType, "Content-Length: " + size, body);
  }

  lemma LengthFramedResponse(status: string, contentType: string, body: seq<byte>)
    requires IsAscii(status) && HasNoLineEnd(status) && IsToken(contentType) && |body| <= MaxValue
    ensures ReadResponse(status + "\r\n" + HeaderBlock(["Content-Type: " + contentType, "Content-Length: " + Decimal(|body|)]) + Latin1(body))
      == Ok((status, map["content-type" := contentType]["content-length" := Decimal(|body|)], body))
  {
    var size := Decimal(|body|);
    var l1, l2 := "Content-Type: " + contentType, "Content-Length: " + size;
    var headers := map["content-type" := contentType]["content-length" := size];
    NumberText(|body|, 10);
    LengthFramedHead(status, contentType, size, Latin1(body));
    LengthHeaders(contentType, size);
    ContentLengthFraming(headers, body, []);
    assert Latin1(body) + [] == Latin1(body);
    ReadResponseOf(status + "\r\n" + HeaderBlock([l1, l2]) + Latin1(body), status, headers, Latin1(body), body);
  }

  lemma LengthHeaders(contentType: string, size: string)
    ensures var headers := map["content-type" := contentType]["content-length" := size];
      "transfer-encoding" !in headers && "content-length" in headers && headers["content-length"] == size
      && IsFramed(headers)
  {
    assert |"content-type"| == 12 && |"transfer-encoding"| == 17;
  }

  lemma LengthFramedLines(contentType: string, size: string)
    requires IsToken(contentType) && IsToken(size)
    ensures IsAscii("Content-Type: " + contentType) && IsAscii("Content-Length: " + size)
  {
    ContentTypeLine(contentType);
    ContentLengthLine(size);
  }

  lemma LengthFramedHead(status: string, contentType: string, size: string, rest: string)
    requires HasNoLineEnd(status) && IsToken(contentType) && IsToken(size)
    ensures ReadHead(status + "\r\n" + HeaderBlock(["Content-Type: " + contentType, "Content-Length: " + size]) + rest)
      == Ok((status, map["content-type" := contentType]["content-length" := size], rest))
  {
    ContentTypeLine(contentType);
    ContentLengthLine(size);
    HeadOfTwo(status, "Content-Type: " + contentType, "Content-Length: " + size,
              "content-type", contentType, "content-length", size, rest);
  }

  /** `sendErrorResponse`'s output reads back as its status, text/html, its length and its page. */
  lemma ErrorReadBack(code: nat, message: string)
    requires IsAscii(message) && HasNoLineEnd(message) && |ErrorBody(message)| <= MaxValue
    ensures ReadResponse(Latin1(Wire(ErrorWrites(code, message)))) ==
      Ok(("HTTP/1.1 " + Decimal(code) + " " + message,
          map["content-type" := "text/html"]["content-length" := Decimal(|ErrorBody(message)|)],
          ErrorBody(message)))
  {
    StatusText(code, message);
    HtmlToken();
    LengthFramedReadBack("HTTP/1.1 " + Decimal(code) + " " + message, "text/html", ErrorBody(message));
  }

  lemma HtmlToken()
    ensures IsToken("text/html") && "Content-Type: text/html\r\n" == "Content-Type: " + "text/html" + "\r\n"
  {
  }

  /**
   * `sendSuccessResponse`'s output reads back as "200 OK", the content type and the content,
   * framed by Content-Length, or by the chunked coding when the request asked for it.
   */
  lemma SuccessReadBack(headers: map<string, string>, contentType: string, content: seq<byte>)
    requires IsToken(contentType) && |content| <= MaxValue
    ensures ReadResponse(Latin1(Wire(SuccessWrites(headers, contentType, content)))) ==
      Ok(("HTTP/1.1 200 OK",
          if GetOrDefault(headers, "chunked", "") == "yes"
          then map["content-type" := contentType]["transfer-encoding" := "chunked"]
          else map["content-type" := contentType]["content-length" := Decimal(|content|)],
          content))
  {
    if GetOrDefault(headers, "chunked", "") == "yes" {
      ChunkedReadBack(contentType, content);
    } else {
      OkStatus();
      LengthFramedReadBack("HTTP/1.1 200 OK", contentType, content);
    }
  }

  lemma ChunkedHeadLines(contentType: string)
    ensures "HTTP/1.1 200 OK\r\nContent-Type: " + contentType + "\r\n"
      == "HTTP/1.1 200 OK" + "\r\n" + ("Content-Type: " + contentType) + "\r\n"
    ensures "Transfer-Encoding: chunked\r\n" == "Transfer-Encoding: " + "chunked" + "\r\n"
    ensures IsToken("chunked")
  {
    assert "HTTP/1.1 200 OK\r\nContent-Type: " == "HTTP/1.1 200 OK" + "\r\n" + "Content-Type: ";
  }

  /** The chunked success response reads back as its head and, through the chunks, the content. */
  lemma ChunkedReadBack(contentType: string, content: seq<byte>)
    requires IsToken(contentType)
    ensures ReadResponse(Latin1(Wire(
        [Logged("HTTP/1.1 200 OK\r\nContent-Type: " + contentType + "\r\n"),
         Logged("Transfer-Encoding: chunked\r\n"),
         Raw(CharsToBytes("\r\n"))] + ChunkWrites(content))))
      == Ok(("HTTP/1.1 200 OK", map["content-type" := contentType]["transfer-encoding" := "chunked"], content))
  {
    ChunkedText(contentType, content);
    ChunkedResponse(contentType, content);
  }

  lemma ChunkedResponse(contentType: string, content: seq<byte>)
    requires IsToken(contentType)
    ensures ReadResponse("HTTP/1.1 200 OK" + "\r\n" + HeaderBlock(["Content-Type: " + contentType, "Transfer-Encoding: " + "chunked"])
                         + ChunkedFrames(ChunkPieces(content)))
      == Ok(("HTTP/1.1 200 OK", map["content-type" := contentType]["transfer-encoding" := "chunked"], content))
  {
    var frames := ChunkedFrames(ChunkPieces(content));
    var l1, l2 := "Content-Type: " + contentType, "Transfer-Encoding: " + "chunked";
    var headers := map["content-type" := contentType]["transfer-encoding" := "chunked"];
    ChunkedHeadRead(contentType, frames);
    assert |"content-type"| == 12 && |"content-length"| == 14;
    ChunkedBody(headers, content);
    ReadResponseOf("HTTP/1.1 200 OK" + "\r\n" + HeaderBlock([l1, l2]) + frames, "HTTP/1.1 200 OK", headers, frames, content);
  }

  /** The chunked response's head reads back as its status and its two headers. */
  lemma ChunkedHeadRead(contentType: string, rest: string)
    requires IsToken(contentType)
    ensures ReadHead("HTTP/1.1 200 OK" + "\r\n" + HeaderBlock(["Content-Type: " + contentType, "Transfer-Encoding: " + "chunked"]) + rest)
      == Ok(("HTTP/1.1 200 OK", map["content-type" := contentType]["transfer-encoding" := "chunked"], rest))
  {
    var l1, l2 := "Content-Type: " + contentType, "Transfer-Encoding: " + "chunked";
    OkStatus();
    ChunkedHeadLines(contentType);
    ContentTypeLine(contentType);
    TransferEncodingLine("chunked");
    HeadOfTwo("HTTP/1.1 200 OK", l1, l2, "content-type", contentType, "transfer-encoding", "chunked", rest);
  }

  lemma ChunkedBody(headers: map<string, string>, content: seq<byte>)
    requires "transfer-encoding" in headers && headers["transfer-encoding"] == "chunked" && "content-length" !in headers
    ensures ReadBody(headers, ChunkedFrames(ChunkPieces(content))) == Ok((content, []))
  {
    var pieces := ChunkPieces(content);
    ChunkPiecesShape(content);
    ChunkedFraming(headers, pieces, []);
    assert ChunkedFrames(pieces) + [] == ChunkedFrames(pieces);
  }

  lemma ChunkedHeadAscii(contentType: string)
    requires IsToken(contentType)
    ensures IsAscii("HTTP/1.1 200 OK") && IsAscii("\r\n")
    ensures IsAscii("Content-Type: " + contentType) && IsAscii("Transfer-Encoding: " + "chunked")
  {
    OkStatus();
    ContentTypeLine(contentType);
    TransferEncodingLine("chunked");
  }

  lemma ChunkedText(contentType: string, content: seq<byte>)
    requires IsToken(contentType)
    ensures Latin1(Wire(
        [Logged("HTTP/1.1 200 OK\r\nContent-Type: " + contentType + "\r\n"),
         Logged("Transfer-Encoding: chunked\r\n"),
         Raw(CharsToBytes("\r\n"))] + ChunkWrites(content)))
      == "HTTP/1.1 200 OK" + "\r\n" + HeaderBlock(["Content-Type: " + contentType, "Transfer-Encoding: " + "chunked"])
         + ChunkedFrames(ChunkPieces(content))
  {
    var status, eol := "HTTP/1.1 200 OK", "\r\n";
    var a, b := "Content-Type: " + contentType, "Transfer-Encoding: " + "chunked";
    ChunkedHeadLines(contentType);
    ChunkedHeadAscii(contentType);
    LinesOfChunkedHead(status, a, b, eol, ChunkWrites(content));
    BlockOfTwo(a, b);
    FramesText(ChunkPieces(content));
  }

  // ---------------------------------------------------------------------------------------------
  // HEAD and TRACE.

  /** The HEAD response reads back as the headers a GET would carry, and nothing follows them. */
  lemma HeadReadBack(contentType: string, size: nat)
    requires IsToken(contentType)
    ensures ReadHead(Latin1(Wire(HeadWrites(contentType, size)))) ==
      Ok(("HTTP/1.1 200 OK", map["content-type" := contentType]["content-length" := Decimal(size)], []))
  {
    HeadText(contentType, size);
    NumberText(size, 10);
    OkStatus();
    LengthFramedHead("HTTP/1.1 200 OK", contentType, Decimal(size), []);
  }

  lemma HeadText(contentType: string, size: nat)
    requires IsToken(contentType)
    ensures Latin1(Wire(HeadWrites(contentType, size))) ==
      "HTTP/1.1 200 OK" + "\r\n" + HeaderBlock(["Content-Type: " + contentType, "Content-Length: " + Decimal(size)]) + []
  {
    var status, a, b := "HTTP/1.1 200 OK", "Content-Type: " + contentType, "Content-Length: " + Decimal(size);
    var head := HeadWrites(contentType, size);
    var five := [Logged(status + "\r\n"), Logged(a + "\r\n"), Logged(b + "\r\n"), Raw(CharsToBytes("\r\n")), Raw([])];
    OkStatus();
    assert five == head + [Raw([])];
    WireAppend(head, [Raw([])]);
    WireOne(Raw([]));
    assert Wire(five) == Wire(head) + [];
    NumberText(size, 10);
    LengthFramedLines(contentType, Decimal(size));
    TextOfFive(status, a, b, []);
    assert Latin1([]) == [];
  }

  /**
   * The TRACE response carries neither Content-Length nor the chunked coding, so its body is all
   * that follows the head: the echoed request line and headers.
   */
  lemma TraceReadBack(request: Request, keys: seq<string>)
    ensures ReadHead(Latin1(Wire(TraceWrites(request, keys)))) ==
      Ok(("HTTP/1.1 200 OK", map["content-type" := "message/http"],
          Latin1(Wire([Logged("TRACE " + request.requestedPage + " HTTP/1.1\r\n")] + EchoWrites(request.headers, keys)))))
    ensures ReadResponse(Latin1(Wire(TraceWrites(request, keys)))) ==
      Ok(("HTTP/1.1 200 OK", map["content-type" := "message/http"],
          Wire([Logged("TRACE " + request.requestedPage + " HTTP/1.1\r\n")] + EchoWrites(request.headers, keys))))
  {
    var echo := [Logged("TRACE " + request.requestedPage + " HTTP/1.1\r\n")] + EchoWrites(request.headers, keys);
    var rest := Latin1(Wire(echo));
    TraceText(request, keys);
    TraceHead(rest);
    LowBytesOfLatin1(Wire(echo));
  }

  lemma TraceText(request: Request, keys: seq<string>)
    ensures Latin1(Wire(TraceWrites(request, keys))) ==
      "HTTP/1.1 200 OK" + "\r\n" + HeaderBlock(["Content-Type: " + "message/http"])
      + Latin1(Wire([Logged("TRACE " + request.requestedPage + " HTTP/1.1\r\n")] + EchoWrites(request.headers, keys)))
  {
    var eol := "\r\n";
    var echo := [Logged("TRACE " + request.requestedPage + " HTTP/1.1\r\n")] + EchoWrites(request.headers, keys);
    var head := [Logged("HTTP/1.1 200 OK\r\n"), Logged("Content-Type: message/http\r\n"), Raw(CharsToBytes(eol))];
    assert TraceWrites(request, keys) == head + echo;
    TraceLines();
    TwoLinesThen("HTTP/1.1 200 OK\r\n", "Content-Type: message/http\r\n", eol, echo);
    BlockOfOne("Content-Type: " + "message/http", "HTTP/1.1 200 OK", Latin1(Wire(echo)));
  }

  lemma TraceLines()
    ensures IsAscii("HTTP/1.1 200 OK\r\n") && IsAscii("Content-Type: message/http\r\n") && IsAscii("\r\n")
    ensures "HTTP/1.1 200 OK\r\n" == "HTTP/1.1 200 OK" + "\r\n"
    ensures "Content-Type: message/http\r\n" == "Content-Type: " + "message/http" + "\r\n"
  {
    OkStatus();
    AsciiAppend("HTTP/1.1 200 OK", "\r\n");
    TraceTypeLine();
  }

  lemma TraceTypeLine()
    ensures IsAscii("Content-Type: message/http\r\n")
    ensures "Content-Type: message/http\r\n" == "Content-Type: " + "message/http" + "\r\n"
  {
  }

  lemma BlockOfOne(line: string, status: string, rest: string)
    ensures status + "\r\n" + (line + "\r\n") + "\r\n" + rest == status + "\r\n" + HeaderBlock([line]) + rest
  {
    assert [line][0] == line && [line][1..] == [];
    assert HeaderBlock([line]) == line + "\r\n" + "\r\n";
  }

  /** A status line and a lone Content-Type header read back as the status and that header. */
  lemma ContentTypeHead(status: string, contentType: string, rest: string)
    requires HasNoLineEnd(status) && IsToken(contentType)
    ensures ReadHead(status + "\r\n" + HeaderBlock(["Content-Type: " + contentType]) + rest) ==
      Ok((status, map["content-type" := contentType], rest))
  {
    var line := "Content-Type: " + contentType;
    ContentTypeLine(contentType);
    PutFirst(map[], line, [], "content-type", contentType);
    assert [line] + [] == [line];
    HeadOf(status, [line], map["content-type" := contentType], rest);
  }

  lemma TraceHead(rest: string)
    ensures ReadHead("HTTP/1.1 200 OK" + "\r\n" + HeaderBlock(["Content-Type: " + "message/http"]) + rest) ==
      Ok(("HTTP/1.1 200 OK", map["content-type" := "message/http"], rest))
  {
    OkStatus();
    assert IsToken("message/http");
    ContentTypeHead("HTTP/1.1 200 OK", "message/http", rest);
  }

  // ---------------------------------------------------------------------------------------------
  // Whole exchanges: a request in, the response `run` writes out.

  /** A method the switch does not know is answered 501 Not Implemented. */
  lemma UnknownMethodAnswered(m: string, target: string, version: string, lines: seq<string>,
                              headers: map<string, string>, tail: string, config: Config, fs: FileSystem,
                              page: (map<string, string>, map<string, string>) -> seq<byte>, keys: seq<string>)
    requires IsPlainRequest(m, target, version, lines, headers)
    requires "transfer-encoding" !in headers && "content-length" !in headers
    requires m != "GET" && m != "POST" && m != "HEAD" && m != "TRACE"
    ensures Exchange(RequestHead(m, target, version, lines) + tail, config, fs, page, keys) == ErrorWrites(501, "Not Implemented")
  {
    BodilessRequestRoundTrip(m, target, version, lines, headers, tail);
    ExchangeOfParse(RequestHead(m, target, version, lines) + tail, config, fs, page, keys);
  }

  /** A request line that does not split into three parts is answered 400 Bad Request. */
  lemma MalformedLineAnswered(line: string, rest: string, config: Config, fs: FileSystem,
                              page: (map<string, string>, map<string, string>) -> seq<byte>, keys: seq<string>)
    requires HasNoLineEnd(line) && ' ' !in line
    ensures Exchange(line + "\r\n" + rest, config, fs, page, keys) == ErrorWrites(400, "Bad Request")
  {
    ReadCrlfLine(line, rest);
    RequestLineWithoutSpace(line);
    ExchangeOfParse(line + "\r\n" + rest, config, fs, page, keys);
  }

  /**
   * A target of just "?" fails with an index out of bounds, which `run` does not catch as a bad
   * request: nothing at all is written back.
   */
  lemma QuestionMarkAnsweredWithNothing(m: string, version: string, rest: string, config: Config, fs: FileSystem,
                                        page: (map<string, string>, map<string, string>) -> seq<byte>, keys: seq<string>)
    requires m != [] && version != [] && ' ' !in m && ' ' !in version
    requires HasNoLineEnd(m + " ? " + version)
    ensures Exchange(m + " ? " + version + "\r\n" + rest, config, fs, page, keys) == []
  {
    ReadCrlfLine(m + " ? " + version, rest);
    QuestionMarkTarget(m, version);
    ExchangeOfParse(m + " ? " + version + "\r\n" + rest, config, fs, page, keys);
  }

  /** A POST whose nonempty body is not declared a form is answered 400 Bad Request. */
  lemma NonFormPostAnswered(target: string, version: string, lines: seq<string>, headers: map<string, string>,
                            content: seq<byte>, tail: string, config: Config, fs: FileSystem,
                            page: (map<string, string>, map<string, string>) -> seq<byte>, keys: seq<string>)
    requires IsPlainRequest("POST", target, version, lines, headers)
    requires "transfer-encoding" !in headers && "content-length" in headers
    requires headers["content-length"] == Decimal(|content|) && 0 < |content| <= MaxValue
    requires "content-type" in headers ==> !EqualsIgnoreCase(headers["content-type"], FormType)
    ensures Exchange(RequestHead("POST", target, version, lines) + Latin1(content) + tail, config, fs, page, keys) ==
      ErrorWrites(400, "Bad Request")
  {
    RequestRoundTrip("POST", target, version, lines, headers, content, tail);
    ExchangeOfParse(RequestHead("POST", target, version, lines) + Latin1(content) + tail, config, fs, page, keys);
  }

  /** A GET or HEAD of a page whose file does not exist is answered 404. */
  lemma MissingFileAnswered(m: string, target: string, version: string, lines: seq<string>,
                            headers: map<string, string>, tail: string, config: Config, fs: FileSystem,
                            page: (map<string, string>, map<string, string>) -> seq<byte>, keys: seq<string>, path: string)
    requires IsPlainRequest(m, target, version, lines, headers)
    requires "transfer-encoding" !in headers && "content-length" !in headers
    requires m == "GET" || m == "HEAD"
    requires FilePath(config.rootDirectory, config.home, SanitizedPath(target), config.defaultPage) == Ok(path)
    requires path !in fs.files
    ensures Exchange(RequestHead(m, target, version, lines) + tail, config, fs, page, keys) == ErrorWrites(404, "404 Not Found")
  {
    BodilessRequestRoundTrip(m, target, version, lines, headers, tail);
    ExchangeOfParse(RequestHead(m, target, version, lines) + tail, config, fs, page, keys);
  }

  /**
   * A GET of an existing file is answered with the success response for the file's bytes, a
   * HEAD with its head alone, and a TRACE with the echo of the request.
   */
  lemma FoundFileAnswered(m: string, target: string, version: string, lines: seq<string>,
                          headers: map<string, string>, tail: string, config: Config, fs: FileSystem,
                          page: (map<string, string>, map<string, string>) -> seq<byte>, keys: seq<string>, path: string)
    requires IsPlainRequest(m, target, version, lines, headers)
    requires "transfer-encoding" !in headers && "content-length" !in headers
    requires FilePath(config.rootDirectory, config.home, SanitizedPath(target), config.defaultPage) == Ok(path)
    requires path in fs.files
    ensures m == "GET" ==>
      Exchange(RequestHead(m, target, version, lines) + tail, config, fs, page, keys) ==
      SuccessWrites(headers, ContentType(path, "icon"), fs.files[path])
    ensures m == "HEAD" ==>
      Exchange(RequestHead(m, target, version, lines) + tail, config, fs, page, keys) ==
      HeadWrites(ContentType(path, "icon"), |fs.files[path]|)
  {
    BodilessRequestRoundTrip(m, target, version, lines, headers, tail);
    ExchangeOfParse(RequestHead(m, target, version, lines) + tail, config, fs, page, keys);
  }

  lemma TraceAnswered(target: string, version: string, lines: seq<string>, headers: map<string, string>,
                      tail: string, config: Config, fs: FileSystem,
                      page: (map<string, string>, map<string, string>) -> seq<byte>, keys: seq<string>)
    requires IsPlainRequest("TRACE", target, version, lines, headers)
    requires "transfer-encoding" !in headers && "content-length" !in headers
    ensures Exchange(RequestHead("TRACE", target, version, lines) + tail, config, fs, page, keys) ==
      TraceWrites(Request("TRACE", SanitizedPath(target), headers, [], map[]), keys)
  {
    BodilessRequestRoundTrip("TRACE", target, version, lines, headers, tail);
    ExchangeOfParse(RequestHead("TRACE", target, version, lines) + tail, config, fs, page, keys);
  }

  /** A GET of an existing file reads back as 200 OK, the file's content type, and the file's bytes. */
  lemma GetReadBack(target: string, version: string, lines: seq<string>, headers: map<string, string>, tail: string,
                    config: Config, fs: FileSystem, page: (map<string, string>, map<string, string>) -> seq<byte>,
                    keys: seq<string>, path: string)
    requires IsPlainRequest("GET", target, version, lines, headers)
    requires "transfer-encoding" !in headers && "content-length" !in headers
    requires FilePath(config.rootDirectory, config.home, SanitizedPath(target), config.defaultPage) == Ok(path)
    requires path in fs.files && |fs.files[path]| <= MaxValue && IsToken(ContentType(path, "icon"))
    ensures var r := ReadResponse(Latin1(Wire(Exchange(RequestHead("GET", target, version, lines) + tail, config, fs, page, keys))));
      && r.Ok? && r.value.0 == "HTTP/1.1 200 OK"
      && "content-type" in r.value.1 && r.value.1["content-type"] == ContentType(path, "icon")
      && r.value.2 == fs.files[path]
  {
    FoundFileAnswered("GET", target, version, lines, headers, tail, config, fs, page, keys, path);
    SuccessContentType(headers, ContentType(path, "icon"), fs.files[path]);
  }

  /** However it is framed, the success response reads back as 200 OK, its content type and its content. */
  lemma SuccessContentType(headers: map<string, string>, contentType: string, content: seq<byte>)
    requires IsToken(contentType) && |content| <= MaxValue
    ensures var r := ReadResponse(Latin1(Wire(SuccessWrites(headers, contentType, content))));
      && r.Ok? && r.value.0 == "HTTP/1.1 200 OK"
      && "content-type" in r.value.1 && r.value.1["content-type"] == contentType
      && r.value.2 == content
  {
    SuccessReadBack(headers, contentType, content);
    if GetOrDefault(headers, "chunked", "") == "yes" {
      assert |"content-type"| == 12 && |"transfer-encoding"| == 17;
      TypeKept(contentType, "transfer-encoding", "chunked");
    } else {
      assert |"content-type"| == 12 && |"content-length"| == 14;
      TypeKept(contentType, "content-length", Decimal(|content|));
    }
  }

  lemma TypeKept(contentType: string, k: string, v: string)
    requires k != "content-type"
    ensures "content-type" in map["content-type" := contentType][k := v]
    ensures map["content-type" := contentType][k := v]["content-type"] == contentType
  {
  }

  /** A HEAD of an existing file reads back as the head a GET would carry, with nothing after it. */
  lemma HeadExchangeReadBack(target: string, version: string, lines: seq<string>, headers: map<string, string>, tail: string,
                             config: Config, fs: FileSystem, page: (map<string, string>, map<string, string>) -> seq<byte>,
                             keys: seq<string>, path: string)
    requires IsPlainRequest("HEAD", target, version, lines, headers)
    requires "transfer-encoding" !in headers && "content-length" !in headers
    requires FilePath(config.rootDirectory, config.home, SanitizedPath(target), config.defaultPage) == Ok(path)
    requires path in fs.files && IsToken(ContentType(path, "icon"))
    ensures ReadHead(Latin1(Wire(Exchange(RequestHead("HEAD", target, version, lines) + tail, config, fs, page, keys)))) ==
      Ok(("HTTP/1.1 200 OK",
          map["content-type" := ContentType(path, "icon")]["content-length" := Decimal(|fs.files[path]|)], []))
  {
    FoundFileAnswered("HEAD", target, version, lines, headers, tail, config, fs, page, keys, path);
    HeadReadBack(ContentType(path, "icon"), |fs.files[path]|);
  }

  /**
   * A TRACE reads back as 200 OK with type message/http and, lacking framing, a body that is the
   * request line and the headers echoed.
   */
  lemma TraceExchangeReadBack(target: string, version: string, lines: seq<string>, headers: map<string, string>,
                              tail: string, config: Config, fs: FileSystem,
                              page: (map<string, string>, map<string, string>) -> seq<byte>, keys: seq<string>)
    requires IsPlainRequest("TRACE", target, version, lines, headers)
    requires "transfer-encoding" !in headers && "content-length" !in headers
    ensures ReadResponse(Latin1(Wire(Exchange(RequestHead("TRACE", target, version, lines) + tail, config, fs, page, keys)))) ==
      Ok(("HTTP/1.1 200 OK", map["content-type" := "message/http"],
          Wire([Logged("TRACE " + SanitizedPath(target) + " HTTP/1.1\r\n")] + EchoWrites(headers, keys))))
  {
    TraceAnswered(target, version, lines, headers, tail, config, fs, page, keys);
    TraceReadBack(Request("TRACE", SanitizedPath(target), headers, [], map[]), keys);
  }
}
