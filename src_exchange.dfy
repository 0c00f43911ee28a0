/**
 * Whole exchanges of the earlier snapshot's server: what `run` writes for a request, from the
 * malformed ones (always 500) to the ones each handler answers, and how a client reads the
 * response back when the platform's line separator is CRLF.  On such a platform the success and
 * HEAD responses are byte for byte those of the later snapshot, so the later snapshot's reader
 * (`SourcesResponse.ReadResponse`) reads both.
 */
module SrcExchange {
  import opened Outcomes
  import opened JavaText
  import opened JavaInt
  import opened Bytes
  import opened LineReader
  import opened JavaMaps
  import opened FileTypes
  import opened SrcRequest
  import opened SrcServer
  import Util
  import SourcesServer
  import SourcesResponse

  // ---------------------------------------------------------------------------------------------
  // Requests `run` answers with an error.

  /** A request line that does not split into three parts throws, and `run` answers 500, not 400. */
  lemma MalformedLineAnswered500(eol: string, line: string, rest: string, config: Config, fs: FileSystem,
                                 headerKeys: seq<string>, paramKeys: seq<string>)
    requires HasNoLineEnd(line) && ' ' !in line
    ensures Exchange(eol, line + "\r\n" + rest, config, fs, headerKeys, paramKeys) ==
      ErrorResponse(eol, 500, "Internal Server Error")
  {
    ReadCrlfLine(line, rest);
    RequestLineWithoutSpace(line);
  }

  /**
   * A GET, in any case, whose query holds an empty segment (a leading '&', or "&&" between segments) fails
   * to parse, and is answered 500.
   */
  lemma EmptyQuerySegmentAnswered500(eol: string, m: string, path: string, query: string, version: string,
                                     rest: string, config: Config, fs: FileSystem,
                                     headerKeys: seq<string>, paramKeys: seq<string>, i: nat)
    requires m != [] && path != [] && query != [] && version != []
    requires ' ' !in m && ' ' !in path && ' ' !in query && ' ' !in version
    requires '?' !in path && '?' !in query
    requires HasNoLineEnd(m + " " + (path + "?" + query) + " " + version)
    requires EqualsIgnoreCase("GET", m)
    requires i < |Split(query, Util.Ampersand)| && Split(query, Util.Ampersand)[i] == []
    ensures Exchange(eol, m + " " + (path + "?" + query) + " " + version + "\r\n" + rest, config, fs, headerKeys, paramKeys) ==
      ErrorResponse(eol, 500, "Internal Server Error")
  {
    ReadCrlfLine(m + " " + (path + "?" + query) + " " + version, rest);
    QueryOnlyForGet(m, path, query, version);
    EmptySegmentRejected(map[], Split(query, Util.Ampersand), i);
  }

  /**
   * A method the switch does not name, exactly and in upper case, is answered 501; "get" among
   * them, although its query would have been parsed.
   */
  lemma UnknownMethodAnswered501(eol: string, m: string, target: string, version: string, lines: seq<string>,
                                 headers: map<string, string>, tail: string, config: Config, fs: FileSystem,
                                 headerKeys: seq<string>, paramKeys: seq<string>)
    requires IsPlainRequest(m, target, version, lines, headers) && "Content-Length" !in headers
    requires m != "GET" && m != "POST" && m != "HEAD" && m != "TRACE"
    ensures Exchange(eol, RequestHead(m, target, version, lines) + tail, config, fs, headerKeys, paramKeys) ==
      ErrorResponse(eol, 501, "Not Implemented")
  {
    BodilessRequestRoundTrip(m, target, version, lines, headers, tail);
  }

  /** A GET or HEAD of a file that does not exist: 404, with "404 Not Found" for GET and "Not Found" for HEAD. */
  lemma MissingFileAnswered(eol: string, m: string, target: string, version: string, lines: seq<string>,
                            headers: map<string, string>, tail: string, config: Config, fs: FileSystem,
                            headerKeys: seq<string>, paramKeys: seq<string>, path: string)
    requires IsPlainRequest(m, target, version, lines, headers) && "Content-Length" !in headers
    requires FilePath(config.rootDirectory, config.home, target, config.defaultPage) == Ok(path)
    requires path !in fs.files
    ensures m == "GET" ==>
      Exchange(eol, RequestHead(m, target, version, lines) + tail, config, fs, headerKeys, paramKeys) ==
      ErrorResponse(eol, 404, "404 Not Found")
    ensures m == "HEAD" ==>
      Exchange(eol, RequestHead(m, target, version, lines) + tail, config, fs, headerKeys, paramKeys) ==
      ErrorResponse(eol, 404, "Not Found")
  {
    BodilessRequestRoundTrip(m, target, version, lines, headers, tail);
  }

  // ---------------------------------------------------------------------------------------------
  // Requests a handler answers.

  /**
   * A GET of an existing file other than "/favicon.ico" is answered with the file and the content
   * type of its extension, a HEAD with the same head and no body.  A target of "/" names the
   * default page.
   */
  lemma FoundFileAnswered(eol: string, m: string, target: string, version: string, lines: seq<string>,
                          headers: map<string, string>, tail: string, config: Config, fs: FileSystem,
                          headerKeys: seq<string>, paramKeys: seq<string>, path: string)
    requires IsPlainRequest(m, target, version, lines, headers) && "Content-Length" !in headers
    requires FilePath(config.rootDirectory, config.home, target, config.defaultPage) == Ok(path)
    requires path in fs.files && RequestedFile(target, config.defaultPage) != "/favicon.ico"
    ensures m == "GET" ==>
      Exchange(eol, RequestHead(m, target, version, lines) + tail, config, fs, headerKeys, paramKeys) ==
      SuccessResponse(eol, ContentType(path, IconType), fs.files[path])
    ensures m == "HEAD" ==>
      Exchange(eol, RequestHead(m, target, version, lines) + tail, config, fs, headerKeys, paramKeys) ==
      HeadResponse(eol, ContentType(path, IconType), |fs.files[path]|)
  {
    BodilessRequestRoundTrip(m, target, version, lines, headers, tail);
  }

  /**
   * A GET of "/favicon.ico" that exists under the root is answered with the root's "favicon.ico"
   * as "image/x-icon", or 404 "Not Found" when that file is missing.
   */
  lemma FaviconAnswered(eol: string, version: string, lines: seq<string>, headers: map<string, string>,
                        tail: string, config: Config, fs: FileSystem,
                        headerKeys: seq<string>, paramKeys: seq<string>, path: string, favicon: string)
    requires IsPlainRequest("GET", "/favicon.ico", version, lines, headers) && "Content-Length" !in headers
    requires FilePath(config.rootDirectory, config.home, "/favicon.ico", config.defaultPage) == Ok(path)
    requires path in fs.files
    requires PathsGet(ExpandHome(config.rootDirectory, config.home), "favicon.ico") == Ok(favicon)
    ensures Exchange(eol, RequestHead("GET", "/favicon.ico", version, lines) + tail, config, fs, headerKeys, paramKeys) ==
      if favicon in fs.files then SuccessResponse(eol, IconType, fs.files[favicon])
      else ErrorResponse(eol, 404, "Not Found")
  {
    BodilessRequestRoundTrip("GET", "/favicon.ico", version, lines, headers, tail);
  }

  /**
   * A POST with a body of its Content-Length is answered with the text of its parameters: the
   * body's pairs when the body is a form, else none.
   */
  lemma PostAnswered(eol: string, target: string, version: string, lines: seq<string>, headers: map<string, string>,
                     content: string, tail: string, config: Config, fs: FileSystem,
                     headerKeys: seq<string>, paramKeys: seq<string>)
    requires IsPlainRequest("POST", target, version, lines, headers)
    requires "Content-Length" in headers && headers["Content-Length"] == Decimal(|content|) && |content| <= MaxValue
    ensures Exchange(eol, RequestHead("POST", target, version, lines) + content + tail, config, fs, headerKeys, paramKeys) ==
      SuccessResponse(eol, "text/plain",
                      CharsToBytes("Received POST Data: " + MapText(BodyParams(headers, content, map[]), paramKeys)))
  {
    RequestRoundTrip("POST", target, version, lines, headers, content, tail);
  }

  // ---------------------------------------------------------------------------------------------
  // The same bytes as the later snapshot, with CRLF lines.

  /** With CRLF lines, the success response is the later snapshot's unchunked one, byte for byte. */
  lemma SuccessMatchesLater(contentType: string, content: seq<byte>)
    ensures SuccessResponse("\r\n", contentType, content) ==
      Util.Wire(SourcesServer.SuccessWrites(map[], contentType, content))
  {
    var eol := "\r\n";
    var a, b := "Content-Type: " + contentType, "Content-Length: " + Decimal(|content|);
    assert GetOrDefault(map[], "chunked", "") == "";
    OkLineText();
    var ws := [Util.Logged("HTTP/1.1 200 OK\r\n"), Util.Logged(a + eol), Util.Logged(b + eol),
               Util.Raw(CharsToBytes(eol)), Util.Raw(content)];
    assert SourcesServer.SuccessWrites(map[], contentType, content) == ws;
    Util.WireFive(ws[0], ws[1], ws[2], ws[3], ws[4]);
    assert Util.WriteBytes(ws[0]) == Line(eol, "HTTP/1.1 200 OK");
    assert Util.WriteBytes(ws[1]) == Line(eol, a);
    assert Util.WriteBytes(ws[2]) == Line(eol, b);
    assert Util.WriteBytes(ws[3]) == Line(eol, "");
  }

  /** With CRLF lines, the HEAD response is the later snapshot's, byte for byte. */
  lemma HeadMatchesLater(contentType: string, size: nat)
    ensures HeadResponse("\r\n", contentType, size) == Util.Wire(SourcesServer.HeadWrites(contentType, size))
  {
    var eol := "\r\n";
    var a, b := "Content-Type: " + contentType, "Content-Length: " + Decimal(size);
    OkLineText();
    var ws := [Util.Logged("HTTP/1.1 200 OK\r\n"), Util.Logged(a + eol), Util.Logged(b + eol),
               Util.Raw(CharsToBytes(eol))];
    assert SourcesServer.HeadWrites(contentType, size) == ws;
    Util.WireFour(ws[0], ws[1], ws[2], ws[3]);
    assert Util.WriteBytes(ws[0]) == Line(eol, "HTTP/1.1 200 OK");
    assert Util.WriteBytes(ws[1]) == Line(eol, a);
    assert Util.WriteBytes(ws[2]) == Line(eol, b);
    assert Util.WriteBytes(ws[3]) == Line(eol, "");
  }

  lemma OkLineText()
    ensures "HTTP/1.1 200 OK" + "\r\n" == "HTTP/1.1 200 OK\r\n"
  {
  }

  // ---------------------------------------------------------------------------------------------
  // Reading responses back.

  /** With CRLF lines, a success response reads back as 200 OK, its type, a Content-Length of the content's size, and the content. */
  lemma SuccessReadBack(contentType: string, content: seq<byte>)
    requires SourcesResponse.IsToken(contentType) && |content| <= MaxValue
    ensures SourcesResponse.ReadResponse(Latin1(SuccessResponse("\r\n", contentType, content))) ==
      Ok(("HTTP/1.1 200 OK", map["content-type" := contentType]["content-length" := Decimal(|content|)], content))
  {
    SuccessMatchesLater(contentType, content);
    SourcesResponse.SuccessReadBack(map[], contentType, content);
  }

  /** With CRLF lines, a HEAD response reads back as the head a GET would carry, with nothing after it. */
  lemma HeadReadBack(contentType: string, size: nat)
    requires SourcesResponse.IsToken(contentType)
    ensures SourcesResponse.ReadHead(Latin1(HeadResponse("\r\n", contentType, size))) ==
      Ok(("HTTP/1.1 200 OK", map["content-type" := contentType]["content-length" := Decimal(size)], []))
  {
    HeadMatchesLater(contentType, size);
    SourcesResponse.HeadReadBack(contentType, size);
  }

  /**
   * With CRLF lines, an error response reads back as its status and text/html; lacking any
   * framing, its body is the page line, up to the closing of the connection.
   */
  lemma ErrorReadBack(code: nat, message: string)
    requires IsAscii(message) && HasNoLineEnd(message)
    ensures SourcesResponse.ReadResponse(Latin1(ErrorResponse("\r\n", code, message))) ==
      Ok(("HTTP/1.1 " + Decimal(code) + " " + message, map["content-type" := "text/html"],
          CharsToBytes("<html><body><h1>" + message + "</h1></body></html>" + "\r\n")))
  {
    var status := "HTTP/1.1 " + Decimal(code) + " " + message;
    var page := "<html><body><h1>" + message + "</h1></body></html>" + "\r\n";
    ErrorText(code, message);
    SourcesResponse.HtmlToken();
    SourcesResponse.ContentTypeHead(status, "text/html", page);
    AsciiReadBack(page);
  }

  /** The error response, read one char per byte, is its status, its one header and its page. */
  lemma ErrorText(code: nat, message: string)
    requires IsAscii(message) && HasNoLineEnd(message)
    ensures IsAscii("<html><body><h1>" + message + "</h1></body></html>" + "\r\n")
    ensures HasNoLineEnd("HTTP/1.1 " + Decimal(code) + " " + message)
    ensures Latin1(ErrorResponse("\r\n", code, message)) ==
      "HTTP/1.1 " + Decimal(code) + " " + message + "\r\n" + HeaderBlock(["Content-Type: " + "text/html"])
      + ("<html><body><h1>" + message + "</h1></body></html>" + "\r\n")
  {
    var eol := "\r\n";
    var status := "HTTP/1.1 " + Decimal(code) + " " + message;
    var header := "Content-Type: text/html";
    var page := "<html><body><h1>" + message + "</h1></body></html>";
    SourcesResponse.StatusText(code, message);
    HtmlPage(message);
    AsciiAppend(page, eol);
    HtmlHeader();
    FourLinesText(status, header, "", page, eol);
    assert "" + eol == eol;
    assert HeaderBlock(["Content-Type: " + "text/html"]) == header + eol + eol by {
      assert ["Content-Type: " + "text/html"][1..] == [];
    }
  }

  lemma HtmlPage(message: string)
    requires IsAscii(message)
    ensures IsAscii("<html><body><h1>" + message + "</h1></body></html>")
  {
    AsciiAppend("<html><body><h1>", message);
    AsciiAppend("<html><body><h1>" + message, "</h1></body></html>");
  }

  lemma HtmlHeader()
    ensures IsAscii("Content-Type: text/html") && "Content-Type: " + "text/html" == "Content-Type: text/html"
  {
  }

  /** Four lines of ASCII text, read one char per byte, are the lines again. */
  lemma FourLinesText(l1: string, l2: string, l3: string, l4: string, eol: string)
    requires IsAscii(l1) && IsAscii(l2) && IsAscii(l3) && IsAscii(l4) && IsAscii(eol)
    ensures Latin1(Line(eol, l1) + Line(eol, l2) + Line(eol, l3) + Line(eol, l4))
      == l1 + eol + (l2 + eol) + (l3 + eol) + (l4 + eol)
  {
    var x1, x2, x3, x4 := Line(eol, l1), Line(eol, l2), Line(eol, l3), Line(eol, l4);
    Latin1Append(x1 + x2 + x3, x4);
    Latin1Append(x1 + x2, x3);
    Latin1Append(x1, x2);
    SourcesResponse.AsciiLines(l1, eol);
    SourcesResponse.AsciiLines(l2, eol);
    SourcesResponse.AsciiLines(l3, eol);
    SourcesResponse.AsciiLines(l4, eol);
  }

  // ---------------------------------------------------------------------------------------------
  // Whole exchanges read back.

  /** A malformed request line reads back, over CRLF, as a 500 status and never a 400. */
  lemma MalformedLineReadBack(line: string, rest: string, config: Config, fs: FileSystem,
                              headerKeys: seq<string>, paramKeys: seq<string>)
    requires HasNoLineEnd(line) && ' ' !in line
    ensures var r := SourcesResponse.ReadResponse(Latin1(Exchange("\r\n", line + "\r\n" + rest, config, fs, headerKeys, paramKeys)));
      r.Ok? && r.value.0 == "HTTP/1.1 500 Internal Server Error"
  {
    MalformedLineAnswered500("\r\n", line, rest, config, fs, headerKeys, paramKeys);
    ServerErrorStatus();
    ErrorReadBack(500, "Internal Server Error");
  }

  lemma ServerErrorStatus()
    ensures IsAscii("Internal Server Error") && HasNoLineEnd("Internal Server Error")
    ensures "HTTP/1.1 " + Decimal(500) + " " + "Internal Server Error" == "HTTP/1.1 500 Internal Server Error"
  {
    DecimalOf500();
    ServerErrorChars();
    ServerErrorLine();
  }

  lemma ServerErrorChars()
    ensures IsAscii("Internal Server Error") && HasNoLineEnd("Internal Server Error")
  {
  }

  lemma ServerErrorLine()
    ensures "HTTP/1.1 " + "500" + " " + "Internal Server Error" == "HTTP/1.1 500 Internal Server Error"
  {
  }

  lemma DecimalOf500()
    ensures Decimal(500) == "500"
  {
    assert Format(5, 10) == "5";
    assert Format(50, 10) == "5" + "0";
    assert Format(500, 10) == "5" + "0" + "0";
  }

  /**
   * A GET of "/" reads back, over CRLF, as 200 OK with the default page's bytes, its content type
   * and its length.
   */
  lemma RootReadBack(version: string, lines: seq<string>, headers: map<string, string>, tail: string,
                     config: Config, fs: FileSystem, headerKeys: seq<string>, paramKeys: seq<string>, path: string)
    requires IsPlainRequest("GET", "/", version, lines, headers) && "Content-Length" !in headers
    requires PathsGet(ExpandHome(config.rootDirectory, config.home), config.defaultPage) == Ok(path)
    requires path in fs.files && config.defaultPage != "/favicon.ico"
    requires |fs.files[path]| <= MaxValue && SourcesResponse.IsToken(ContentType(path, IconType))
    ensures SourcesResponse.ReadResponse(Latin1(Exchange("\r\n", RequestHead("GET", "/", version, lines) + tail,
                                                         config, fs, headerKeys, paramKeys))) ==
      Ok(("HTTP/1.1 200 OK",
          map["content-type" := ContentType(path, IconType)]["content-length" := Decimal(|fs.files[path]|)],
          fs.files[path]))
  {
    FoundFileAnswered("\r\n", "GET", "/", version, lines, headers, tail, config, fs, headerKeys, paramKeys, path);
    SuccessReadBack(ContentType(path, IconType), fs.files[path]);
  }

  lemma PlainToken()
    ensures SourcesResponse.IsToken("text/plain")
  {
  }

  /**
   * A POST reads back, over CRLF, as 200 OK, text/plain, and the text of its parameters, one
   * "key=value" entry per key in the order the map is visited.
   */
  lemma PostReadBack(target: string, version: string, lines: seq<string>, headers: map<string, string>,
                     content: string, tail: string, config: Config, fs: FileSystem,
                     headerKeys: seq<string>, paramKeys: seq<string>)
    requires IsPlainRequest("POST", target, version, lines, headers)
    requires "Content-Length" in headers && headers["Content-Length"] == Decimal(|content|) && |content| <= MaxValue
    requires |"Received POST Data: " + MapText(BodyParams(headers, content, map[]), paramKeys)| <= MaxValue
    ensures SourcesResponse.ReadResponse(Latin1(Exchange("\r\n", RequestHead("POST", target, version, lines) + content + tail,
                                                         config, fs, headerKeys, paramKeys))) ==
      var text := CharsToBytes("Received POST Data: " + MapText(BodyParams(headers, content, map[]), paramKeys));
      Ok(("HTTP/1.1 200 OK", map["content-type" := "text/plain"]["content-length" := Decimal(|text|)], text))
  {
    var text := CharsToBytes("Received POST Data: " + MapText(BodyParams(headers, content, map[]), paramKeys));
    PostAnswered("\r\n", target, version, lines, headers, content, tail, config, fs, headerKeys, paramKeys);
    PlainToken();
    SuccessReadBack("text/plain", text);
  }
}
