/**
 * The later snapshot's `ClientHandler`: the response writers (status line and headers, a
 * Content-Length body or the chunked coding in 16-byte chunks), the GET/HEAD, POST and TRACE
 * handlers, and `run`, which parses the request and dispatches on its method.  A response is the
 * sequence of writes it makes (`Util.Write`); the spec functions say which, and the class makes
 * them one by one.  The file system, the configuration and the user's home directory are
 * parameters.
 */
module SourcesServer {
  import opened Outcomes
  import opened JavaText
  import opened JavaInt
  import opened Bytes
  import opened LineReader
  import opened Streams
  import opened Util
  import opened JavaMaps
  import opened FileTypes
  import opened SourcesRequest

  /** `ClientHandler.CHUNK_SIZE`. */
  const ChunkSize: nat := 16

  /** What `handlePostRequest` accepts a body as. */
  const FormType: string := "application/x-www-form-urlencoded"

  // ---------------------------------------------------------------------------------------------
  // The responses.

  /** The page `sendErrorResponse` sends for a status message. */
  function ErrorBody(message: string): seq<byte> {
    CharsToBytes("<html><body><h1>" + message + "</h1></body></html>\r\n")
  }

  /** `sendErrorResponse(out, code, message)`: status line, two headers, blank line, page. */
  function ErrorWrites(code: nat, message: string): seq<Write> {
    var body := ErrorBody(message);
    [Logged("HTTP/1.1 " + Decimal(code) + " " + message + "\r\n"),
     Logged("Content-Type: text/html\r\n"),
     Logged("Content-Length: " + Decimal(|body|) + "\r\n"),
     Raw(CharsToBytes("\r\n")),
     Raw(body)]
  }

  /**
   * The chunks `writeChunkedResponse` cuts content into: full chunks of ChunkSize bytes while at
   * least that many remain, then whatever is left.
   */
  function ChunkPieces(content: seq<byte>): seq<seq<byte>>
    decreases |content|
  {
    if content == [] then []
    else if |content| >= ChunkSize then [content[..ChunkSize]] + ChunkPieces(content[ChunkSize..])
    else [content]
  }

  /** Each chunk as its hex size line, its bytes and CRLF; then "0", CRLF and the final CRLF. */
  function FrameWrites(pieces: seq<seq<byte>>): seq<Write>
    decreases |pieces|
  {
    if pieces == [] then [Raw(CharsToBytes("0\r\n")), Raw(CharsToBytes("\r\n"))]
    else
      [Raw(CharsToBytes(Hex(|pieces[0]|) + "\r\n")), Raw(pieces[0]), Raw(CharsToBytes("\r\n"))] + FrameWrites(pieces[1..])
  }

  /** `writeChunkedResponse(out, content)`. */
  function ChunkWrites(content: seq<byte>): seq<Write> {
    FrameWrites(ChunkPieces(content))
  }

  /** `sendSuccessResponse`: chunked exactly when the request's "chunked" header is "yes". */
  function SuccessWrites(headers: map<string, string>, contentType: string, content: seq<byte>): seq<Write> {
    if GetOrDefault(headers, "chunked", "") == "yes" then
      [Logged("HTTP/1.1 200 OK\r\nContent-Type: " + contentType + "\r\n"),
       Logged("Transfer-Encoding: chunked\r\n"),
       Raw(CharsToBytes("\r\n"))] + ChunkWrites(content)
    else
      [Logged("HTTP/1.1 200 OK\r\n"),
       Logged("Content-Type: " + contentType + "\r\n"),
       Logged("Content-Length: " + Decimal(|content|) + "\r\n"),
       Raw(CharsToBytes("\r\n")),
       Raw(content)]
  }

  /** The HEAD branch: the headers a GET would send with Content-Length, and no body. */
  function HeadWrites(contentType: string, size: nat): seq<Write> {
    [Logged("HTTP/1.1 200 OK\r\n"),
     Logged("Content-Type: " + contentType + "\r\n"),
     Logged("Content-Length: " + Decimal(size) + "\r\n"),
     Raw(CharsToBytes("\r\n"))]
  }

  /** The header lines `handleTraceRequest` echoes, in the order the keys are visited. */
  function EchoWrites(headers: map<string, string>, keys: seq<string>): seq<Write>
    decreases |keys|
  {
    if keys == [] then []
    else
      var k := keys[|keys| - 1];
      EchoWrites(headers, keys[..|keys| - 1]) + (if k in headers then [Logged(k + ": " + headers[k] + "\r\n")] else [])
  }

  /** `handleTraceRequest`: a message/http response echoing the request line and the headers. */
  function TraceWrites(request: Request, keys: seq<string>): seq<Write> {
    [Logged("HTTP/1.1 200 OK\r\n"),
     Logged("Content-Type: message/http\r\n"),
     Raw(CharsToBytes("\r\n")),
     Logged("TRACE " + request.requestedPage + " HTTP/1.1\r\n")] + EchoWrites(request.headers, keys)
  }

  // ---------------------------------------------------------------------------------------------
  // The handlers and the dispatch.

  /**
   * `handleGetOrHeadRequest`: the path under the root (an invalid one throws), 404 for a missing
   * file, the HEAD headers, or the file sent as a success response.
   */
  function GetOrHead(request: Request, config: Config, fs: FileSystem, isHead: bool): Result<seq<Write>> {
    var path :- FilePath(config.rootDirectory, config.home, request.requestedPage, config.defaultPage);
    if path !in fs.files then Ok(ErrorWrites(404, "404 Not Found"))
    else
      var contentType := ContentType(path, "icon");
      if isHead then Ok(HeadWrites(contentType, |fs.files[path]|))
      else Ok(SuccessWrites(request.headers, contentType, fs.files[path]))
  }

  /** A body is only accepted as a form: without that content type it must be empty. */
  predicate AcceptsBody(request: Request) {
    ("content-type" in request.headers && EqualsIgnoreCase(request.headers["content-type"], FormType))
    || |request.body| == 0
  }

  /**
   * `handlePostRequest`: a body that is not a form is a bad request; the body is decoded as a
   * query string, and the page made from the two parameter maps is sent as HTML.
   */
  function Post(request: Request, page: (map<string, string>, map<string, string>) -> seq<byte>): Result<seq<Write>> {
    if !AcceptsBody(request) then Err(BadRequest)
    else
      var bodyParams :- QueryParams(Latin1(request.body));
      Ok(SuccessWrites(request.headers, "text/html", page(request.parameters, bodyParams)))
  }

  /** The switch in `run`: the four methods it knows, and 501 for any other. */
  function Respond(request: Request, config: Config, fs: FileSystem,
                   page: (map<string, string>, map<string, string>) -> seq<byte>, keys: seq<string>): Result<seq<Write>> {
    if request.httpMethod == "GET" then GetOrHead(request, config, fs, false)
    else if request.httpMethod == "POST" then Post(request, page)
    else if request.httpMethod == "HEAD" then GetOrHead(request, config, fs, true)
    else if request.httpMethod == "TRACE" then Ok(TraceWrites(request, keys))
    else Ok(ErrorWrites(501, "Not Implemented"))
  }

  /** The writes of a handler that may throw: a BadRequestException is answered with 400, any other exception with nothing. */
  function Answered(r: Result<seq<Write>>): seq<Write> {
    if r.Ok? then r.value
    else if r.error == BadRequest then ErrorWrites(400, "Bad Request")
    else []
  }

  /** Everything `run` writes for an input stream. */
  function Exchange(input: string, config: Config, fs: FileSystem,
                    page: (map<string, string>, map<string, string>) -> seq<byte>, keys: seq<string>): seq<Write> {
    match ParseRequest(input)
    case Err(e) => Answered(Err(e))
    case Ok((request, _)) => Answered(Respond(request, config, fs, page, keys))
  }

  function WritesOf(r: Result<seq<Write>>): seq<Write> {
    if r.Ok? then r.value else []
  }

  function OutcomeOf(r: Result<seq<Write>>): Outcome {
    if r.Ok? then Pass else Fail(r.error)
  }

  // ---------------------------------------------------------------------------------------------
  // The handler, write by write.

  class ClientHandler {
    const log: StringBuilder

    constructor ()
      ensures fresh(log) && log.content == []
    {
      log := new StringBuilder();
    }

    /** `writeChunkedResponse`: full chunks while 16 bytes remain, the rest as one chunk, then the last chunk. */
    method WriteChunkedResponse(out: OutputStream, content: seq<byte>)
      modifies out
      ensures out.written == old(out.written) + Wire(ChunkWrites(content))
    {
      var i := 0;
      while i < |content|
        invariant 0 <= i <= |content|
        invariant old(out.written) + Wire(ChunkWrites(content)) == out.written + Wire(ChunkWrites(content[i..]))
        decreases |content| - i
      {
        // A full chunk while CHUNK_SIZE bytes remain, otherwise the remaining content.length - i.
        var n := if |content| - i >= ChunkSize then ChunkSize else |content| - i;
        ChunkWritesStep(out.written, content[i..]);
        SplitSuffix(content, i, n);
        out.Write(CharsToBytes(Hex(n) + "\r\n"));
        out.Write(content[i..i + n]);
        out.Write(CharsToBytes("\r\n"));
        i := i + n;
      }
      LastChunkWrites(out.written, content[i..]);
      out.Write(CharsToBytes("0\r\n"));
      out.Write(CharsToBytes("\r\n"));
    }

    /** `sendErrorResponse`. */
    method SendErrorResponse(out: OutputStream, code: nat, message: string)
      modifies log, out
      ensures out.written == old(out.written) + Wire(ErrorWrites(code, message))
      ensures log.content == old(log.content) + LogOf(ErrorWrites(code, message))
    {
      ghost var out0, log0 := out.written, log.content;
      var body := CharsToBytes("<html><body><h1>" + message + "</h1></body></html>\r\n");
      var line1 := "HTTP/1.1 " + Decimal(code) + " " + message + "\r\n";
      var line3 := "Content-Length: " + Decimal(|body|) + "\r\n";
      WriteToByteStreamAndLog(log, out, line1);
      WriteToByteStreamAndLog(log, out, "Content-Type: text/html\r\n");
      WriteToByteStreamAndLog(log, out, line3);
      out.Write(CharsToBytes("\r\n"));
      out.Write(body);
      SentFive(out0, log0, Logged(line1), Logged("Content-Type: text/html\r\n"), Logged(line3), Raw(CharsToBytes("\r\n")), Raw(body));
      LoggedThreeThenRaw(log0, line1, "Content-Type: text/html\r\n", line3, CharsToBytes("\r\n"), body);
    }

    /** `sendSuccessResponse`, given the request's headers. */
    method SendSuccessResponse(headers: map<string, string>, out: OutputStream, contentType: string, content: seq<byte>)
      modifies log, out
      ensures out.written == old(out.written) + Wire(SuccessWrites(headers, contentType, content))
      ensures log.content == old(log.content) + LogOf(SuccessWrites(headers, contentType, content))
    {
      ghost var out0, log0 := out.written, log.content;
      if GetOrDefault(headers, "chunked", "") == "yes" {
        var line1 := "HTTP/1.1 200 OK\r\nContent-Type: " + contentType + "\r\n";
        WriteToByteStreamAndLog(log, out, line1);
        WriteToByteStreamAndLog(log, out, "Transfer-Encoding: chunked\r\n");
        out.Write(CharsToBytes("\r\n"));
        WriteChunkedResponse(out, content);
        ChunkedSent(out0, log0, line1, "Transfer-Encoding: chunked\r\n", CharsToBytes("\r\n"), content);
      } else {
        var line2 := "Content-Type: " + contentType + "\r\n";
        var line3 := "Content-Length: " + Decimal(|content|) + "\r\n";
        WriteToByteStreamAndLog(log, out, "HTTP/1.1 200 OK\r\n");
        WriteToByteStreamAndLog(log, out, line2);
        WriteToByteStreamAndLog(log, out, line3);
        out.Write(CharsToBytes("\r\n"));
        out.Write(content);
        SentFive(out0, log0, Logged("HTTP/1.1 200 OK\r\n"), Logged(line2), Logged(line3), Raw(CharsToBytes("\r\n")), Raw(content));
        LoggedThreeThenRaw(log0, "HTTP/1.1 200 OK\r\n", line2, line3, CharsToBytes("\r\n"), content);
      }
    }

    /** `handleGetOrHeadRequest`. */
    method HandleGetOrHeadRequest(request: Request, out: OutputStream, config: Config, fs: FileSystem, isHead: bool)
      returns (outcome: Outcome)
      modifies log, out
      ensures outcome == OutcomeOf(GetOrHead(request, config, fs, isHead))
      ensures out.written == old(out.written) + Wire(WritesOf(GetOrHead(request, config, fs, isHead)))
      ensures log.content == old(log.content) + LogOf(WritesOf(GetOrHead(request, config, fs, isHead)))
    {
      var root := ExpandHome(config.rootDirectory, config.home);
      var requestedFile := if request.requestedPage == "/" then config.defaultPage else request.requestedPage;
      var filePath := PathsGet(root, requestedFile);
      if filePath.Err? {
        return Fail(filePath.error);
      }
      var path := filePath.value;
      if path !in fs.files {
        SendErrorResponse(out, 404, "404 Not Found");
        return Pass;
      }
      var contentType := ContentType(path, "icon");
      if isHead {
        SendHeadResponse(out, contentType, |fs.files[path]|);
      } else {
        var fileContent := fs.files[path];
        SendSuccessResponse(request.headers, out, contentType, fileContent);
      }
      return Pass;
    }

    /** The HEAD branch of `handleGetOrHeadRequest`: the headers, a blank line and no body. */
    method SendHeadResponse(out: OutputStream, contentType: string, size: nat)
      modifies log, out
      ensures out.written == old(out.written) + Wire(HeadWrites(contentType, size))
      ensures log.content == old(log.content) + LogOf(HeadWrites(contentType, size))
    {
      ghost var out0, log0 := out.written, log.content;
      var line2 := "Content-Type: " + contentType + "\r\n";
      var line3 := "Content-Length: " + Decimal(size) + "\r\n";
      WriteToByteStreamAndLog(log, out, "HTTP/1.1 200 OK\r\n");
      WriteToByteStreamAndLog(log, out, line2);
      WriteToByteStreamAndLog(log, out, line3);
      out.Write(CharsToBytes("\r\n"));
      SentFour(out0, log0, Logged("HTTP/1.1 200 OK\r\n"), Logged(line2), Logged(line3), Raw(CharsToBytes("\r\n")));
      LoggedThreeThenRaw(log0, "HTTP/1.1 200 OK\r\n", line2, line3, CharsToBytes("\r\n"), []);
    }

    /** `handlePostRequest`, with the page built from the two parameter maps given as page. */
    method HandlePostRequest(request: Request, out: OutputStream, page: (map<string, string>, map<string, string>) -> seq<byte>)
      returns (outcome: Outcome)
      modifies log, out
      ensures outcome == OutcomeOf(Post(request, page))
      ensures out.written == old(out.written) + Wire(WritesOf(Post(request, page)))
      ensures log.content == old(log.content) + LogOf(WritesOf(Post(request, page)))
    {
      var urlParams := request.parameters;
      if "content-type" !in request.headers || !EqualsIgnoreCase(request.headers["content-type"], FormType) {
        if |request.body| > 0 {
          return Fail(BadRequest);
        }
      }
      var bodyParams := ParseQueryString(Latin1(request.body));
      if bodyParams.Err? {
        return Fail(bodyParams.error);
      }
      SendSuccessResponse(request.headers, out, "text/html", page(urlParams, bodyParams.value));
      return Pass;
    }

    /** `handleTraceRequest`; returns the order the headers were echoed in. */
    method HandleTraceRequest(request: Request, out: OutputStream) returns (keys: seq<string>)
      modifies log, out
      ensures IsEnumeration(keys, request.headers)
      ensures out.written == old(out.written) + Wire(TraceWrites(request, keys))
      ensures log.content == old(log.content) + LogOf(TraceWrites(request, keys))
    {
      ghost var out0, log0 := out.written, log.content;
      var line4 := "TRACE " + request.requestedPage + " HTTP/1.1\r\n";
      WriteToByteStreamAndLog(log, out, "HTTP/1.1 200 OK\r\n");
      WriteToByteStreamAndLog(log, out, "Content-Type: message/http\r\n");
      out.Write(CharsToBytes("\r\n"));
      WriteToByteStreamAndLog(log, out, line4);
      ghost var head := [Logged("HTTP/1.1 200 OK\r\n"), Logged("Content-Type: message/http\r\n"), Raw(CharsToBytes("\r\n")), Logged(line4)];
      SentFour(out0, log0, head[0], head[1], head[2], head[3]);
      TraceHeadLog(log0, "HTTP/1.1 200 OK\r\n", "Content-Type: message/http\r\n", CharsToBytes("\r\n"), line4);
      keys := EntryOrder(request.headers);
      EchoHeaders(out, request.headers, keys);
      SentThen(out0, log0, head, EchoWrites(request.headers, keys));
    }

    /** The loop of `handleTraceRequest`: each header as "name: value" and CRLF, in the order visited. */
    method EchoHeaders(out: OutputStream, headers: map<string, string>, keys: seq<string>)
      requires forall i | 0 <= i < |keys| :: keys[i] in headers
      modifies log, out
      ensures out.written == old(out.written) + Wire(EchoWrites(headers, keys))
      ensures log.content == old(log.content) + LogOf(EchoWrites(headers, keys))
    {
      ghost var out0, log0 := out.written, log.content;
      assert keys[..0] == [];
      for i := 0 to |keys|
        invariant out.written == out0 + Wire(EchoWrites(headers, keys[..i]))
        invariant log.content == log0 + LogOf(EchoWrites(headers, keys[..i]))
      {
        var key := keys[i];
        var line := key + ": " + headers[key] + "\r\n";
        ghost var echoed := EchoWrites(headers, keys[..i]);
        WriteToByteStreamAndLog(log, out, line);
        SentOneMore(out0, log0, echoed, Logged(line));
        assert keys[..i + 1][..i] == keys[..i] && keys[..i + 1][i] == key;
        assert EchoWrites(headers, keys[..i + 1]) == echoed + [Logged(line)];
      }
      assert keys[..|keys|] == keys;
    }

    /** The switch in `run`: the handler for the request's method, or 501. */
    method Dispatch(request: Request, out: OutputStream, config: Config, fs: FileSystem,
                    page: (map<string, string>, map<string, string>) -> seq<byte>)
      returns (outcome: Outcome, keys: seq<string>)
      modifies log, out
      ensures outcome == OutcomeOf(Respond(request, config, fs, page, keys))
      ensures out.written == old(out.written) + Wire(WritesOf(Respond(request, config, fs, page, keys)))
      ensures log.content == old(log.content) + LogOf(WritesOf(Respond(request, config, fs, page, keys)))
      ensures request.httpMethod == "TRACE" ==> IsEnumeration(keys, request.headers)
    {
      keys := [];
      outcome := Pass;
      if request.httpMethod == "GET" {
        outcome := HandleGetOrHeadRequest(request, out, config, fs, false);
      } else if request.httpMethod == "POST" {
        outcome := HandlePostRequest(request, out, page);
      } else if request.httpMethod == "HEAD" {
        outcome := HandleGetOrHeadRequest(request, out, config, fs, true);
      } else if request.httpMethod == "TRACE" {
        keys := HandleTraceRequest(request, out);
      } else {
        SendErrorResponse(out, 501, "Not Implemented");
      }
    }

    /**
     * `run`: parse the request from the input stream and dispatch on its method; a bad request
     * is answered with 400, and any other exception ends the exchange with nothing more written.
     * Returns the order a TRACE echoed the headers in.
     */
    method Run(input: string, out: OutputStream, config: Config, fs: FileSystem,
               page: (map<string, string>, map<string, string>) -> seq<byte>) returns (keys: seq<string>)
      modifies log, out
      ensures out.written == old(out.written) + Wire(Exchange(input, config, fs, page, keys))
      ensures log.content == old(log.content) + LogOf(Exchange(input, config, fs, page, keys))
      ensures ParseRequest(input).Ok? && ParseRequest(input).value.0.httpMethod == "TRACE" ==>
        IsEnumeration(keys, ParseRequest(input).value.0.headers)
    {
      keys := [];
      var reader := new Reader(input);
      var parsed := new HttpRequest();
      var outcome := parsed.Parse(reader);
      ExchangeOfParse(input, config, fs, page, keys);
      if outcome.Fail? {
        ghost var out0, log0 := out.written, log.content;
        if outcome.error == BadRequest {
          SendErrorResponse(out, 400, "Bad Request");
        }
        AnsweredAfterWrites(out0, log0, Err(outcome.error));
        return;
      }
      var request := parsed.Value();
      keys := DispatchAndCatch(request, out, config, fs, page);
      ExchangeOfParse(input, config, fs, page, keys);
    }

    /** The dispatch inside `run`'s try block, and the 400 its catch of a bad request sends. */
    method DispatchAndCatch(request: Request, out: OutputStream, config: Config, fs: FileSystem,
                            page: (map<string, string>, map<string, string>) -> seq<byte>) returns (keys: seq<string>)
      modifies log, out
      ensures out.written == old(out.written) + Wire(Answered(Respond(request, config, fs, page, keys)))
      ensures log.content == old(log.content) + LogOf(Answered(Respond(request, config, fs, page, keys)))
      ensures request.httpMethod == "TRACE" ==> IsEnumeration(keys, request.headers)
    {
      ghost var out0, log0 := out.written, log.content;
      var outcome;
      outcome, keys := Dispatch(request, out, config, fs, page);
      ghost var r := Respond(request, config, fs, page, keys);
      if outcome.Fail? && outcome.error == BadRequest {
        SendErrorResponse(out, 400, "Bad Request");
      }
      AnsweredAfterWrites(out0, log0, r);
    }
  }

  /** The exchange is the answer to the parse failure, or to the parsed request. */
  lemma ExchangeOfParse(input: string, config: Config, fs: FileSystem,
                        page: (map<string, string>, map<string, string>) -> seq<byte>, keys: seq<string>)
    ensures ParseRequest(input).Err? ==>
      Exchange(input, config, fs, page, keys) == Answered(Err(ParseRequest(input).error))
    ensures ParseRequest(input).Ok? ==>
      Exchange(input, config, fs, page, keys) == Answered(Respond(ParseRequest(input).value.0, config, fs, page, keys))
  {
  }

  /** What a handler wrote, then 400 for a bad request: the answer `run` gives for its result. */
  lemma AnsweredAfterWrites(p: seq<byte>, q: string, r: Result<seq<Write>>)
    ensures r.Ok? ==> p + Wire(WritesOf(r)) == p + Wire(Answered(r))
    ensures r.Ok? ==> q + LogOf(WritesOf(r)) == q + LogOf(Answered(r))
    ensures r.Err? && r.error == BadRequest ==>
      p + Wire(WritesOf(r)) + Wire(ErrorWrites(400, "Bad Request")) == p + Wire(Answered(r))
    ensures r.Err? && r.error == BadRequest ==>
      q + LogOf(WritesOf(r)) + LogOf(ErrorWrites(400, "Bad Request")) == q + LogOf(Answered(r))
    ensures r.Err? && r.error != BadRequest ==> p + Wire(WritesOf(r)) == p + Wire(Answered(r))
    ensures r.Err? && r.error != BadRequest ==> q + LogOf(WritesOf(r)) == q + LogOf(Answered(r))
  {
    if r.Err? {
      assert p + Wire([]) == p;
      assert q + LogOf([]) == q;
    }
  }

  // ---------------------------------------------------------------------------------------------
  // Writes, several at a time, after what the stream and the log already hold.

  lemma Assoc<T>(a: seq<T>, b: seq<T>, c: seq<T>)
    ensures a + (b + c) == a + b + c
  {
  }

  lemma WireOne(w: Write)
    ensures Wire([w]) == WriteBytes(w) && LogOf([w]) == WriteLog(w)
  {
    assert [w][1..] == [];
  }

  lemma SentOneMore(p: seq<byte>, q: string, ws: seq<Write>, w: Write)
    ensures p + Wire(ws + [w]) == p + Wire(ws) + WriteBytes(w)
    ensures q + LogOf(ws + [w]) == q + LogOf(ws) + WriteLog(w)
  {
    WireAppend(ws, [w]);
    WireOne(w);
    Assoc(p, Wire(ws), WriteBytes(w));
    Assoc(q, LogOf(ws), WriteLog(w));
  }

  lemma SentThen(p: seq<byte>, q: string, a: seq<Write>, b: seq<Write>)
    ensures p + Wire(a + b) == p + Wire(a) + Wire(b)
    ensures q + LogOf(a + b) == q + LogOf(a) + LogOf(b)
  {
    WireAppend(a, b);
  }

  lemma SentTwo(p: seq<byte>, q: string, a: Write, b: Write)
    ensures p + Wire([a, b]) == p + WriteBytes(a) + WriteBytes(b)
    ensures q + LogOf([a, b]) == q + WriteLog(a) + WriteLog(b)
  {
    SentOneMore(p, q, [a], b);
    assert [a] + [b] == [a, b];
    assert Wire([a]) == WriteBytes(a) + Wire([]);
    assert LogOf([a]) == WriteLog(a) + LogOf([]);
  }

  lemma SentThree(p: seq<byte>, q: string, a: Write, b: Write, c: Write)
    ensures p + Wire([a, b, c]) == p + WriteBytes(a) + WriteBytes(b) + WriteBytes(c)
    ensures q + LogOf([a, b, c]) == q + WriteLog(a) + WriteLog(b) + WriteLog(c)
  {
    SentTwo(p, q, a, b);
    SentOneMore(p, q, [a, b], c);
    assert [a, b] + [c] == [a, b, c];
  }

  lemma SentFour(p: seq<byte>, q: string, a: Write, b: Write, c: Write, d: Write)
    ensures p + Wire([a, b, c, d]) == p + WriteBytes(a) + WriteBytes(b) + WriteBytes(c) + WriteBytes(d)
    ensures q + LogOf([a, b, c, d]) == q + WriteLog(a) + WriteLog(b) + WriteLog(c) + WriteLog(d)
  {
    SentThree(p, q, a, b, c);
    SentOneMore(p, q, [a, b, c], d);
    assert [a, b, c] + [d] == [a, b, c, d];
  }

  lemma SentFive(p: seq<byte>, q: string, a: Write, b: Write, c: Write, d: Write, e: Write)
    ensures p + Wire([a, b, c, d, e]) == p + WriteBytes(a) + WriteBytes(b) + WriteBytes(c) + WriteBytes(d) + WriteBytes(e)
    ensures q + LogOf([a, b, c, d, e]) == q + WriteLog(a) + WriteLog(b) + WriteLog(c) + WriteLog(d) + WriteLog(e)
  {
    SentFour(p, q, a, b, c, d);
    SentOneMore(p, q, [a, b, c, d], e);
    assert [a, b, c, d] + [e] == [a, b, c, d, e];
  }

  /** The log of three logged lines and then raw bytes: the three lines, each behind "< ". */
  lemma LoggedThreeThenRaw(q: string, a: string, b: string, c: string, d: seq<byte>, e: seq<byte>)
    ensures q + LogOf([Logged(a), Logged(b), Logged(c), Raw(d), Raw(e)]) == q + ("< " + a) + ("< " + b) + ("< " + c)
    ensures q + LogOf([Logged(a), Logged(b), Logged(c), Raw(d)]) == q + ("< " + a) + ("< " + b) + ("< " + c)
  {
    SentFive([], q, Logged(a), Logged(b), Logged(c), Raw(d), Raw(e));
    SentFour([], q, Logged(a), Logged(b), Logged(c), Raw(d));
  }

  lemma LoggedTwoThenRaw(q: string, a: string, b: string, c: seq<byte>)
    ensures q + LogOf([Logged(a), Logged(b), Raw(c)]) == q + ("< " + a) + ("< " + b)
  {
    SentThree([], q, Logged(a), Logged(b), Raw(c));
  }

  /** The chunked success response: two logged lines, a raw CRLF, and the chunks, which are not logged. */
  lemma ChunkedSent(p: seq<byte>, q: string, a: string, b: string, c: seq<byte>, content: seq<byte>)
    ensures p + Wire([Logged(a), Logged(b), Raw(c)] + ChunkWrites(content))
      == p + CharsToBytes(a) + CharsToBytes(b) + c + Wire(ChunkWrites(content))
    ensures q + LogOf([Logged(a), Logged(b), Raw(c)] + ChunkWrites(content)) == q + ("< " + a) + ("< " + b)
  {
    var head := [Logged(a), Logged(b), Raw(c)];
    SentThree(p, q, head[0], head[1], head[2]);
    LoggedTwoThenRaw(q, a, b, c);
    SentThen(p, q, head, ChunkWrites(content));
    NoLogOfChunks(content);
  }

  lemma TraceHeadLog(q: string, a: string, b: string, c: seq<byte>, d: string)
    ensures q + LogOf([Logged(a), Logged(b), Raw(c), Logged(d)]) == q + ("< " + a) + ("< " + b) + ("< " + d)
  {
    SentFour([], q, Logged(a), Logged(b), Raw(c), Logged(d));
  }

  /** One chunk of `ChunkWrites`, unfolded: its three writes, then the chunks after it. */
  lemma ChunkWritesStep(p: seq<byte>, c: seq<byte>)
    requires c != []
    ensures var n := if |c| >= ChunkSize then ChunkSize else |c|;
      p + Wire(ChunkWrites(c)) ==
        p + CharsToBytes(Hex(n) + "\r\n") + c[..n] + CharsToBytes("\r\n") + Wire(ChunkWrites(c[n..]))
  {
    var n := if |c| >= ChunkSize then ChunkSize else |c|;
    if |c| < ChunkSize {
      assert c[..n] == c && c[n..] == [];
    }
    assert ChunkPieces(c) == [c[..n]] + ChunkPieces(c[n..]);
    var head := [Raw(CharsToBytes(Hex(n) + "\r\n")), Raw(c[..n]), Raw(CharsToBytes("\r\n"))];
    assert ChunkWrites(c) == head + ChunkWrites(c[n..]);
    SentThen(p, [], head, ChunkWrites(c[n..]));
    SentThree(p, [], head[0], head[1], head[2]);
  }

  /** The first n of the bytes from i on, and the bytes after them. */
  lemma SplitSuffix(s: seq<byte>, i: nat, n: nat)
    requires i + n <= |s|
    ensures s[i..][..n] == s[i..i + n] && s[i..][n..] == s[i + n..]
  {
  }

  /** With no content left, only the last chunk and the final CRLF remain. */
  lemma LastChunkWrites(p: seq<byte>, c: seq<byte>)
    requires c == []
    ensures p + Wire(ChunkWrites(c)) == p + CharsToBytes("0\r\n") + CharsToBytes("\r\n")
  {
    SentTwo(p, [], Raw(CharsToBytes("0\r\n")), Raw(CharsToBytes("\r\n")));
  }

  /** The chunks go to the stream only: nothing of them reaches the log. */
  lemma {:induction false} NoLogOfFrames(pieces: seq<seq<byte>>)
    ensures LogOf(FrameWrites(pieces)) == []
    decreases |pieces|
  {
    if pieces == [] {
      SentTwo([], [], Raw(CharsToBytes("0\r\n")), Raw(CharsToBytes("\r\n")));
    } else {
      var head := [Raw(CharsToBytes(Hex(|pieces[0]|) + "\r\n")), Raw(pieces[0]), Raw(CharsToBytes("\r\n"))];
      SentThen([], [], head, FrameWrites(pieces[1..]));
      SentThree([], [], head[0], head[1], head[2]);
      NoLogOfFrames(pieces[1..]);
    }
  }

  lemma NoLogOfChunks(content: seq<byte>)
    ensures LogOf(ChunkWrites(content)) == []
  {
    NoLogOfFrames(ChunkPieces(content));
  }
}
