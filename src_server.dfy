/**
 * The earlier snapshot's `ClientHandler`: every response is written with `PrintWriter.println`,
 * whose line separator is the platform's (`eol` here), the error page carries no Content-Length,
 * and `run` answers every exception, a bad request included, with 500.  A response is the bytes
 * it puts on the socket; the spec functions say which, and the class writes them line by line.
 * The file system, the configuration and the user's home directory are parameters.
 */
module SrcServer {
  import opened Outcomes
  import opened JavaText
  import opened JavaInt
  import opened Bytes
  import opened LineReader
  import opened Streams
  import opened JavaMaps
  import opened FileTypes
  import opened SrcRequest

  /** What `determineContentType` and `serveFavicon` give an icon. */
  const IconType: string := "image/x-icon"

  // ---------------------------------------------------------------------------------------------
  // The responses.

  /** `writer.println(s)`: the text and the line separator, one byte per char. */
  function Line(eol: string, s: string): seq<byte> {
    CharsToBytes(s + eol)
  }

  /** `sendErrorResponse(out, code, message)`: status line, Content-Type, blank line, and the page as one more line. */
  function ErrorResponse(eol: string, code: nat, message: string): seq<byte> {
    Line(eol, "HTTP/1.1 " + Decimal(code) + " " + message)
    + Line(eol, "Content-Type: text/html")
    + Line(eol, "")
    + Line(eol, "<html><body><h1>" + message + "</h1></body></html>")
  }

  /** `sendSuccessResponse(out, contentType, content)`: status line, two headers, blank line, the content's bytes. */
  function SuccessResponse(eol: string, contentType: string, content: seq<byte>): seq<byte> {
    Line(eol, "HTTP/1.1 200 OK")
    + Line(eol, "Content-Type: " + contentType)
    + Line(eol, "Content-Length: " + Decimal(|content|))
    + Line(eol, "")
    + content
  }

  /** The success response of `handleHeadRequest`: the same head, the file's size, and no body. */
  function HeadResponse(eol: string, contentType: string, size: nat): seq<byte> {
    Line(eol, "HTTP/1.1 200 OK")
    + Line(eol, "Content-Type: " + contentType)
    + Line(eol, "Content-Length: " + Decimal(size))
    + Line(eol, "")
  }

  /** The header lines `handleTraceRequest` echoes, in the order the keys are visited. */
  function EchoLines(eol: string, headers: map<string, string>, keys: seq<string>): seq<byte>
    decreases |keys|
  {
    if keys == [] then []
    else
      var key := keys[|keys| - 1];
      EchoLines(eol, headers, keys[..|keys| - 1])
      + (if key in headers then Line(eol, key + ": " + headers[key]) else [])
  }

  /** `handleTraceRequest`: status line, Content-Type, the requested page, the headers, a blank line. */
  function TraceResponse(eol: string, request: Request, keys: seq<string>): seq<byte> {
    Line(eol, "HTTP/1.1 200 OK")
    + Line(eol, "Content-Type: message/http")
    + Line(eol, request.requestedPage)
    + EchoLines(eol, request.headers, keys)
    + Line(eol, "")
  }

  /** `handlePostRequest`: the parameter map's text, as plain text. */
  function PostResponse(eol: string, request: Request, keys: seq<string>): seq<byte> {
    SuccessResponse(eol, "text/plain", CharsToBytes("Received POST Data: " + MapText(request.parameters, keys)))
  }

  // ---------------------------------------------------------------------------------------------
  // The handlers.

  /**
   * `handleGetRequest`: the default page for "/", 404 when the file does not exist, the root's
   * "favicon.ico" for "/favicon.ico" (404 "Not Found" when that is missing), and otherwise the
   * file with its content type.  `Paths.get` throws on a path it cannot make.
   */
  function Get(eol: string, request: Request, config: Config, fs: FileSystem): Result<seq<byte>> {
    var root := ExpandHome(config.rootDirectory, config.home);
    var requestedFile := RequestedFile(request.requestedPage, config.defaultPage);
    var path :- PathsGet(root, requestedFile);
    if path !in fs.files then Ok(ErrorResponse(eol, 404, "404 Not Found"))
    else if requestedFile == "/favicon.ico" then
      var favicon :- PathsGet(root, "favicon.ico");
      if favicon in fs.files then Ok(SuccessResponse(eol, IconType, fs.files[favicon]))
      else Ok(ErrorResponse(eol, 404, "Not Found"))
    else Ok(SuccessResponse(eol, ContentType(path, IconType), fs.files[path]))
  }

  /** `handleHeadRequest`: 404 "Not Found" when the file does not exist, else its head. */
  function Head(eol: string, request: Request, config: Config, fs: FileSystem): Result<seq<byte>> {
    var path :- FilePath(config.rootDirectory, config.home, request.requestedPage, config.defaultPage);
    if path !in fs.files then Ok(ErrorResponse(eol, 404, "Not Found"))
    else Ok(HeadResponse(eol, ContentType(path, IconType), |fs.files[path]|))
  }

  /** The switch in `run`, on the method exactly as written: the four it knows, and 501 for any other. */
  function Respond(eol: string, request: Request, config: Config, fs: FileSystem,
                   headerKeys: seq<string>, paramKeys: seq<string>): Result<seq<byte>> {
    if request.httpMethod == "GET" then Get(eol, request, config, fs)
    else if request.httpMethod == "POST" then Ok(PostResponse(eol, request, paramKeys))
    else if request.httpMethod == "HEAD" then Head(eol, request, config, fs)
    else if request.httpMethod == "TRACE" then Ok(TraceResponse(eol, request, headerKeys))
    else Ok(ErrorResponse(eol, 501, "Not Implemented"))
  }

  /** The catch in `run`: any exception is answered with 500. */
  function Answered(eol: string, r: Result<seq<byte>>): seq<byte> {
    if r.Ok? then r.value else ErrorResponse(eol, 500, "Internal Server Error")
  }

  /** Everything `run` writes for an input stream. */
  function Exchange(eol: string, input: string, config: Config, fs: FileSystem,
                    headerKeys: seq<string>, paramKeys: seq<string>): seq<byte> {
    match ParseRequest(input)
    case Err(e) => Answered(eol, Err(e))
    case Ok((request, _)) => Answered(eol, Respond(eol, request, config, fs, headerKeys, paramKeys))
  }

  function WritesOf(r: Result<seq<byte>>): seq<byte> {
    if r.Ok? then r.value else []
  }

  function OutcomeOf(r: Result<seq<byte>>): Outcome {
    if r.Ok? then Pass else Fail(r.error)
  }

  // ---------------------------------------------------------------------------------------------
  // The handler, line by line.

  class ClientHandler {
    /** The platform's line separator, which `println` ends each line with. */
    const eol: string

    constructor (eol: string)
      ensures this.eol == eol
    {
      this.eol := eol;
    }

    /** `writer.println(s)`, flushed at once. */
    method Println(out: OutputStream, s: string)
      modifies out
      ensures out.written == old(out.written) + Line(eol, s)
    {
      out.Write(CharsToBytes(s + eol));
    }

    /** `sendErrorResponse`. */
    method SendErrorResponse(out: OutputStream, code: nat, message: string)
      modifies out
      ensures out.written == old(out.written) + ErrorResponse(eol, code, message)
    {
      ghost var out0 := out.written;
      var l1, l2, l3, l4 := "HTTP/1.1 " + Decimal(code) + " " + message, "Content-Type: text/html", "",
                            "<html><body><h1>" + message + "</h1></body></html>";
      Println(out, l1);
      Println(out, l2);
      Println(out, l3);
      Println(out, l4);
      Sent4(out0, Line(eol, l1), Line(eol, l2), Line(eol, l3), Line(eol, l4));
    }

    /** `sendSuccessResponse`. */
    method SendSuccessResponse(out: OutputStream, contentType: string, content: seq<byte>)
      modifies out
      ensures out.written == old(out.written) + SuccessResponse(eol, contentType, content)
    {
      ghost var out0 := out.written;
      var l2, l3 := "Content-Type: " + contentType, "Content-Length: " + Decimal(|content|);
      Println(out, "HTTP/1.1 200 OK");
      Println(out, l2);
      Println(out, l3);
      Println(out, "");
      out.Write(content);
      Sent5(out0, Line(eol, "HTTP/1.1 200 OK"), Line(eol, l2), Line(eol, l3), Line(eol, ""), content);
    }

    /** `handleGetRequest`, with `serveFavicon` inline. */
    method HandleGetRequest(request: Request, out: OutputStream, config: Config, fs: FileSystem)
      returns (outcome: Outcome)
      modifies out
      ensures outcome == OutcomeOf(Get(eol, request, config, fs))
      ensures out.written == old(out.written) + WritesOf(Get(eol, request, config, fs))
    {
      var root := ExpandHome(config.rootDirectory, config.home);
      var requestedFile := if request.requestedPage == "/" then config.defaultPage else request.requestedPage;
      var filePath := PathsGet(root, requestedFile);
      if filePath.Err? {
        assert out.written == old(out.written) + [];
        return Fail(filePath.error);
      }
      var path := filePath.value;
      if path !in fs.files {
        SendErrorResponse(out, 404, "404 Not Found");
        return Pass;
      }
      if requestedFile == "/favicon.ico" {
        outcome := ServeFavicon(out, root, fs);
        return;
      }
      var contentType := ContentType(path, IconType);
      var fileContent := fs.files[path];
      SendSuccessResponse(out, contentType, fileContent);
      return Pass;
    }

    /** `serveFavicon`: the root's "favicon.ico" as an icon, or 404 "Not Found". */
    method ServeFavicon(out: OutputStream, root: string, fs: FileSystem) returns (outcome: Outcome)
      modifies out
      ensures var faviconPath := PathsGet(root, "favicon.ico");
        && outcome == (if faviconPath.Err? then Fail(faviconPath.error) else Pass)
        && out.written == old(out.written) +
          if faviconPath.Err? then []
          else if faviconPath.value in fs.files then SuccessResponse(eol, IconType, fs.files[faviconPath.value])
          else ErrorResponse(eol, 404, "Not Found")
    {
      var faviconPath := PathsGet(root, "favicon.ico");
      if faviconPath.Err? {
        assert out.written == old(out.written) + [];
        return Fail(faviconPath.error);
      }
      if faviconPath.value in fs.files {
        SendSuccessResponse(out, IconType, fs.files[faviconPath.value]);
      } else {
        SendErrorResponse(out, 404, "Not Found");
      }
      return Pass;
    }

    /** `handlePostRequest`; returns the order the parameters were listed in. */
    method HandlePostRequest(request: Request, out: OutputStream) returns (keys: seq<string>)
      modifies out
      ensures IsEnumeration(keys, request.parameters)
      ensures out.written == old(out.written) + PostResponse(eol, request, keys)
    {
      keys := EntryOrder(request.parameters);
      var responseMessage := "Received POST Data: " + MapText(request.parameters, keys);
      SendSuccessResponse(out, "text/plain", CharsToBytes(responseMessage));
    }

    /** `handleHeadRequest`. */
    method HandleHeadRequest(request: Request, out: OutputStream, config: Config, fs: FileSystem)
      returns (outcome: Outcome)
      modifies out
      ensures outcome == OutcomeOf(Head(eol, request, config, fs))
      ensures out.written == old(out.written) + WritesOf(Head(eol, request, config, fs))
    {
      var root := ExpandHome(config.rootDirectory, config.home);
      var requestedFile := if request.requestedPage == "/" then config.defaultPage else request.requestedPage;
      var filePath := PathsGet(root, requestedFile);
      if filePath.Err? {
        assert out.written == old(out.written) + [];
        return Fail(filePath.error);
      }
      var path := filePath.value;
      if path !in fs.files {
        SendErrorResponse(out, 404, "Not Found");
        return Pass;
      }
      ghost var out0 := out.written;
      var l2, l3 := "Content-Type: " + ContentType(path, IconType), "Content-Length: " + Decimal(|fs.files[path]|);
      Println(out, "HTTP/1.1 200 OK");
      Println(out, l2);
      Println(out, l3);
      Println(out, "");
      Sent4(out0, Line(eol, "HTTP/1.1 200 OK"), Line(eol, l2), Line(eol, l3), Line(eol, ""));
      return Pass;
    }

    /** `handleTraceRequest`; returns the order the headers were echoed in. */
    method HandleTraceRequest(request: Request, out: OutputStream) returns (keys: seq<string>)
      modifies out
      ensures IsEnumeration(keys, request.headers)
      ensures out.written == old(out.written) + TraceResponse(eol, request, keys)
    {
      ghost var out0 := out.written;
      Println(out, "HTTP/1.1 200 OK");
      Println(out, "Content-Type: message/http");
      Println(out, request.requestedPage);
      keys := EntryOrder(request.headers);
      EchoHeaders(out, request.headers, keys);
      ghost var echo := EchoLines(eol, request.headers, keys);
      Println(out, "");
      Sent5(out0, Line(eol, "HTTP/1.1 200 OK"), Line(eol, "Content-Type: message/http"), Line(eol, request.requestedPage),
            echo, Line(eol, ""));
    }

    /** The loop of `handleTraceRequest`: each header as "name: value", in the order visited. */
    method EchoHeaders(out: OutputStream, headers: map<string, string>, keys: seq<string>)
      requires forall i | 0 <= i < |keys| :: keys[i] in headers
      modifies out
      ensures out.written == old(out.written) + EchoLines(eol, headers, keys)
    {
      ghost var out0 := out.written;
      assert keys[..0] == [];
      for i := 0 to |keys|
        invariant out.written == out0 + EchoLines(eol, headers, keys[..i])
      {
        var key := keys[i];
        ghost var echoed := EchoLines(eol, headers, keys[..i]);
        var line := key + ": " + headers[key];
        EchoLinesStep(eol, headers, keys, i);
        Println(out, line);
        Sent2(out0, echoed, Line(eol, line));
      }
      assert keys[..|keys|] == keys;
    }

    /** The switch in `run`: the handler for the request's method, or 501. */
    method Dispatch(request: Request, out: OutputStream, config: Config, fs: FileSystem)
      returns (outcome: Outcome, headerKeys: seq<string>, paramKeys: seq<string>)
      modifies out
      ensures outcome == OutcomeOf(Respond(eol, request, config, fs, headerKeys, paramKeys))
      ensures out.written == old(out.written) + WritesOf(Respond(eol, request, config, fs, headerKeys, paramKeys))
      ensures request.httpMethod == "TRACE" ==> IsEnumeration(headerKeys, request.headers)
      ensures request.httpMethod == "POST" ==> IsEnumeration(paramKeys, request.parameters)
    {
      headerKeys, paramKeys := [], [];
      outcome := Pass;
      if request.httpMethod == "GET" {
        outcome := HandleGetRequest(request, out, config, fs);
      } else if request.httpMethod == "POST" {
        paramKeys := HandlePostRequest(request, out);
      } else if request.httpMethod == "HEAD" {
        outcome := HandleHeadRequest(request, out, config, fs);
      } else if request.httpMethod == "TRACE" {
        headerKeys := HandleTraceRequest(request, out);
      } else {
        SendErrorResponse(out, 501, "Not Implemented");
      }
    }

    /**
     * `run`: parse the request from the input stream and dispatch on its method; any exception,
     * from the parser or a handler, is answered with 500.  Returns the orders a TRACE echoed the
     * headers in and a POST listed the parameters in.
     */
    method Run(input: string, out: OutputStream, config: Config, fs: FileSystem)
      returns (headerKeys: seq<string>, paramKeys: seq<string>)
      modifies out
      ensures out.written == old(out.written) + Exchange(eol, input, config, fs, headerKeys, paramKeys)
      ensures ParseRequest(input).Ok? && ParseRequest(input).value.0.httpMethod == "TRACE" ==>
        IsEnumeration(headerKeys, ParseRequest(input).value.0.headers)
      ensures ParseRequest(input).Ok? && ParseRequest(input).value.0.httpMethod == "POST" ==>
        IsEnumeration(paramKeys, ParseRequest(input).value.0.parameters)
    {
      headerKeys, paramKeys := [], [];
      var reader := new Reader(input);
      var parsed := new HttpRequest();
      var outcome := parsed.Parse(reader);
      if outcome.Fail? {
        SendErrorResponse(out, 500, "Internal Server Error");
        return;
      }
      var request := parsed.Value();
      headerKeys, paramKeys := DispatchAndCatch(request, out, config, fs);
    }

    /** The dispatch inside `run`'s try block, and the 500 its catch sends for any exception. */
    method DispatchAndCatch(request: Request, out: OutputStream, config: Config, fs: FileSystem)
      returns (headerKeys: seq<string>, paramKeys: seq<string>)
      modifies out
      ensures out.written == old(out.written) + Answered(eol, Respond(eol, request, config, fs, headerKeys, paramKeys))
      ensures request.httpMethod == "TRACE" ==> IsEnumeration(headerKeys, request.headers)
      ensures request.httpMethod == "POST" ==> IsEnumeration(paramKeys, request.parameters)
    {
      ghost var out0 := out.written;
      var outcome;
      outcome, headerKeys, paramKeys := Dispatch(request, out, config, fs);
      if outcome.Fail? {
        SendErrorResponse(out, 500, "Internal Server Error");
      }
      AnsweredAfterWrites(eol, out0, Respond(eol, request, config, fs, headerKeys, paramKeys));
    }
  }

  /** One more key visited echoes one more line, when the key has a value. */
  lemma EchoLinesStep(eol: string, headers: map<string, string>, keys: seq<string>, i: nat)
    requires i < |keys| && keys[i] in headers
    ensures EchoLines(eol, headers, keys[..i + 1]) ==
      EchoLines(eol, headers, keys[..i]) + Line(eol, keys[i] + ": " + headers[keys[i]])
  {
    assert keys[..i + 1][..i] == keys[..i] && keys[..i + 1][i] == keys[i];
  }

  /** What a handler wrote, then 500 for any exception: the answer `run` gives for its result. */
  lemma AnsweredAfterWrites(eol: string, p: seq<byte>, r: Result<seq<byte>>)
    ensures r.Ok? ==> p + WritesOf(r) == p + Answered(eol, r)
    ensures r.Err? ==> p + WritesOf(r) + ErrorResponse(eol, 500, "Internal Server Error") == p + Answered(eol, r)
  {
    if r.Err? {
      assert p + [] == p;
    }
  }

  lemma Sent2(p: seq<byte>, a: seq<byte>, b: seq<byte>)
    ensures p + a + b == p + (a + b)
  {
  }

  lemma Sent4(p: seq<byte>, a: seq<byte>, b: seq<byte>, c: seq<byte>, d: seq<byte>)
    ensures p + a + b + c + d == p + (a + b + c + d)
  {
  }

  lemma Sent5(p: seq<byte>, a: seq<byte>, b: seq<byte>, c: seq<byte>, d: seq<byte>, e: seq<byte>)
    ensures p + a + b + c + d + e == p + (a + b + c + d + e)
  {
  }
}
