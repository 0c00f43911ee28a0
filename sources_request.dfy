/**
 * The later snapshot's request parser, `Sources/HTTPRequest.java`: the request line, the
 * path sanitiser, the headers (names lower-cased), and the body, framed by Content-Length or by
 * the chunked transfer coding.  The spec functions say what the constructor computes from the
 * input; the class `HttpRequest` does it step by step and is proved to agree with them.
 */
module SourcesRequest {
  import opened Outcomes
  import opened JavaText
  import opened JavaInt
  import opened Bytes
  import opened LineReader
  import opened Streams
  import Util

  /** The parsed request: what the getters return once the constructor has finished. */
  datatype Request = Request(
    httpMethod: string,
    requestedPage: string,
    headers: map<string, string>,
    body: seq<byte>,
    parameters: map<string, string>)

  // ---------------------------------------------------------------------------------------------
  // The path sanitiser.

  /** One step of the segment stack: `..` pops when there is something to pop; anything else is pushed. */
  function SanitizeStep(kept: seq<string>, part: string): seq<string> {
    if part == ".." && kept != [] then kept[..|kept| - 1] else kept + [part]
  }

  /** The stack after pushing and popping the parts in order. */
  function KeptSegments(kept: seq<string>, parts: seq<string>): seq<string>
    decreases |parts|
  {
    if parts == [] then kept else KeptSegments(SanitizeStep(kept, parts[0]), parts[1..])
  }

  /** What `isRequestGoingOutsideRoot(path)` returns. */
  function SanitizedPath(path: string): string {
    "/" + Join(KeptSegments([], Split(path, PathSeparator)), "/")
  }

  // ---------------------------------------------------------------------------------------------
  // The request line.

  /** What `parseRequestLine` sets: the method, the sanitised page and the query parameters. */
  datatype RequestLine = RequestLine(httpMethod: string, requestedPage: string, parameters: map<string, string>)

  /**
   * `parseRequestLine(line)`: the line must split on " " into exactly three parts; the target is
   * split on '?', its first part sanitised and its second, when there is one, decoded as a query
   * string.  A target made only of '?' splits into nothing, and reading its path is out of bounds.
   */
  function ParseRequestLine(line: string): Result<RequestLine> {
    var parts := Split(line, Space);
    if |parts| != 3 then Err(BadRequest)
    else
      var pathAndQuery := Split(parts[1], QuestionMark);
      if |pathAndQuery| == 0 then Err(IndexOutOfBounds)
      else
        var page := SanitizedPath(pathAndQuery[0]);
        if |pathAndQuery| > 1 then
          var parameters :- Util.QueryParams(pathAndQuery[1]);
          Ok(RequestLine(parts[0], page, parameters))
        else Ok(RequestLine(parts[0], page, map[]))
  }

  // ---------------------------------------------------------------------------------------------
  // Headers.

  /** `parseHeaderLine(line)`: exactly two parts around ": ", stored as (trimmed lower-case name, trimmed value). */
  function ParseHeaderLine(line: string): Result<(string, string)> {
    var parts := Split(line, HeaderSeparator);
    if |parts| != 2 then Err(BadRequest)
    else Ok((ToLower(Trim(parts[0])), Trim(parts[1])))
  }

  /** The header loop: lines up to the end of the stream or an empty line, each put into the map. */
  function HeadersFrom(headers: map<string, string>, input: string): Result<(map<string, string>, string)>
    decreases |input|
  {
    match NextLine(input)
    case None => Ok((headers, input))
    case Some((line, rest)) =>
      if line == [] then Ok((headers, rest))
      else
        var header :- ParseHeaderLine(line);
        HeadersFrom(headers[header.0 := header.1], rest)
  }

  // ---------------------------------------------------------------------------------------------
  // The body.

  /**
   * `readChunkedBody`, from the bytes gathered so far: a missing size line is a null pointer, an
   * empty one ends the body, a size that is not hexadecimal is a bad request, and a negative one a
   * negative array size; otherwise that many chars are read, the line after them is skipped, their
   * low bytes are appended, and a size of zero ends the body.
   */
  function ChunksFrom(body: seq<byte>, input: string): Result<(seq<byte>, string)>
    decreases |input|
  {
    match NextLine(input)
    case None => Err(NullPointer)
    case Some((line, rest)) =>
      if |line| == 0 then Ok((body, rest))
      else
        match ParseInt(line, 16)
        case None => Err(BadRequest)
        case Some(n) =>
          if n < 0 then Err(NegativeArraySize)
          else
            var (chunk, afterChunk) := ReadChars(rest, n);
            var more := body + CharsToBytes(chunk);
            if n == 0 then Ok((more, SkipLine(afterChunk)))
            else ChunksFrom(more, SkipLine(afterChunk))
  }

  /** One chunk of `ChunksFrom`, unfolded. */
  lemma ChunkStep(body: seq<byte>, input: string, n: int)
    requires NextLine(input).Some? && |NextLine(input).value.0| > 0
    requires ParseInt(NextLine(input).value.0, 16) == Some(n) && n >= 0
    ensures var (chunk, afterChunk) := ReadChars(NextLine(input).value.1, n);
      var more := body + CharsToBytes(chunk);
      ChunksFrom(body, input) == if n == 0 then Ok((more, SkipLine(afterChunk))) else ChunksFrom(more, SkipLine(afterChunk))
  {
  }

  /**
   * `readBody`: with a Transfer-Encoding header, a Content-Length header as well is a bad request,
   * and so is any coding but "chunked"; without one, Content-Length (default "0") must be a
   * decimal int, and that many chars are read, short reads padded with '\0'.
   */
  function ReadBody(headers: map<string, string>, input: string): Result<(seq<byte>, string)> {
    if "transfer-encoding" in headers then
      if "content-length" in headers then Err(BadRequest)
      else if headers["transfer-encoding"] != "chunked" then Err(BadRequest)
      else ChunksFrom([], input)
    else
      match ParseInt(GetOrDefault(headers, "content-length", "0"), 10)
      case None => Err(BadRequest)
      case Some(n) =>
        if n < 0 then Err(NegativeArraySize)
        else
          var (chars, rest) := ReadChars(input, n);
          Ok((CharsToBytes(chars), rest))
  }

  lemma Associate(a: string, b: string, c: string, d: string)
    ensures a + b + c + d == a + (b + (c + d))
  {
  }

  /** `ParseRequest` stage by stage. */
  lemma ParseRequestStages(input: string, line: string, rest: string, requestLine: RequestLine,
                           headers: map<string, string>, afterHeaders: string, body: seq<byte>, afterBody: string)
    requires NextLine(input) == Some((line, rest)) && ParseRequestLine(line) == Ok(requestLine)
    requires HeadersFrom(map[], rest) == Ok((headers, afterHeaders))
    requires ReadBody(headers, afterHeaders) == Ok((body, afterBody))
    ensures ParseRequest(input) ==
      Ok((Request(requestLine.httpMethod, requestLine.requestedPage, headers, body, requestLine.parameters), afterBody))
  {
  }

  /** What the constructor `HTTPRequest(reader)` builds or throws, and the input it leaves unread. */
  function ParseRequest(input: string): Result<(Request, string)> {
    match NextLine(input)
    case None => Err(BadRequest)
    case Some((line, rest)) =>
      var requestLine :- ParseRequestLine(line);
      var headersAndRest :- HeadersFrom(map[], rest);
      var bodyAndRest :- ReadBody(headersAndRest.0, headersAndRest.1);
      Ok((Request(requestLine.httpMethod, requestLine.requestedPage, headersAndRest.0, bodyAndRest.0,
                  requestLine.parameters), bodyAndRest.1))
  }

  // ---------------------------------------------------------------------------------------------
  // The parser, as the Java class does it.

  /** `isRequestGoingOutsideRoot`: the segment stack, kept in a list. */
  method IsRequestGoingOutsideRoot(path: string) returns (r: string)
    ensures r == SanitizedPath(path)
  {
    var parts := Split(path, PathSeparator);
    var newPath: seq<string> := [];
    for i := 0 to |parts|
      invariant KeptSegments([], parts) == KeptSegments(newPath, parts[i..])
    {
      assert parts[i..][0] == parts[i] && parts[i..][1..] == parts[i + 1..];
      var part := parts[i];
      if part == ".." && newPath != [] {
        newPath := newPath[..|newPath| - 1];
      } else {
        newPath := newPath + [part];
      }
    }
    return "/" + Join(newPath, "/");
  }

  class HttpRequest {
    var httpMethod: string
    var requestedPage: string
    var headers: map<string, string>
    var body: seq<byte>
    var parameters: map<string, string>

    /** The fields' initial values, set before anything is read. */
    constructor ()
      ensures httpMethod == [] && requestedPage == [] && headers == map[] && body == [] && parameters == map[]
    {
      httpMethod := [];
      requestedPage := [];
      headers := map[];
      body := [];
      parameters := map[];
    }

    function Value(): Request
      reads this
    {
      Request(httpMethod, requestedPage, headers, body, parameters)
    }

    /**
     * The constructor's reading: the request line, the headers and the body.  On success the
     * fields hold the request `ParseRequest` describes and the reader is left where it says; a
     * failure is the exception the constructor throws.
     */
    method Parse(reader: Reader) returns (outcome: Outcome)
      requires headers == map[] && parameters == map[]
      modifies this, reader
      ensures match ParseRequest(old(reader.rest))
        case Ok((request, rest)) => outcome == Pass && Value() == request && reader.rest == rest
        case Err(e) => outcome == Fail(e)
    {
      ghost var input := reader.rest;
      var line := reader.ReadLine();
      if line.None? {
        return Fail(BadRequest);
      }
      outcome := ParseRequestLineInto(line.value);
      if outcome.Fail? {
        return;
      }
      ghost var requestLine := ParseRequestLine(line.value).value;
      ghost var afterRequestLine := reader.rest;
      while true
        invariant HeadersFrom(map[], afterRequestLine) == HeadersFrom(headers, reader.rest)
        invariant httpMethod == requestLine.httpMethod && requestedPage == requestLine.requestedPage
        invariant parameters == requestLine.parameters
        decreases |reader.rest|
      {
        ghost var before := reader.rest;
        line := reader.ReadLine();
        if line.None? || line.value == [] {
          break;
        }
        outcome := ParseHeaderLineInto(line.value);
        if outcome.Fail? {
          return;
        }
      }
      outcome := ReadBodyInto(reader);
    }

    /** `parseRequestLine`: sets the method, the page and, when there is a query, the parameters. */
    method ParseRequestLineInto(line: string) returns (outcome: Outcome)
      requires parameters == map[]
      modifies this`httpMethod, this`requestedPage, this`parameters
      ensures match ParseRequestLine(line)
        case Ok(rl) => outcome == Pass && httpMethod == rl.httpMethod && requestedPage == rl.requestedPage
          && parameters == rl.parameters
        case Err(e) => outcome == Fail(e)
    {
      var parts := Split(line, Space);
      if |parts| != 3 {
        return Fail(BadRequest);
      }
      httpMethod := parts[0];
      var pathAndQuery := Split(parts[1], QuestionMark);
      if |pathAndQuery| == 0 {
        return Fail(IndexOutOfBounds);
      }
      requestedPage := IsRequestGoingOutsideRoot(pathAndQuery[0]);
      if |pathAndQuery| > 1 {
        var query := Util.ParseQueryString(pathAndQuery[1]);
        if query.Err? {
          return Fail(query.error);
        }
        parameters := query.value;
      }
      return Pass;
    }

    /** `parseHeaderLine`: puts one header, replacing an earlier one of the same name. */
    method ParseHeaderLineInto(line: string) returns (outcome: Outcome)
      modifies this`headers
      ensures match ParseHeaderLine(line)
        case Ok(header) => outcome == Pass && headers == old(headers)[header.0 := header.1]
        case Err(e) => outcome == Fail(e)
    {
      var parts := Split(line, HeaderSeparator);
      if |parts| != 2 {
        return Fail(BadRequest);
      }
      headers := headers[ToLower(Trim(parts[0])) := Trim(parts[1])];
      return Pass;
    }

    /** `readBody`. */
    method ReadBodyInto(reader: Reader) returns (outcome: Outcome)
      modifies this`body, reader
      ensures match ReadBody(headers, old(reader.rest))
        case Ok((bytes, rest)) => outcome == Pass && body == bytes && reader.rest == rest
        case Err(e) => outcome == Fail(e)
    {
      if "transfer-encoding" in headers {
        if "content-length" in headers {
          return Fail(BadRequest);
        }
        if headers["transfer-encoding"] != "chunked" {
          return Fail(BadRequest);
        }
        outcome := ReadChunkedBodyInto(reader);
        return;
      }
      var contentLength := ParseInt(GetOrDefault(headers, "content-length", "0"), 10);
      if contentLength.None? {
        return Fail(BadRequest);
      }
      var n := contentLength.value;
      if n < 0 {
        return Fail(NegativeArraySize);
      }
      ghost var input := reader.rest;
      var buffer := new char[n](_ => '\0');
      assert buffer[..] == Zeros(n);
      var _ := reader.Read(buffer, n);
      ReadIntoZeros(buffer[..], input, n);
      var bytes := Util.CharArrayToBytes(buffer);
      body := bytes[..];
      return Pass;
    }

    /** `readChunkedBody`: chunk after chunk into a byte stream, until an empty or zero size line. */
    method ReadChunkedBodyInto(reader: Reader) returns (outcome: Outcome)
      modifies this`body, reader
      ensures match ChunksFrom([], old(reader.rest))
        case Ok((bytes, rest)) => outcome == Pass && body == bytes && reader.rest == rest
        case Err(e) => outcome == Fail(e)
    {
      var bodyBuilder := new OutputStream();
      while true
        invariant fresh(bodyBuilder)
        invariant ChunksFrom([], old(reader.rest)) == ChunksFrom(bodyBuilder.written, reader.rest)
        decreases |reader.rest|
      {
        ghost var before := reader.rest;
        var line := reader.ReadLine();
        if line.None? {
          return Fail(NullPointer);
        }
        if |line.value| == 0 {
          break;
        }
        var chunkLength := ParseInt(line.value, 16);
        if chunkLength.None? {
          return Fail(BadRequest);
        }
        var n := chunkLength.value;
        if n < 0 {
          return Fail(NegativeArraySize);
        }
        ChunkStep(bodyBuilder.written, before, n);
        var bytes := ReadChunk(reader, n);
        bodyBuilder.Write(bytes[..]);
        if n == 0 {
          break;
        }
      }
      body := bodyBuilder.written;
      return Pass;
    }

    /** The body of the chunk loop: a zero-filled `char[n]`, read, the line after it skipped, as bytes. */
    method ReadChunk(reader: Reader, n: nat) returns (bytes: array<byte>)
      modifies reader
      ensures fresh(bytes)
      ensures bytes[..] == CharsToBytes(ReadChars(old(reader.rest), n).0)
      ensures reader.rest == SkipLine(ReadChars(old(reader.rest), n).1)
    {
      var chunk := new char[n](_ => '\0');
      assert chunk[..] == Zeros(n);
      var _ := reader.Read(chunk, n);
      ReadIntoZeros(chunk[..], old(reader.rest), n);
      ghost var afterChunk := reader.rest;
      var _ := reader.ReadLine();
      assert reader.rest == SkipLine(afterChunk);
      bytes := Util.CharArrayToBytes(chunk);
    }
  }

  // ---------------------------------------------------------------------------------------------
  // The sanitiser's properties.

  /** Only the first kept segment can be "..": a later ".." always finds something to pop. */
  predicate DotDotOnlyFirst(kept: seq<string>) {
    forall j | 0 < j < |kept| :: kept[j] != ".."
  }

  lemma {:induction false} KeptDotDotOnlyFirst(kept: seq<string>, parts: seq<string>)
    requires DotDotOnlyFirst(kept)
    ensures DotDotOnlyFirst(KeptSegments(kept, parts))
    decreases |parts|
  {
    if parts != [] {
      var next := SanitizeStep(kept, parts[0]);
      assert DotDotOnlyFirst(next) by {
        if parts[0] == ".." && kept != [] {
          assert forall j | 0 < j < |next| :: next[j] == kept[j];
        } else {
          assert forall j | 0 < j < |kept| :: next[j] == kept[j];
        }
      }
      KeptDotDotOnlyFirst(next, parts[1..]);
    }
  }

  /**
   * The sanitised path holds ".." at most once, and then as its first segment: "/../x" is
   * cleaned to "/x", but "/../../x" keeps one "..", so the result may still climb one level.
   */
  lemma SanitizedDotDotOnlyFirst(path: string)
    ensures DotDotOnlyFirst(KeptSegments([], Split(path, PathSeparator)))
  {
    KeptDotDotOnlyFirst([], Split(path, PathSeparator));
  }

  /** Segments other than ".." are all kept, in order. */
  lemma {:induction false} KeptWithoutDotDot(kept: seq<string>, parts: seq<string>)
    requires forall i | 0 <= i < |parts| :: parts[i] != ".."
    ensures KeptSegments(kept, parts) == kept + parts
    decreases |parts|
  {
    if parts == [] {
      assert kept + parts == kept;
    } else {
      KeptWithoutDotDot(kept + [parts[0]], parts[1..]);
      assert kept + [parts[0]] + parts[1..] == kept + parts;
    }
  }

  lemma {:induction false} KeptAppend(kept: seq<string>, a: seq<string>, b: seq<string>)
    ensures KeptSegments(kept, a + b) == KeptSegments(KeptSegments(kept, a), b)
    decreases |a|
  {
    if a == [] {
      assert a + b == b;
    } else {
      assert (a + b)[0] == a[0] && (a + b)[1..] == a[1..] + b;
      KeptAppend(SanitizeStep(kept, a[0]), a[1..], b);
    }
  }

  /** A segment followed by ".." is cancelled, wherever the pair stands. */
  lemma DotDotCancels(kept: seq<string>, before: seq<string>, x: string, after: seq<string>)
    requires x != ".."
    ensures KeptSegments(kept, before + [x, ".."] + after) == KeptSegments(kept, before + after)
  {
    KeptAppend(kept, before, [x, ".."] + after);
    KeptAppend(kept, before, after);
    var k := KeptSegments(kept, before);
    assert KeptSegments(k, [x, ".."] + after) == KeptSegments(k + [x], [".."] + after);
    assert (k + [x])[..|k + [x]| - 1] == k;
    assert before + [x, ".."] + after == before + ([x, ".."] + after);
  }

  lemma SplitPath(parts: seq<string>)
    requires |parts| > 0 && parts[|parts| - 1] != []
    requires forall i | 0 <= i < |parts| :: '/' !in parts[i] && '\\' !in parts[i]
    ensures Split(Join(parts, "/"), PathSeparator) == parts
  {
    forall i | 0 <= i < |parts| ensures IsPlain(PathSeparator, parts[i]) {
      assert forall j | 0 <= j < |parts[i]| :: parts[i][j] in parts[i];
    }
    SplitOfJoin(parts, "/", PathSeparator);
  }

  lemma JoinCons(x: string, rest: seq<string>, sep: string)
    requires rest != []
    ensures Join([x] + rest, sep) == x + sep + Join(rest, sep)
  {
    assert ([x] + rest)[0] == x && ([x] + rest)[1..] == rest;
  }

  predicate IsPlainSegment(s: string) {
    s != [] && s != ".." && '/' !in s && '\\' !in s
  }

  /** The leading empty segment is kept, so an ordinary path gains a second slash: "/a" is "//a". */
  lemma SanitizeKeepsLeadingEmpty(name: string)
    requires IsPlainSegment(name)
    ensures SanitizedPath("/" + name) == "//" + name
  {
    var parts := ["", name];
    JoinCons("", [name], "/");
    assert Join(parts, "/") == "/" + name;
    SplitPath(parts);
    KeptWithoutDotDot([], parts);
    assert [] + parts == parts;
    JoinCons("", [name], "/");
  }

  /** A segment followed by ".." is dropped with it: "/a/../b" is "//b". */
  lemma SanitizeDropsParent(a: string, b: string)
    requires IsPlainSegment(a) && IsPlainSegment(b)
    ensures SanitizedPath("/" + a + "/../" + b) == "//" + b
  {
    var parts := ["", a, "..", b];
    JoinCons("..", [b], "/");
    JoinCons(a, ["..", b], "/");
    JoinCons("", [a, "..", b], "/");
    assert Join(parts, "/") == "/" + a + "/../" + b;
    SplitPath(parts);
    assert parts == [""] + [a, ".."] + [b];
    DotDotCancels([], [""], a, [b]);
    KeptWithoutDotDot([], [""] + [b]);
    assert [] + ([""] + [b]) == ["", b];
    JoinCons("", [b], "/");
  }

  /** A ".." right after the root pops the leading empty segment instead: "/../x" is "/x". */
  lemma SanitizeDropsLeadingParent(x: string)
    requires IsPlainSegment(x)
    ensures SanitizedPath("/../" + x) == "/" + x
  {
    var parts := ["", "..", x];
    JoinCons("..", [x], "/");
    JoinCons("", ["..", x], "/");
    assert Join(parts, "/") == "/../" + x;
    SplitPath(parts);
    assert parts == [] + ["", ".."] + [x];
    DotDotCancels([], [], "", [x]);
    KeptWithoutDotDot([], [] + [x]);
    assert [] + ([] + [x]) == [x];
  }

  /**
   * A second ".." meets an empty stack and is kept: "/../../x" is "/../x", so the sanitiser does
   * not keep a request inside the root.
   */
  lemma SanitizeKeepsExcessParent(x: string)
    requires IsPlainSegment(x)
    ensures SanitizedPath("/../../" + x) == "/../" + x
  {
    var path := "/../../" + x;
    ExcessParentSegments(x);
    ExcessParentKept(x);
    assert SanitizedPath(path) == "/" + Join(["..", x], "/");
    ParentThen(x);
  }

  lemma ParentThen(x: string)
    ensures "/" + Join(["..", x], "/") == "/../" + x
  {
    JoinCons("..", [x], "/");
    assert [".."] + [x] == ["..", x];
    assert Join([x], "/") == x;
    assert "/" + (".." + "/" + x) == "/../" + x;
  }

  lemma ExcessParentSegments(x: string)
    requires IsPlainSegment(x)
    ensures Split("/../../" + x, PathSeparator) == ["", "..", "..", x]
  {
    var parts := ["", "..", "..", x];
    JoinCons("..", [x], "/");
    JoinCons("..", ["..", x], "/");
    JoinCons("", ["..", "..", x], "/");
    assert Join(parts, "/") == "/../../" + x;
    SplitPath(parts);
  }

  lemma ExcessParentKept(x: string)
    requires IsPlainSegment(x)
    ensures KeptSegments([], ["", "..", "..", x]) == ["..", x]
  {
    var parts := ["", "..", "..", x];
    assert parts == [] + ["", ".."] + ["..", x];
    DotDotCancels([], [], "", ["..", x]);
    assert [] + ([] + ["..", x]) == ["..", x];
    assert ["..", x][0] == ".." && ["..", x][1..] == [x];
    assert SanitizeStep([], "..") == [".."];
    assert KeptSegments([], ["..", x]) == KeptSegments([".."], [x]);
    KeptWithoutDotDot([".."], [x]);
    assert [".."] + [x] == ["..", x];
  }

  // ---------------------------------------------------------------------------------------------
  // The request line's properties.

  /** `METHOD target VERSION` with no query: the method, the sanitised target, no parameters. */
  lemma RequestLineWithoutQuery(m: string, target: string, version: string)
    requires m != [] && target != [] && version != []
    requires ' ' !in m && ' ' !in target && ' ' !in version && '?' !in target
    ensures ParseRequestLine(m + " " + target + " " + version) == Ok(RequestLine(m, SanitizedPath(target), map[]))
  {
    JoinThree(m, target, version, " ");
    SplitOnSpace([m, target, version]);
    NoCharPlain(QuestionMark, '?', target);
    assert !Occurs(QuestionMark, target) by {
      PlainPrefixHasNoMatch(QuestionMark, target, []);
      assert target + [] == target;
    }
    SplitWithoutMatch(target, QuestionMark);
  }

  /** `METHOD path?query VERSION`: the sanitised path, and the parameters decoded from the query. */
  lemma RequestLineWithQuery(m: string, path: string, query: string, version: string)
    requires m != [] && query != [] && version != []
    requires ' ' !in m && ' ' !in path && ' ' !in query && ' ' !in version && '?' !in path && '?' !in query
    ensures ParseRequestLine(m + " " + path + "?" + query + " " + version) ==
      match Util.QueryParams(query)
      case Ok(parameters) => Ok(RequestLine(m, SanitizedPath(path), parameters))
      case Err(e) => Err(e)
  {
    var target := path + "?" + query;
    assert m + " " + path + "?" + query + " " + version == m + " " + target + " " + version;
    JoinThree(m, target, version, " ");
    SplitOnSpace([m, target, version]);
    NoCharPlain(QuestionMark, '?', path);
    NoCharPlain(QuestionMark, '?', query);
    assert Join([path, query], "?") == target;
    SplitOfJoin([path, query], "?", QuestionMark);
  }

  /** A request line with no space at all is a bad request. */
  lemma RequestLineWithoutSpace(line: string)
    requires ' ' !in line
    ensures ParseRequestLine(line) == Err(BadRequest)
  {
    NoCharPlain(Space, ' ', line);
    PlainPrefixHasNoMatch(Space, line, []);
    assert line + [] == line;
    SplitWithoutMatch(line, Space);
  }

  /** A target of just "?" splits into no parts: reading its path is out of bounds, not a bad request. */
  lemma QuestionMarkTarget(m: string, version: string)
    requires m != [] && version != [] && ' ' !in m && ' ' !in version
    ensures ParseRequestLine(m + " ? " + version) == Err(IndexOutOfBounds)
  {
    assert m + " ? " + version == m + " " + "?" + " " + version;
    JoinThree(m, "?", version, " ");
    SplitOnSpace([m, "?", version]);
    assert Join(["", ""], "?") == "?";
    PiecesOfJoin(["", ""], "?", QuestionMark);
  }

  /** A stream with no line at all is a bad request. */
  lemma EmptyInputRejected()
    ensures ParseRequest([]) == Err(BadRequest)
  {
  }

  // ---------------------------------------------------------------------------------------------
  // The headers' properties.

  /** `Name: value` is stored under the trimmed, lower-cased name with the trimmed value. */
  lemma HeaderLineOf(name: string, value: string)
    requires !Occurs(HeaderSeparator, name) && !Occurs(HeaderSeparator, value) && value != []
    ensures ParseHeaderLine(name + ": " + value) == Ok((ToLower(Trim(name)), Trim(value)))
  {
    SplitOnHeaderSeparator(name, value);
  }

  /** The header in the comment of the earlier snapshot's parser, whose value holds a ':' of its own. */
  lemma RefererHeader()
    ensures ParseHeaderLine("Referer: http://example.com/") == Ok(("referer", "http://example.com/"))
  {
    var name, value := "Referer", "http://example.com/";
    NoCharPlain(HeaderSeparator, ':', name);
    PlainHasNoMatch(HeaderSeparator, name);
    UrlHasNoSeparator(value);
    HeaderLineOf(name, value);
    RefererText(name, value);
  }

  /** A URL's ':' is followed by '/', so ": " does not occur in it. */
  lemma UrlHasNoSeparator(value: string)
    requires value == "http://example.com/"
    ensures !Occurs(HeaderSeparator, value)
  {
    forall i | 0 <= i < |value|
      ensures MatchLength(HeaderSeparator, value[i..]) == 0
    {
      if i == 4 {
        assert value[i..][1] == '/';
      } else {
        assert value[i] != ':';
      }
    }
  }

  lemma RefererText(name: string, value: string)
    requires name == "Referer" && value == "http://example.com/"
    ensures name + ": " + value == "Referer: http://example.com/"
    ensures Trim(name) == name && Trim(value) == value && ToLower(Trim(name)) == "referer"
  {
    assert ToLower(name) == "referer";
  }

  /** A header line in which ": " does not occur, such as `Host:x`, is a bad request. */
  lemma HeaderLineWithoutSeparator(line: string)
    requires !Occurs(HeaderSeparator, line)
    ensures ParseHeaderLine(line) == Err(BadRequest)
  {
    SplitWithoutMatch(line, HeaderSeparator);
  }

  /** The header lines put into the map in order, or the first failure. */
  function PutHeaders(headers: map<string, string>, lines: seq<string>): Result<map<string, string>>
    decreases |lines|
  {
    if lines == [] then Ok(headers)
    else
      var header :- ParseHeaderLine(lines[0]);
      PutHeaders(headers[header.0 := header.1], lines[1..])
  }

  /** The header loop reads a header section line by line and stops right after its empty line. */
  lemma {:induction false} HeadersOfBlock(headers: map<string, string>, lines: seq<string>, tail: string)
    requires forall i | 0 <= i < |lines| :: lines[i] != [] && HasNoLineEnd(lines[i])
    ensures HeadersFrom(headers, HeaderBlock(lines) + tail) ==
      match PutHeaders(headers, lines)
      case Ok(m) => Ok((m, tail))
      case Err(e) => Err(e)
    decreases |lines|
  {
    if lines == [] {
      ReadCrlfLine([], tail);
      assert [] + "\r\n" + tail == HeaderBlock(lines) + tail;
    } else {
      var rest := HeaderBlock(lines[1..]) + tail;
      assert HeaderBlock(lines) + tail == lines[0] + "\r\n" + rest;
      ReadCrlfLine(lines[0], rest);
      match ParseHeaderLine(lines[0])
      case Ok(header) => HeadersOfBlock(headers[header.0 := header.1], lines[1..], tail);
      case Err(_) =>
    }
  }

  /** A later header of the same name replaces an earlier one. */
  lemma {:induction false} LaterHeaderWins(headers: map<string, string>, lines: seq<string>, line: string, name: string, value: string)
    requires PutHeaders(headers, lines).Ok? && ParseHeaderLine(line) == Ok((name, value))
    ensures PutHeaders(headers, lines + [line]) == Ok(PutHeaders(headers, lines).value[name := value])
    decreases |lines|
  {
    if lines == [] {
      assert lines + [line] == [line];
    } else {
      assert (lines + [line])[0] == lines[0] && (lines + [line])[1..] == lines[1..] + [line];
      var header := ParseHeaderLine(lines[0]).value;
      LaterHeaderWins(headers[header.0 := header.1], lines[1..], line, name, value);
    }
  }

  // ---------------------------------------------------------------------------------------------
  // The body's properties.

  /** Transfer-Encoding and Content-Length together are a bad request, as is any coding but "chunked". */
  lemma ConflictingFramingRejected(headers: map<string, string>, input: string)
    requires "transfer-encoding" in headers
    requires "content-length" in headers || headers["transfer-encoding"] != "chunked"
    ensures ReadBody(headers, input) == Err(BadRequest)
  {
  }

  /** Without either header the body is empty and nothing is read. */
  lemma NoFramingNoBody(headers: map<string, string>, input: string)
    requires "transfer-encoding" !in headers && "content-length" !in headers
    ensures ReadBody(headers, input) == Ok(([], input))
  {
    assert GetOrDefault(headers, "content-length", "0") == "0";
    assert Decimal(0) == [DigitChar(0)] == "0";
    ParseFormat(0, 10);
    assert ParseInt("0", 10) == Some(0);
    assert ReadChars(input, 0) == ([], input) by {
      ReadCharsOf([], input);
      assert [] + input == input;
    }
    assert CharsToBytes([]) == [];
  }

  /** A Content-Length that is not a decimal int is a bad request. */
  lemma MalformedContentLength(headers: map<string, string>, input: string)
    requires "transfer-encoding" !in headers && "content-length" in headers
    requires ParseInt(headers["content-length"], 10).None?
    ensures ReadBody(headers, input) == Err(BadRequest)
  {
  }

  /** The body has exactly Content-Length bytes, however much input there is. */
  lemma BodyHasContentLength(headers: map<string, string>, input: string)
    requires "transfer-encoding" !in headers && ReadBody(headers, input).Ok?
    ensures ParseInt(GetOrDefault(headers, "content-length", "0"), 10).Some?
    ensures |ReadBody(headers, input).value.0| == ParseInt(GetOrDefault(headers, "content-length", "0"), 10).value
  {
  }

  /** A body sent with its decimal length as Content-Length is read back exactly, and no further. */
  lemma ContentLengthFraming(headers: map<string, string>, content: seq<byte>, tail: string)
    requires "transfer-encoding" !in headers && "content-length" in headers
    requires headers["content-length"] == Decimal(|content|) && |content| <= MaxValue
    ensures ReadBody(headers, Latin1(content) + tail) == Ok((content, tail))
  {
    ParseFormat(|content|, 10);
    ReadCharsOf(Latin1(content), tail);
    LowBytesOfLatin1(content);
  }

  // ---------------------------------------------------------------------------------------------
  // The chunked coding's properties.

  /** One chunk on the wire: its size in hex, CRLF, its bytes, CRLF. */
  function ChunkFrame(chunk: seq<byte>): string {
    Hex(|chunk|) + "\r\n" + Latin1(chunk) + "\r\n"
  }

  /** Chunks on the wire, then the last chunk "0" and the empty line that ends the body. */
  function ChunkedFrames(chunks: seq<seq<byte>>): string
    decreases |chunks|
  {
    if chunks == [] then "0\r\n\r\n" else ChunkFrame(chunks[0]) + ChunkedFrames(chunks[1..])
  }

  function Concat(chunks: seq<seq<byte>>): seq<byte>
    decreases |chunks|
  {
    if chunks == [] then [] else chunks[0] + Concat(chunks[1..])
  }

  lemma HexLine(n: nat)
    requires n <= MaxValue
    ensures Hex(n) != [] && HasNoLineEnd(Hex(n)) && ParseInt(Hex(n), 16) == Some(n)
  {
    FormatChars(n, 16);
    ParseFormat(n, 16);
    forall i | 0 <= i < |Hex(n)| ensures !IsLineEnd(Hex(n)[i]) {
      assert IsFormatChar(Hex(n)[i], 16);
    }
  }

  /** One framed chunk appends its payload and leaves the input after the frame. */
  lemma ChunkFrameStep(body: seq<byte>, c: seq<byte>, later: string)
    requires 0 < |c| <= MaxValue
    ensures ChunksFrom(body, ChunkFrame(c) + later) == ChunksFrom(body + c, later)
  {
    var input := ChunkFrame(c) + later;
    assert input == Hex(|c|) + "\r\n" + (Latin1(c) + ("\r\n" + later));
    HexLine(|c|);
    ReadCrlfLine(Hex(|c|), Latin1(c) + ("\r\n" + later));
    ReadCharsOf(Latin1(c), "\r\n" + later);
    ReadCrlfLine([], later);
    assert [] + "\r\n" + later == "\r\n" + later;
    LowBytesOfLatin1(c);
    ChunkStep(body, input, |c|);
  }

  /** The last chunk "0" and the empty line after it end the body. */
  lemma LastChunkStep(body: seq<byte>, tail: string)
    ensures ChunksFrom(body, "0\r\n\r\n" + tail) == Ok((body, tail))
  {
    var input := "0\r\n\r\n" + tail;
    assert input == "0" + "\r\n" + ("\r\n" + tail);
    ReadCrlfLine("0", "\r\n" + tail);
    assert Hex(0) == [DigitChar(0)] == "0";
    HexLine(0);
    ReadCharsOf([], "\r\n" + tail);
    assert [] + ("\r\n" + tail) == "\r\n" + tail;
    ReadCrlfLine([], tail);
    assert [] + "\r\n" + tail == "\r\n" + tail;
    assert body + CharsToBytes([]) == body;
    ChunkStep(body, input, 0);
  }

  /** The decoded body is the chunks' payloads in order, and decoding stops after the last chunk. */
  lemma {:induction false} ChunkedBodyIsConcatenation(body: seq<byte>, chunks: seq<seq<byte>>, tail: string)
    requires forall i | 0 <= i < |chunks| :: 0 < |chunks[i]| <= MaxValue
    ensures ChunksFrom(body, ChunkedFrames(chunks) + tail) == Ok((body + Concat(chunks), tail))
    decreases |chunks|
  {
    if chunks == [] {
      LastChunkStep(body, tail);
      assert body + Concat(chunks) == body;
    } else {
      var c := chunks[0];
      assert ChunkedFrames(chunks) + tail == ChunkFrame(c) + (ChunkedFrames(chunks[1..]) + tail);
      ChunkFrameStep(body, c, ChunkedFrames(chunks[1..]) + tail);
      ChunkedBodyIsConcatenation(body + c, chunks[1..], tail);
      assert body + c + Concat(chunks[1..]) == body + Concat(chunks);
    }
  }

  /** A size line that is not hexadecimal is a bad request. */
  lemma ChunkSizeNotHex(body: seq<byte>, line: string, rest: string)
    requires line != [] && HasNoLineEnd(line) && ParseInt(line, 16).None?
    ensures ChunksFrom(body, line + "\r\n" + rest) == Err(BadRequest)
  {
    ReadCrlfLine(line, rest);
  }

  /** An empty size line ends the body. */
  lemma EmptySizeLineEnds(body: seq<byte>, rest: string)
    ensures ChunksFrom(body, "\r\n" + rest) == Ok((body, rest))
  {
    ReadCrlfLine([], rest);
    assert [] + "\r\n" + rest == "\r\n" + rest;
  }

  /** A chunked body is read back when Transfer-Encoding is exactly "chunked" and there is no Content-Length. */
  lemma ChunkedFraming(headers: map<string, string>, chunks: seq<seq<byte>>, tail: string)
    requires "transfer-encoding" in headers && headers["transfer-encoding"] == "chunked" && "content-length" !in headers
    requires forall i | 0 <= i < |chunks| :: 0 < |chunks[i]| <= MaxValue
    ensures ReadBody(headers, ChunkedFrames(chunks) + tail) == Ok((Concat(chunks), tail))
  {
    ChunkedBodyIsConcatenation([], chunks, tail);
    assert [] + Concat(chunks) == Concat(chunks);
  }

  // ---------------------------------------------------------------------------------------------
  // A whole request.

  /**
   * A request line, a header section without Transfer-Encoding and with the body's length as
   * Content-Length, and the body: the request is read back, and nothing after the body is consumed.
   */
  lemma RequestRoundTrip(m: string, target: string, version: string, lines: seq<string>, headers: map<string, string>,
                         content: seq<byte>, tail: string)
    requires m != [] && target != [] && version != []
    requires ' ' !in m && ' ' !in target && ' ' !in version && '?' !in target
    requires HasNoLineEnd(m + " " + target + " " + version)
    requires forall i | 0 <= i < |lines| :: lines[i] != [] && HasNoLineEnd(lines[i])
    requires PutHeaders(map[], lines) == Ok(headers)
    requires "transfer-encoding" !in headers && "content-length" in headers
    requires headers["content-length"] == Decimal(|content|) && |content| <= MaxValue
    ensures ParseRequest(m + " " + target + " " + version + "\r\n" + HeaderBlock(lines) + Latin1(content) + tail) ==
      Ok((Request(m, SanitizedPath(target), headers, content, map[]), tail))
  {
    var line := m + " " + target + " " + version;
    var afterLine := HeaderBlock(lines) + (Latin1(content) + tail);
    Associate(line + "\r\n", HeaderBlock(lines), Latin1(content), tail);
    ReadCrlfLine(line, afterLine);
    RequestLineWithoutQuery(m, target, version);
    HeadersOfBlock(map[], lines, Latin1(content) + tail);
    ContentLengthFraming(headers, content, tail);
    ParseRequestStages(line + "\r\n" + afterLine, line, afterLine, RequestLine(m, SanitizedPath(target), map[]),
                       headers, Latin1(content) + tail, content, tail);
  }

  /** A request line of three space-free parts with no '?' in the target, and header lines that parse. */
  predicate IsPlainRequest(m: string, target: string, version: string, lines: seq<string>, headers: map<string, string>) {
    && m != [] && target != [] && version != []
    && ' ' !in m && ' ' !in target && ' ' !in version && '?' !in target
    && HasNoLineEnd(m + " " + target + " " + version)
    && (forall i | 0 <= i < |lines| :: lines[i] != [] && HasNoLineEnd(lines[i]))
    && PutHeaders(map[], lines) == Ok(headers)
  }

  /** A request without Content-Length or Transfer-Encoding has an empty body, and the input after its head is left. */
  lemma BodilessRequestRoundTrip(m: string, target: string, version: string, lines: seq<string>,
                                 headers: map<string, string>, tail: string)
    requires IsPlainRequest(m, target, version, lines, headers)
    requires "transfer-encoding" !in headers && "content-length" !in headers
    ensures ParseRequest(m + " " + target + " " + version + "\r\n" + HeaderBlock(lines) + tail) ==
      Ok((Request(m, SanitizedPath(target), headers, [], map[]), tail))
  {
    var line := m + " " + target + " " + version;
    var afterLine := HeaderBlock(lines) + tail;
    assert line + "\r\n" + HeaderBlock(lines) + tail == line + "\r\n" + afterLine;
    ReadCrlfLine(line, afterLine);
    RequestLineWithoutQuery(m, target, version);
    HeadersOfBlock(map[], lines, tail);
    NoFramingNoBody(headers, tail);
    ParseRequestStages(line + "\r\n" + afterLine, line, afterLine, RequestLine(m, SanitizedPath(target), map[]),
                       headers, tail, [], tail);
  }
}
