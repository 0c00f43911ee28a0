/**
 * The earlier snapshot's `HTTPRequest`: a request line of exactly three parts whose query is
 * decoded only for GET, header lines stored under their names as written, a body of exactly
 * Content-Length chars, and a url-encoded body decoded into the same parameter map as the query.
 */
module SrcRequest {
  import opened Outcomes
  import opened JavaText
  import opened JavaInt
  import opened LineReader
  import opened Util

  /** The content type `parseBody` decodes as a form. */
  const FormType: string := "application/x-www-form-urlencoded"

  /** The parsed request: the fields once the constructor has finished.  The body is text. */
  datatype Request = Request(
    httpMethod: string,
    requestedPage: string,
    headers: map<string, string>,
    body: string,
    parameters: map<string, string>)

  /** What `parseRequestLine` sets: the method, the page and the query parameters. */
  datatype RequestLine = RequestLine(httpMethod: string, requestedPage: string, parameters: map<string, string>)

  // ---------------------------------------------------------------------------------------------
  // The query and the form body.

  /**
   * The class's own `parseQueryString`, from the map so far: every `&`-segment must split on '='
   * into exactly two parts, or the request is bad.  Empty segments are not skipped.
   */
  function StrictParams(params: map<string, string>, pairs: seq<string>): (r: Result<map<string, string>>)
    ensures r.Err? ==> r.error == BadRequest
    decreases |pairs|
  {
    if pairs == [] then Ok(params)
    else
      var keyValue := Split(pairs[0], EqualsSign);
      if |keyValue| != 2 then Err(BadRequest)
      else StrictParams(params[keyValue[0] := keyValue[1]], pairs[1..])
  }

  /** `parseUrlEncodedBody`, from the map so far: a segment that splits into two parts is put, any other is ignored. */
  function FormParams(params: map<string, string>, pairs: seq<string>): map<string, string>
    decreases |pairs|
  {
    if pairs == [] then params
    else
      var keyValue := Split(pairs[0], EqualsSign);
      FormParams(if |keyValue| == 2 then params[keyValue[0] := keyValue[1]] else params, pairs[1..])
  }

  /** Whether `parseBody` decodes the body: a "Content-Type" header, looked up as written, equal to the form type in any case. */
  predicate IsForm(headers: map<string, string>) {
    "Content-Type" in headers && EqualsIgnoreCase(FormType, headers["Content-Type"])
  }

  /** `parseBody`: a form body adds its pairs to the parameters; the multipart branch is an empty stub. */
  function BodyParams(headers: map<string, string>, body: string, params: map<string, string>): map<string, string> {
    if IsForm(headers) then FormParams(params, Split(body, Ampersand)) else params
  }

  // ---------------------------------------------------------------------------------------------
  // The request line.

  /**
   * `isLegalPageRequest(path)` splits the path on '/' and '\' and refuses it when a segment `==`
   * "..".  That `==` compares references, and every segment is a String `split` made at run time,
   * never the interned literal "..": the test never holds, and every path is legal.
   */
  predicate IsLegalPageRequest(path: string) {
    true
  }

  /**
   * `parseRequestLine(line)`: three parts around " "; the target split on '?', its first part
   * taken as the page as it is, and its second decoded as a query only when the method is "GET" in
   * any case.  A target made only of '?' splits into nothing, and reading its page is out of bounds.
   */
  function ParseRequestLine(line: string): Result<RequestLine> {
    var parts := Split(line, Space);
    if |parts| != 3 then Err(BadRequest)
    else
      var pathAndQuery := Split(parts[1], QuestionMark);
      if |pathAndQuery| == 0 then Err(IndexOutOfBounds)
      else if !IsLegalPageRequest(pathAndQuery[0]) then Err(BadRequest)
      else if EqualsIgnoreCase("GET", parts[0]) && |pathAndQuery| > 1 then
        var parameters :- StrictParams(map[], Split(pathAndQuery[1], Ampersand));
        Ok(RequestLine(parts[0], pathAndQuery[0], parameters))
      else Ok(RequestLine(parts[0], pathAndQuery[0], map[]))
  }

  // ---------------------------------------------------------------------------------------------
  // Headers and body.

  /** `parseHeaderLine(line)`: exactly two parts around ": ", stored as (trimmed name, trimmed value); the name keeps its case. */
  function ParseHeaderLine(line: string): Result<(string, string)> {
    var parts := Split(line, HeaderSeparator);
    if |parts| != 2 then Err(BadRequest)
    else Ok((Trim(parts[0]), Trim(parts[1])))
  }

  /** The header loop: lines up to the end of the stream or an empty line, each put into the map. */
  function HeadersFrom(headers: map<string, string>, input: string): Result<(map<string, string>, string)>
    decreases |input|
  {
    match NextLine(input)
    case None => Ok((headers, input))
    case Some((line, rest)) =>
      if line == [] then Ok((headers, rest))
      else
        var header :- ParseHeaderLine(line);
        HeadersFrom(headers[header.0 := header.1], rest)
  }

  /** The header lines put into the map in order, or the first failure. */
  function PutHeaders(headers: map<string, string>, lines: seq<string>): Result<map<string, string>>
    decreases |lines|
  {
    if lines == [] then Ok(headers)
    else
      var header :- ParseHeaderLine(lines[0]);
      PutHeaders(headers[header.0 := header.1], lines[1..])
  }

  /** The length `readBody` reads: "Content-Length", looked up as written, as a decimal int; 0 when it is missing or not a number. */
  function ContentLength(headers: map<string, string>): int {
    match ParseInt(GetOrDefault(headers, "Content-Length", "0"), 10)
    case None => 0
    case Some(n) => n
  }

  /** `readBody` before `parseBody`: a negative length is a negative array size; otherwise that many chars, short reads padded with '\0'. */
  function ReadBody(headers: map<string, string>, input: string): Result<(string, string)> {
    var n := ContentLength(headers);
    if n < 0 then Err(NegativeArraySize) else Ok(ReadChars(input, n))
  }

  /** What the constructor `HTTPRequest(reader)` builds or throws, and the input it leaves unread. */
  function ParseRequest(input: string): Result<(Request, string)> {
    match NextLine(input)
    case None => Err(BadRequest)
    case Some((line, rest)) =>
      var requestLine :- ParseRequestLine(line);
      var headersAndRest :- HeadersFrom(map[], rest);
      var bodyAndRest :- ReadBody(headersAndRest.0, headersAndRest.1);
      var headers := headersAndRest.0;
      var body := bodyAndRest.0;
      Ok((Request(requestLine.httpMethod, requestLine.requestedPage, headers, body,
                  BodyParams(headers, body, requestLine.parameters)), bodyAndRest.1))
  }

  // ---------------------------------------------------------------------------------------------
  // The parser, as the Java class does it.

  class HttpRequest {
    var httpMethod: string
    var requestedPage: string
    var headers: map<string, string>
    var body: string
    var parameters: map<string, string>

    /** The fields' initial values, set before anything is read. */
    constructor ()
      ensures httpMethod == [] && requestedPage == [] && headers == map[] && body == [] && parameters == map[]
    {
      httpMethod := [];
      requestedPage := [];
      headers := map[];
      body := [];
      parameters := map[];
    }

    function Value(): Request
      reads this
    {
      Request(httpMethod, requestedPage, headers, body, parameters)
    }

    /**
     * The constructor's reading: the request line, the headers and the body.  On success the
     * fields hold the request `ParseRequest` describes and the reader is left where it says; a
     * failure is the exception the constructor throws.
     */
    method Parse(reader: Reader) returns (outcome: Outcome)
      requires headers == map[] && parameters == map[]
      modifies this, reader
      ensures match ParseRequest(old(reader.rest))
        case Ok((request, rest)) => outcome == Pass && Value() == request && reader.rest == rest
        case Err(e) => outcome == Fail(e)
    {
      var line := reader.ReadLine();
      if line.None? {
        return Fail(BadRequest);
      }
      outcome := ParseRequestLineInto(line.value);
      if outcome.Fail? {
        return;
      }
      ghost var requestLine := ParseRequestLine(line.value).value;
      ghost var afterRequestLine := reader.rest;
      while true
        invariant HeadersFrom(map[], afterRequestLine) == HeadersFrom(headers, reader.rest)
        invariant httpMethod == requestLine.httpMethod && requestedPage == requestLine.requestedPage
        invariant parameters == requestLine.parameters
        decreases |reader.rest|
      {
        line := reader.ReadLine();
        if line.None? || line.value == [] {
          break;
        }
        outcome := ParseHeaderLineInto(line.value);
        if outcome.Fail? {
          return;
        }
      }
      outcome := ReadBodyInto(reader);
    }

    /** `parseRequestLine`: sets the method and the page and, for a GET with a query, the parameters. */
    method ParseRequestLineInto(line: string) returns (outcome: Outcome)
      requires parameters == map[]
      modifies this`httpMethod, this`requestedPage, this`parameters
      ensures match ParseRequestLine(line)
        case Ok(rl) => outcome == Pass && httpMethod == rl.httpMethod && requestedPage == rl.requestedPage
          && parameters == rl.parameters
        case Err(e) => outcome == Fail(e)
    {
      var parts := Split(line, Space);
      if |parts| != 3 {
        return Fail(BadRequest);
      }
      httpMethod := parts[0];
      var pathAndQuery := Split(parts[1], QuestionMark);
      if |pathAndQuery| == 0 {
        return Fail(IndexOutOfBounds);
      }
      requestedPage := pathAndQuery[0];
      if !IsLegalPageRequest(requestedPage) {
        return Fail(BadRequest);
      }
      if EqualsIgnoreCase("GET", httpMethod) && |pathAndQuery| > 1 {
        outcome := ParseQueryStringInto(pathAndQuery[1]);
        return;
      }
      return Pass;
    }

    /** `parseQueryString`: puts each pair into the parameters, and throws at the first segment that is not `k=v`. */
    method ParseQueryStringInto(queryString: string) returns (outcome: Outcome)
      modifies this`parameters
      ensures match StrictParams(old(parameters), Split(queryString, Ampersand))
        case Ok(params) => outcome == Pass && parameters == params
        case Err(e) => outcome == Fail(e)
    {
      var pairs := Split(queryString, Ampersand);
      for i := 0 to |pairs|
        invariant StrictParams(old(parameters), pairs) == StrictParams(parameters, pairs[i..])
      {
        assert pairs[i..][0] == pairs[i] && pairs[i..][1..] == pairs[i + 1..];
        var keyValue := Split(pairs[i], EqualsSign);
        if |keyValue| != 2 {
          return Fail(BadRequest);
        }
        parameters := parameters[keyValue[0] := keyValue[1]];
      }
      return Pass;
    }

    /** `parseHeaderLine`: puts one header, replacing an earlier one of exactly the same name. */
    method ParseHeaderLineInto(line: string) returns (outcome: Outcome)
      modifies this`headers
      ensures match ParseHeaderLine(line)
        case Ok(header) => outcome == Pass && headers == old(headers)[header.0 := header.1]
        case Err(e) => outcome == Fail(e)
    {
      var parts := Split(line, HeaderSeparator);
      if |parts| != 2 {
        return Fail(BadRequest);
      }
      headers := headers[Trim(parts[0]) := Trim(parts[1])];
      return Pass;
    }

    /** `readBody`: the Content-Length chars into a zero-filled buffer, kept as the body, then `parseBody`. */
    method ReadBodyInto(reader: Reader) returns (outcome: Outcome)
      modifies this`body, this`parameters, reader
      ensures match ReadBody(headers, old(reader.rest))
        case Ok((chars, rest)) => outcome == Pass && body == chars && reader.rest == rest
          && parameters == BodyParams(headers, chars, old(parameters))
        case Err(e) => outcome == Fail(e)
    {
      var contentLength := 0;
      var parsed := ParseInt(GetOrDefault(headers, "Content-Length", "0"), 10);
      if parsed.Some? {
        contentLength := parsed.value;
      }
      if contentLength < 0 {
        return Fail(NegativeArraySize);
      }
      var buffer := new char[contentLength](_ => '\0');
      assert buffer[..] == Zeros(contentLength);
      var _ := reader.Read(buffer, contentLength);
      ReadIntoZeros(buffer[..], old(reader.rest), contentLength);
      body := buffer[..];
      ParseBody();
      return Pass;
    }

    /** `parseBody`: a form body is decoded into the parameters. */
    method ParseBody()
      modifies this`parameters
      ensures parameters == BodyParams(headers, body, old(parameters))
    {
      if "Content-Type" in headers && EqualsIgnoreCase(FormType, headers["Content-Type"]) {
        ParseUrlEncodedBody();
      }
    }

    /** `parseUrlEncodedBody`: puts each `k=v` pair of the body, skipping the rest. */
    method ParseUrlEncodedBody()
      modifies this`parameters
      ensures parameters == FormParams(old(parameters), Split(body, Ampersand))
    {
      var pairs := Split(body, Ampersand);
      for i := 0 to |pairs|
        invariant FormParams(old(parameters), pairs) == FormParams(parameters, pairs[i..])
      {
        assert pairs[i..][0] == pairs[i] && pairs[i..][1..] == pairs[i + 1..];
        var keyValue := Split(pairs[i], EqualsSign);
        if |keyValue| == 2 {
          parameters := parameters[keyValue[0] := keyValue[1]];
        }
      }
    }
  }

  // ---------------------------------------------------------------------------------------------
  // The decoders' properties.

  /**
   * The strict decoder succeeds exactly when every segment splits into two parts, and then it
   * agrees with the lenient one the form body uses.
   */
  lemma {:induction false} StrictParamsSucceeds(params: map<string, string>, pairs: seq<string>)
    ensures StrictParams(params, pairs).Ok? <==> forall i | 0 <= i < |pairs| :: |Split(pairs[i], EqualsSign)| == 2
    ensures StrictParams(params, pairs).Ok? ==> StrictParams(params, pairs).value == FormParams(params, pairs)
    decreases |pairs|
  {
    if pairs != [] {
      assert forall i | 0 <= i < |pairs[1..]| :: pairs[1..][i] == pairs[i + 1];
      var keyValue := Split(pairs[0], EqualsSign);
      if |keyValue| == 2 {
        StrictParamsSucceeds(params[keyValue[0] := keyValue[1]], pairs[1..]);
      }
    }
  }

  /**
   * An empty segment, from a leading '&' or from "&&" between segments, makes the query a bad
   * request. A trailing '&' does not: `split` drops the empty piece after it.
   */
  lemma EmptySegmentRejected(params: map<string, string>, pairs: seq<string>, i: nat)
    requires i < |pairs| && pairs[i] == []
    ensures StrictParams(params, pairs) == Err(BadRequest)
  {
    assert Split(pairs[i], EqualsSign) == [[]];
    StrictParamsSucceeds(params, pairs);
  }

  /** A '&' after the last segment of a query changes nothing, because `split` drops trailing empties. */
  lemma TrailingAmpersandIgnored(params: map<string, string>, pairs: seq<string>)
    requires |pairs| > 0 && pairs[|pairs| - 1] != []
    requires forall i | 0 <= i < |pairs| :: '&' !in pairs[i]
    ensures StrictParams(params, Split(Join(pairs, "&") + "&", Ampersand)) == StrictParams(params, pairs)
    ensures Split(Join(pairs, "&"), Ampersand) == pairs
  {
    forall i | 0 <= i < |pairs| ensures IsPlain(Ampersand, pairs[i]) {
      NoCharPlain(Ampersand, '&', pairs[i]);
    }
    SplitIgnoresTrailingSeparator(pairs, "&", Ampersand);
    SplitOfJoin(pairs, "&", Ampersand);
  }

  /** `a=1&` is read as `a=1`. */
  lemma TrailingAmpersandExample()
    ensures StrictParams(map[], Split("a=1&", Ampersand)) == Ok(map["a" := "1"])
  {
    TrailingAmpersandIgnored(map[], ["a=1"]);
    assert Join(["a=1"], "&") + "&" == "a=1&";
    KeyValueSplit("a", "1");
    assert "a" + "=" + "1" == "a=1";
  }

  lemma {:induction false} FormParamsAppend(params: map<string, string>, a: seq<string>, b: seq<string>)
    ensures FormParams(params, a + b) == FormParams(FormParams(params, a), b)
    decreases |a|
  {
    if a == [] {
      assert a + b == b;
    } else {
      assert (a + b)[0] == a[0] && (a + b)[1..] == a[1..] + b;
      var keyValue := Split(a[0], EqualsSign);
      FormParamsAppend(if |keyValue| == 2 then params[keyValue[0] := keyValue[1]] else params, a[1..], b);
    }
  }

  lemma FormParamsOne(params: map<string, string>, pair: string)
    ensures var keyValue := Split(pair, EqualsSign);
      FormParams(params, [pair]) == if |keyValue| == 2 then params[keyValue[0] := keyValue[1]] else params
  {
    assert [pair][1..] == [];
  }

  /** In a form body a segment that is not `k=v` is ignored, and `k=v` puts v under k over any earlier value. */
  lemma FormSegment(params: map<string, string>, pairs: seq<string>, pair: string)
    ensures |Split(pair, EqualsSign)| != 2 ==> FormParams(params, pairs + [pair]) == FormParams(params, pairs)
    ensures forall k, v | k != [] && v != [] && '=' !in k && '=' !in v && pair == k + "=" + v ::
      FormParams(params, pairs + [pair]) == FormParams(params, pairs)[k := v]
  {
    FormParamsAppend(params, pairs, [pair]);
    FormParamsOne(FormParams(params, pairs), pair);
    forall k, v | k != [] && v != [] && '=' !in k && '=' !in v && pair == k + "=" + v
      ensures FormParams(params, pairs + [pair]) == FormParams(params, pairs)[k := v]
    {
      KeyValueSplit(k, v);
    }
  }

  // ---------------------------------------------------------------------------------------------
  // The request line's properties.

  /** A stream with no line at all is a bad request. */
  lemma EmptyInputRejected()
    ensures ParseRequest([]) == Err(BadRequest)
  {
  }

  /** A request line with no space is not three parts: a bad request. */
  lemma RequestLineWithoutSpace(line: string)
    requires ' ' !in line
    ensures ParseRequestLine(line) == Err(BadRequest)
  {
    NoCharPlain(Space, ' ', line);
    PlainPrefixHasNoMatch(Space, line, []);
    assert line + [] == line;
    SplitWithoutMatch(line, Space);
  }

  /**
   * A target without '?' is taken as the page exactly as written, ".." segments and all: no path
   * is refused, and nothing is decoded.
   */
  lemma TargetKeptAsWritten(m: string, target: string, version: string)
    requires m != [] && target != [] && version != []
    requires ' ' !in m && ' ' !in target && ' ' !in version && '?' !in target
    ensures ParseRequestLine(m + " " + target + " " + version) == Ok(RequestLine(m, target, map[]))
  {
    JoinThree(m, target, version, " ");
    SplitOnSpace([m, target, version]);
    NoCharPlain(QuestionMark, '?', target);
    assert !Occurs(QuestionMark, target) by {
      PlainPrefixHasNoMatch(QuestionMark, target, []);
      assert target + [] == target;
    }
    SplitWithoutMatch(target, QuestionMark);
  }

  /** `path?query` splits on '?' into the path and the query. */
  lemma PathAndQuery(path: string, query: string)
    requires path != [] && query != [] && '?' !in path && '?' !in query
    ensures Split(path + "?" + query, QuestionMark) == [path, query]
  {
    NoCharPlain(QuestionMark, '?', path);
    NoCharPlain(QuestionMark, '?', query);
    assert [path, query][1..] == [query];
    assert Join([path, query], "?") == path + "?" + query;
    SplitOfJoin([path, query], "?", QuestionMark);
  }

  /**
   * The query of `path?query` is decoded, strictly, only when the method is "GET" in any case;
   * for any other method it is dropped unread, however malformed.
   */
  lemma QueryOnlyForGet(m: string, path: string, query: string, version: string)
    requires m != [] && path != [] && query != [] && version != []
    requires ' ' !in m && ' ' !in path && ' ' !in query && ' ' !in version
    requires '?' !in path && '?' !in query
    ensures ParseRequestLine(m + " " + (path + "?" + query) + " " + version) ==
      if EqualsIgnoreCase("GET", m) then
        match StrictParams(map[], Split(query, Ampersand))
        case Ok(params) => Ok(RequestLine(m, path, params))
        case Err(e) => Err(e)
      else Ok(RequestLine(m, path, map[]))
  {
    var target := path + "?" + query;
    assert ' ' !in target;
    JoinThree(m, target, version, " ");
    SplitOnSpace([m, target, version]);
    PathAndQuery(path, query);
  }

  // ---------------------------------------------------------------------------------------------
  // The headers' and the body's properties.

  /** `Name: value` is stored under the trimmed name, in the case it was written in, with the trimmed value. */
  lemma HeaderLineOf(name: string, value: string)
    requires !Occurs(HeaderSeparator, name) && !Occurs(HeaderSeparator, value) && value != []
    ensures ParseHeaderLine(name + ": " + value) == Ok((Trim(name), Trim(value)))
  {
    SplitOnHeaderSeparator(name, value);
  }

  /** A header line in which ": " does not occur, such as `Host:x`, is a bad request. */
  lemma HeaderLineWithoutSeparator(line: string)
    requires !Occurs(HeaderSeparator, line)
    ensures ParseHeaderLine(line) == Err(BadRequest)
  {
    SplitWithoutMatch(line, HeaderSeparator);
  }

  /** The header loop reads a header section line by line and stops right after its empty line. */
  lemma {:induction false} HeadersOfBlock(headers: map<string, string>, lines: seq<string>, tail: string)
    requires forall i | 0 <= i < |lines| :: lines[i] != [] && HasNoLineEnd(lines[i])
    ensures HeadersFrom(headers, HeaderBlock(lines) + tail) ==
      match PutHeaders(headers, lines)
      case Ok(m) => Ok((m, tail))
      case Err(e) => Err(e)
    decreases |lines|
  {
    if lines == [] {
      ReadCrlfLine([], tail);
      assert [] + "\r\n" + tail == HeaderBlock(lines) + tail;
    } else {
      var rest := HeaderBlock(lines[1..]) + tail;
      assert HeaderBlock(lines) + tail == lines[0] + "\r\n" + rest;
      ReadCrlfLine(lines[0], rest);
      match ParseHeaderLine(lines[0])
      case Ok(header) => HeadersOfBlock(headers[header.0 := header.1], lines[1..], tail);
      case Err(_) =>
    }
  }

  /**
   * Without a "Content-Length" header spelled exactly so, or with one that is not a number, the
   * body is empty and nothing is read: a lower-case "content-length" is not looked at.
   */
  lemma MissingLengthIsZero(headers: map<string, string>, input: string)
    requires "Content-Length" !in headers || ParseInt(headers["Content-Length"], 10).None?
    ensures ReadBody(headers, input) == Ok(([], input))
  {
    if "Content-Length" !in headers {
      assert Decimal(0) == [DigitChar(0)] == "0";
      ParseFormat(0, 10);
    }
    ReadCharsOf([], input);
    assert [] + input == input;
  }

  /** A body of exactly Content-Length chars is read whole, and nothing after it. */
  lemma LengthFraming(headers: map<string, string>, content: string, tail: string)
    requires "Content-Length" in headers
    requires headers["Content-Length"] == Decimal(|content|) && |content| <= MaxValue
    ensures ReadBody(headers, content + tail) == Ok((content, tail))
  {
    ParseFormat(|content|, 10);
    ReadCharsOf(content, tail);
  }

  /**
   * The body has exactly as many chars as the length says, whatever the input holds; the read
   * fails only for a negative length.
   */
  lemma BodyHasContentLength(headers: map<string, string>, input: string)
    ensures ReadBody(headers, input).Ok? <==> ContentLength(headers) >= 0
    ensures ReadBody(headers, input).Ok? ==> |ReadBody(headers, input).value.0| == ContentLength(headers)
  {
  }

  /** A form body `k=v` puts v under k, whatever the case of the form type in Content-Type. */
  lemma FormBodyParameter(headers: map<string, string>, k: string, v: string, params: map<string, string>)
    requires "Content-Type" in headers && EqualsIgnoreCase(FormType, headers["Content-Type"])
    requires k != [] && v != [] && '=' !in k && '=' !in v && '&' !in k && '&' !in v
    ensures BodyParams(headers, k + "=" + v, params) == params[k := v]
  {
    var pair := k + "=" + v;
    NoCharPlain(Ampersand, '&', pair);
    assert !Occurs(Ampersand, pair) by {
      PlainPrefixHasNoMatch(Ampersand, pair, []);
      assert pair + [] == pair;
    }
    SplitWithoutMatch(pair, Ampersand);
    KeyValueSplit(k, v);
    FormParamsOne(params, pair);
  }

  lemma Regroup(a: string, b: string, c: string, d: string)
    ensures a + b + c + d == a + (b + (c + d))
  {
  }

  /** `ParseRequest` stage by stage. */
  lemma ParseRequestStages(input: string, line: string, rest: string, requestLine: RequestLine,
                           headers: map<string, string>, afterHeaders: string, body: string, afterBody: string)
    requires NextLine(input) == Some((line, rest)) && ParseRequestLine(line) == Ok(requestLine)
    requires HeadersFrom(map[], rest) == Ok((headers, afterHeaders))
    requires ReadBody(headers, afterHeaders) == Ok((body, afterBody))
    ensures ParseRequest(input) ==
      Ok((Request(requestLine.httpMethod, requestLine.requestedPage, headers, body,
                  BodyParams(headers, body, requestLine.parameters)), afterBody))
  {
  }

  /** A request line of three space-free parts with no '?' in the target, and header lines that parse. */
  predicate IsPlainRequest(m: string, target: string, version: string, lines: seq<string>, headers: map<string, string>) {
    && m != [] && target != [] && version != []
    && ' ' !in m && ' ' !in target && ' ' !in version && '?' !in target
    && HasNoLineEnd(m + " " + target + " " + version)
    && (forall i | 0 <= i < |lines| :: lines[i] != [] && HasNoLineEnd(lines[i]))
    && PutHeaders(map[], lines) == Ok(headers)
  }

  /**
   * A request line, a header section with the body's length as Content-Length, and the body: the
   * request is read back with the page as written, and nothing after the body is consumed.
   */
  lemma RequestRoundTrip(m: string, target: string, version: string, lines: seq<string>, headers: map<string, string>,
                         content: string, tail: string)
    requires IsPlainRequest(m, target, version, lines, headers)
    requires "Content-Length" in headers
    requires headers["Content-Length"] == Decimal(|content|) && |content| <= MaxValue
    ensures ParseRequest(m + " " + target + " " + version + "\r\n" + HeaderBlock(lines) + content + tail) ==
      Ok((Request(m, target, headers, content, BodyParams(headers, content, map[])), tail))
  {
    var line := m + " " + target + " " + version;
    var afterLine := HeaderBlock(lines) + (content + tail);
    Regroup(line + "\r\n", HeaderBlock(lines), content, tail);
    ReadCrlfLine(line, afterLine);
    TargetKeptAsWritten(m, target, version);
    HeadersOfBlock(map[], lines, content + tail);
    LengthFraming(headers, content, tail);
    ParseRequestStages(line + "\r\n" + afterLine, line, afterLine, RequestLine(m, target, map[]),
                       headers, content + tail, content, tail);
  }

  /** A request without a "Content-Length" header has an empty body, and the input after its head is left. */
  lemma BodilessRequestRoundTrip(m: string, target: string, version: string, lines: seq<string>,
                                 headers: map<string, string>, tail: string)
    requires IsPlainRequest(m, target, version, lines, headers)
    requires "Content-Length" !in headers
    ensures ParseRequest(m + " " + target + " " + version + "\r\n" + HeaderBlock(lines) + tail) ==
      Ok((Request(m, target, headers, [], BodyParams(headers, [], map[])), tail))
  {
    var line := m + " " + target + " " + version;
    var afterLine := HeaderBlock(lines) + tail;
    assert line + "\r\n" + HeaderBlock(lines) + tail == line + "\r\n" + afterLine;
    ReadCrlfLine(line, afterLine);
    TargetKeptAsWritten(m, target, version);
    HeadersOfBlock(map[], lines, tail);
    MissingLengthIsZero(headers, tail);
    ParseRequestStages(line + "\r\n" + afterLine, line, afterLine, RequestLine(m, target, map[]),
                       headers, tail, [], tail);
  }
}
