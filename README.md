# HTTP/1.1 lab server: request parser and response writer

This project models the wire codec of a small multi-threaded HTTP/1.1 server written in Java.
The repository holds two snapshots of it:

- `Sources/` is the later one. It sanitises `..` out of request paths, reads chunked and
  length-framed bodies, answers a `BadRequestException` with 400 and can send chunked responses
  in 16-byte frames.
- `src/` is the earlier one. It keeps the path as written, reads only `Content-Length` bodies,
  decodes form bodies and answers any exception with 500.

The model covers what the server reads from a connection and what it writes back for each
request. Request parsing is given twice: once as a specification function (`ParseRequest`) and
once as the Java class does it, as a Dafny `class` whose methods fill its fields from a reader.
Each method is proved against the function. Likewise each response method appends to an
`OutputStream` object, and its contract gives the bytes it appends through a function of its
inputs. Lemmas then relate the two directions: a request written out in the usual shape is
parsed back into its parts, and a response the server writes is read back by an HTTP reader as
the status, headers and body it meant to send.

Modules:

- `Outcomes` holds `Option`, `Result` and the Java exceptions that matter: bad request, index out
  of bounds, negative array size, null pointer and invalid path.
- `JavaText` holds `String.split` with Java's rule that trailing empty strings are dropped. It
  also has `trim`, `toLowerCase`, `equalsIgnoreCase`, `endsWith`, `lastIndexOf` and
  `String.join`.
- `JavaInt` holds `Integer.parseInt` in any radix, limited to 32 bits, and the decimal and hex
  formatting the server writes.
- `Bytes` holds bytes, a char cast to `byte`, UTF-8 encoding and a one-char-per-byte view used
  to read responses back.
- `LineReader` holds `BufferedReader.readLine` and `read`, as functions and as a class.
- `Streams` holds `OutputStream` and `StringBuilder`.
- `JavaMaps` holds a `HashMap`'s iteration order and its `toString`.
- `Util` holds `parseQueryString`, `charArrayToBytes` and `writeToByteStreamAndLog`. These are
  shared by both snapshots, and `Wire` turns a sequence of writes into bytes on the wire.
- `FileTypes` holds `Paths.get`, the home-directory expansion, `determineContentType` and
  `getExtension`.
- `SourcesRequest`, `SourcesServer` and `SourcesResponse` cover the later snapshot's parser, its
  handler and the read-back of its responses.
- `SrcRequest`, `SrcServer` and `SrcExchange` cover the same for the earlier snapshot.

The file system is an oracle: a map from path to contents. The user's home directory, the
configured root, default page and home are parameters. The iteration order of a `HashMap` is a
sequence of keys that only has to enumerate the map. The HTML page the later snapshot builds for
a POST is a function parameter.

## Model

| member | source | states |
|---|---|---|
| Util.ParseQueryString | Sources/Util.java:33-57 | the decoding loop returns exactly the map, or the exception, that the segment-by-segment definition `QueryParams` gives |
| Util.ParamsAppend | Sources/Util.java:36-54 | decoding two runs of segments is decoding the first and continuing from its map with the second; a failure in the first ends it |
| Util.EmptySegmentIgnored | Sources/Util.java:37-39 | an empty segment anywhere changes nothing |
| Util.LastOccurrenceWins | Sources/Util.java:49-53 | when decoding succeeds, a key takes the value of its last occurrence |
| Util.PutKeepsKey | Sources/Util.java:49-53 | segments that do not put a key keep its earlier value |
| Util.QueryOfSegments | Sources/Util.java:35 | the query string `&`-joined from segments without `&` decodes segment by segment |
| Util.SegmentKeyValue | Sources/Util.java:49-50 | `k=v` puts `v` under `k` |
| Util.SegmentTrailingEquals | Sources/Util.java:51-52 | `k=` puts the empty value under `k` |
| Util.SegmentWithoutEquals | Sources/Util.java:42-47 | a segment without `=` is a bad request |
| Util.SegmentTooManyParts | Sources/Util.java:42-47 | `k=v=w` is a bad request |
| Util.PiecesOfEqualsRun | Sources/Util.java:40 | splitting a run of n `=` on `=` gives n+1 empty pieces, all of which split drops |
| Util.SegmentOnlyEquals | Sources/Util.java:40-52 | a segment of only `=` splits into nothing, so reading its key is an index out of bounds |
| Util.CharArrayToBytes | Sources/Util.java:24-31 | a fresh array of the same length holding each char cast to a byte |
| Util.WriteToByteStreamAndLog | Sources/Util.java:13-16 | the stream gains the string's bytes and the log gains `"< "` and the string |
| Util.WireAppend | Sources/Util.java:13-16 | the bytes and the log of two runs of writes are the concatenations of each run's |
| Util.WireOfAppend | Sources/Util.java:14 | the bytes of two runs of writes are the bytes of each run, concatenated |
| Util.LogOfAppend | Sources/Util.java:15 | the log of two runs of writes is the log of each run, concatenated |
| SourcesRequest.HttpRequest.constructor | Sources/HTTPRequest.java:16-21 | a new request has an empty method, page, header map, body and parameter map |
| SourcesRequest.HttpRequest.Parse | Sources/HTTPRequest.java:16-38 | the constructor succeeds exactly when `ParseRequest` does, with the same request and the same unread input; otherwise it throws the same exception |
| SourcesRequest.HttpRequest.ParseRequestLineInto | Sources/HTTPRequest.java:101-118 | the fields get the method, sanitised page and query parameters of `ParseRequestLine`, or the method throws its exception |
| SourcesRequest.HttpRequest.ParseHeaderLineInto | Sources/HTTPRequest.java:134-140 | the header map gains the parsed pair, or the method throws a bad request |
| SourcesRequest.HttpRequest.ReadBodyInto | Sources/HTTPRequest.java:44-70 | the body and the reader's remaining input are those of `ReadBody`, or the method fails as it does |
| SourcesRequest.HttpRequest.ReadChunkedBodyInto | Sources/HTTPRequest.java:72-99 | the body and the reader's remaining input are those of the chunk decoder `ChunksFrom`, or the method fails as it does |
| SourcesRequest.HttpRequest.ReadChunk | Sources/HTTPRequest.java:88-91 | a fresh array of the n chars read, padded with zeros, cast to bytes; the line after the chunk is skipped |
| SourcesRequest.IsRequestGoingOutsideRoot | Sources/HTTPRequest.java:121-132 | the loop over the `/`- and `\`-separated segments gives the path `SanitizedPath` describes |
| SourcesRequest.KeptDotDotOnlyFirst | Sources/HTTPRequest.java:124-130 | the loop keeps `..` only as the first kept segment |
| SourcesRequest.SanitizedDotDotOnlyFirst | Sources/HTTPRequest.java:121-132 | in every sanitised path, `..` can only be the first segment |
| SourcesRequest.KeptWithoutDotDot | Sources/HTTPRequest.java:124-130 | segments without `..` are all kept, in order |
| SourcesRequest.KeptAppend | Sources/HTTPRequest.java:124-130 | the loop over two runs of segments is the loop over the second, continuing from the first |
| SourcesRequest.DotDotCancels | Sources/HTTPRequest.java:125-126 | a segment followed by `..` cancels out |
| SourcesRequest.SplitPath | Sources/HTTPRequest.java:122 | a `/`-joined path of plain segments splits back into them |
| SourcesRequest.SanitizeKeepsLeadingEmpty | Sources/HTTPRequest.java:121-132 | `/name` becomes `//name`, because the empty first segment is kept and joined |
| SourcesRequest.SanitizeDropsParent | Sources/HTTPRequest.java:121-132 | `/a/../b` becomes `//b` |
| SourcesRequest.SanitizeDropsLeadingParent | Sources/HTTPRequest.java:121-132 | `/../x` becomes `/x`, because `..` removes the empty first segment |
| SourcesRequest.ExcessParentSegments | Sources/HTTPRequest.java:122 | `/../../x` splits into the empty segment, `..`, `..` and `x` |
| SourcesRequest.ExcessParentKept | Sources/HTTPRequest.java:124-130 | the second `..` finds the kept list empty and is kept |
| SourcesRequest.SanitizeKeepsExcessParent | Sources/HTTPRequest.java:121-132 | `/../../x` becomes `/../x`: one `..` survives the sanitiser |
| SourcesRequest.RequestLineWithoutQuery | Sources/HTTPRequest.java:101-113 | `m target version` gives method m, the sanitised target and no parameters |
| SourcesRequest.RequestLineWithQuery | Sources/HTTPRequest.java:101-117 | `m path?query version` gives the sanitised path and the decoded query, or the decoder's exception, for any method |
| SourcesRequest.RequestLineWithoutSpace | Sources/HTTPRequest.java:103-107 | a line without a space is a bad request |
| SourcesRequest.QuestionMarkTarget | Sources/HTTPRequest.java:111-112 | a target of only `?` splits into nothing and is an index out of bounds |
| SourcesRequest.EmptyInputRejected | Sources/HTTPRequest.java:24-27 | a closed stream with no request line is a bad request |
| SourcesRequest.HeaderLineOf | Sources/HTTPRequest.java:134-140 | `name: value`, where neither part holds `": "`, gives the trimmed, lower-cased name and the trimmed value |
| SourcesRequest.RefererHeader | Sources/HTTPRequest.java:134-140 | `Referer: http://example.com/` is stored as `referer` with the URL, colon and all, as its value |
| SourcesRequest.HeaderLineWithoutSeparator | Sources/HTTPRequest.java:135-138 | a header line in which `": "` does not occur, such as `Host:x`, is a bad request |
| SourcesRequest.HeadersOfBlock | Sources/HTTPRequest.java:32-35 | a CRLF header block ended by an empty line is read line by line, leaving what follows |
| SourcesRequest.LaterHeaderWins | Sources/HTTPRequest.java:139 | a later header line replaces an earlier one with the same name |
| SourcesRequest.ConflictingFramingRejected | Sources/HTTPRequest.java:48-55 | a `transfer-encoding` together with a `content-length`, or one other than `chunked`, is a bad request |
| SourcesRequest.NoFramingNoBody | Sources/HTTPRequest.java:60-69 | without either header the body is empty and nothing is read |
| SourcesRequest.MalformedContentLength | Sources/HTTPRequest.java:60-64 | a `content-length` that is not a decimal int is a bad request |
| SourcesRequest.BodyHasContentLength | Sources/HTTPRequest.java:60-69 | a length-framed body that reads has exactly the declared number of bytes |
| SourcesRequest.ContentLengthFraming | Sources/HTTPRequest.java:60-69 | a body sent with its decimal length is read back exactly, leaving the rest |
| SourcesRequest.HexLine | Sources/HTTPRequest.java:83 | the hex size line the server writes parses back in radix 16 to the size |
| SourcesRequest.ChunkFrameStep | Sources/HTTPRequest.java:75-96 | one non-empty chunk frame adds its bytes and carries on |
| SourcesRequest.LastChunkStep | Sources/HTTPRequest.java:88-95 | the frame `0` ends the body and skips the line after it |
| SourcesRequest.ChunkedBodyIsConcatenation | Sources/HTTPRequest.java:72-99 | a run of framed chunks ended by `0` decodes to their concatenation |
| SourcesRequest.ChunkSizeNotHex | Sources/HTTPRequest.java:82-86 | a size line that is not hex is a bad request |
| SourcesRequest.EmptySizeLineEnds | Sources/HTTPRequest.java:76-79 | an empty size line ends the body |
| SourcesRequest.ChunkedFraming | Sources/HTTPRequest.java:48-58 | a chunked body is read back as the concatenation of its chunks |
| SourcesRequest.RequestRoundTrip | Sources/HTTPRequest.java:16-38 | a request line, header block and length-framed body are parsed back into method, sanitised page, headers and body |
| SourcesRequest.BodilessRequestRoundTrip | Sources/HTTPRequest.java:16-38 | the same round trip for a request without a body |
| SourcesServer.ClientHandler.constructor | Sources/MultiThreadedServer.java:60-64 | a new handler has an empty log |
| SourcesServer.ClientHandler.WriteChunkedResponse | Sources/MultiThreadedServer.java:227-246 | the stream gains frames of at most 16 bytes, each with its hex size line and CRLF, then `0` and an empty line |
| SourcesServer.ClientHandler.SendErrorResponse | Sources/MultiThreadedServer.java:200-208 | the stream and the log gain the status line, `text/html` type, length line, empty line and HTML body of `ErrorWrites` |
| SourcesServer.ClientHandler.SendSuccessResponse | Sources/MultiThreadedServer.java:210-225 | the stream and the log gain a chunked response when the request has header `chunked: yes`, and a length-framed one otherwise |
| SourcesServer.ClientHandler.HandleGetOrHeadRequest | Sources/MultiThreadedServer.java:113-138 | the default page stands in for `/`, a missing file is a 404, and a found file gets its head or its full response; path failures throw |
| SourcesServer.ClientHandler.SendHeadResponse | Sources/MultiThreadedServer.java:128-132 | the stream and log gain the status line, type and length lines and an empty line, with no body |
| SourcesServer.ClientHandler.HandlePostRequest | Sources/MultiThreadedServer.java:139-176 | a non-empty body that is not a form is a bad request; the body is decoded as a query string and the page is sent as `text/html` |
| SourcesServer.ClientHandler.HandleTraceRequest | Sources/MultiThreadedServer.java:187-198 | the reply is a status line, `message/http` type, empty line, `TRACE page HTTP/1.1` and one line per header in map order |
| SourcesServer.ClientHandler.EchoHeaders | Sources/MultiThreadedServer.java:194-196 | one logged `name: value` line per key, in the given order |
| SourcesServer.ClientHandler.Dispatch | Sources/MultiThreadedServer.java:76-91 | GET, POST, HEAD and TRACE go to their handlers, and any other method gets 501 |
| SourcesServer.ClientHandler.DispatchAndCatch | Sources/MultiThreadedServer.java:76-94 | a handler's bad request is answered with 400 after what it wrote; any other exception adds nothing |
| SourcesServer.ClientHandler.Run | Sources/MultiThreadedServer.java:67-111 | the bytes and log written for an input stream are those of `Exchange` |
| SourcesServer.ExchangeOfParse | Sources/MultiThreadedServer.java:74-94 | a parse failure is answered as a failed handler, and a parsed request is dispatched |
| SourcesServer.AnsweredAfterWrites | Sources/MultiThreadedServer.java:92-97 | the handler's writes, plus the 400 reply for a bad request, are the whole answer |
| SourcesServer.ChunkWritesStep | Sources/MultiThreadedServer.java:230-243 | one turn of the loop writes a full 16-byte frame, or the remaining bytes |
| SourcesServer.LastChunkWrites | Sources/MultiThreadedServer.java:244-245 | after the loop comes `0` CRLF CRLF |
| SourcesServer.NoLogOfFrames | Sources/MultiThreadedServer.java:232-241 | chunk frames are written but never logged |
| SourcesServer.NoLogOfChunks | Sources/MultiThreadedServer.java:227-246 | the whole chunked body leaves the log unchanged |
| SourcesResponse.HeaderOf | Sources/HTTPRequest.java:134-140 | a `name: value` line of tokens reads back as the lower-cased name and the value |
| SourcesResponse.ContentTypeLine | Sources/MultiThreadedServer.java:219 | the `Content-Type` line written reads back as the pair `content-type`, type |
| SourcesResponse.ContentLengthLine | Sources/MultiThreadedServer.java:220 | the `Content-Length` line written reads back as the pair `content-length`, length |
| SourcesResponse.TransferEncodingLine | Sources/MultiThreadedServer.java:214 | the `Transfer-Encoding` line written reads back as the pair `transfer-encoding`, `chunked` |
| SourcesResponse.ChunkPiecesShape | Sources/MultiThreadedServer.java:227-243 | the frames' payloads concatenate to the content; each has 1 to 16 bytes, and all but the last have 16 |
| SourcesResponse.FramesText | Sources/MultiThreadedServer.java:227-246 | the bytes of the frames, read as text, are the chunked framing of the pieces |
| SourcesResponse.ChunkedBody | Sources/MultiThreadedServer.java:227-246 | the chunked body the server writes decodes back to the content |
| SourcesResponse.LengthFramedReadBack | Sources/MultiThreadedServer.java:218-222 | a length-framed reply reads back as its status, type, length and body |
| SourcesResponse.ErrorReadBack | Sources/MultiThreadedServer.java:200-208 | an error reply reads back as `HTTP/1.1 code message`, `text/html`, the body's length and the HTML body |
| SourcesResponse.SuccessReadBack | Sources/MultiThreadedServer.java:210-225 | a success reply reads back as 200, its type, the chunked or length framing header, and the content |
| SourcesResponse.SuccessContentType | Sources/MultiThreadedServer.java:210-225 | whichever framing is chosen, the reply reads back as 200 with the content type and the content |
| SourcesResponse.ChunkedReadBack | Sources/MultiThreadedServer.java:212-216 | a chunked reply reads back as 200, its type, `chunked` and the content |
| SourcesResponse.ChunkedResponse | Sources/MultiThreadedServer.java:212-246 | the text of a chunked reply reads back as 200, its type, `chunked` and the content |
| SourcesResponse.HeadReadBack | Sources/MultiThreadedServer.java:128-132 | a HEAD reply's head reads back as 200, the type and the file's length, with nothing after it |
| SourcesResponse.TraceReadBack | Sources/MultiThreadedServer.java:187-198 | a TRACE reply reads back as 200, `message/http` and the echoed request line and headers |
| SourcesResponse.UnknownMethodAnswered | Sources/MultiThreadedServer.java:89-90 | a parsed request with another method gets exactly the 501 reply |
| SourcesResponse.MalformedLineAnswered | Sources/MultiThreadedServer.java:92-94 | a request line without a space gets exactly the 400 reply |
| SourcesResponse.QuestionMarkAnsweredWithNothing | Sources/MultiThreadedServer.java:96-97 | a target of only `?` throws an exception the handler does not answer, so nothing is written |
| SourcesResponse.NonFormPostAnswered | Sources/MultiThreadedServer.java:142-147 | a POST with a body but no form content type gets the 400 reply |
| SourcesResponse.MissingFileAnswered | Sources/MultiThreadedServer.java:121-125 | a GET or HEAD of a missing file gets the `404 Not Found` reply |
| SourcesResponse.FoundFileAnswered | Sources/MultiThreadedServer.java:113-137 | a GET of a found file gets its success reply, and a HEAD gets its head with its length |
| SourcesResponse.TraceAnswered | Sources/MultiThreadedServer.java:187-198 | a TRACE gets the trace reply for the parsed request |
| SourcesResponse.GetReadBack | Sources/MultiThreadedServer.java:113-137 | what the server writes for a GET of a found file reads back as 200 with the file's type and contents |
| SourcesResponse.HeadExchangeReadBack | Sources/MultiThreadedServer.java:128-132 | what the server writes for a HEAD reads back as 200 with the file's type and length and no body |
| SourcesResponse.TraceExchangeReadBack | Sources/MultiThreadedServer.java:187-198 | what the server writes for a TRACE reads back as 200, `message/http` and the echo |
| FileTypes.StripTrailingSlashes | Sources/MultiThreadedServer.java:119 | trailing `/` are removed, but a lone `/` is kept |
| FileTypes.CollapseSlashes | Sources/MultiThreadedServer.java:119 | runs of `/` become one, keeping the first and last char |
| FileTypes.PathsGet | Sources/MultiThreadedServer.java:119 | a path that `Paths.get` accepts has no double slash and no trailing slash |
| FileTypes.PathsGetJoins | Sources/MultiThreadedServer.java:119 | a clean root and a clean `/page` join into their concatenation |
| FileTypes.PathsGetRelative | Sources/MultiThreadedServer.java:119 | a clean root and a clean relative name join into the root, one `/` and the name |
| FileTypes.DefaultPageServed | Sources/MultiThreadedServer.java:116-119 | a request for `/` serves exactly root + `/` + the default page, for a normalised root and a relative default page; a root starting with `~` is served from the home directory followed by the rest of the root |
| FileTypes.GetExtension | Sources/MultiThreadedServer.java:260-266 | the extension is no longer than the name |
| FileTypes.GetExtensionOf | Sources/MultiThreadedServer.java:260-266 | the extension of `base.ext` is `ext` |
| FileTypes.NoExtension | Sources/MultiThreadedServer.java:260-266 | a name with no `.` past its first char has the empty extension |
| FileTypes.ImageName | Sources/MultiThreadedServer.java:250-253 | `base.e` for an image extension matches the image pattern, is not HTML and has extension `e` |
| FileTypes.ImageSuffix | Sources/MultiThreadedServer.java:252 | an image name ends in one of the five image suffixes |
| FileTypes.NotHtml | Sources/MultiThreadedServer.java:250-252 | an image name does not end in `.html` or `.htm` |
| FileTypes.ImageContentType | Sources/MultiThreadedServer.java:248-259 | an image file gets `image/` followed by its lower-cased extension |
| FileTypes.HtmlContentType | Sources/MultiThreadedServer.java:250-251 | a name ending in `.html` or `.htm` in any case gets `text/html` |
| FileTypes.LineBreakIsNotImage | Sources/MultiThreadedServer.java:252-257 | a name with a line break never matches the image pattern and falls through to `application/octet-stream` |
| FileTypes.IconContentType | Sources/MultiThreadedServer.java:254-255 | a name ending in `.ico` gets the icon type, which is `icon` here and `image/x-icon` in the earlier snapshot |
| SrcRequest.HttpRequest.constructor | src/HTTPRequest.java:14-19 | a new request has an empty method, page, header map, body and parameter map |
| SrcRequest.HttpRequest.Parse | src/HTTPRequest.java:14-35 | the constructor succeeds exactly when `ParseRequest` does, with the same request and unread input; otherwise it throws the same exception |
| SrcRequest.HttpRequest.ParseRequestLineInto | src/HTTPRequest.java:80-99 | the fields get the method, the page as written and, for GET, the strictly decoded query; otherwise the method throws |
| SrcRequest.HttpRequest.ParseQueryStringInto | src/HTTPRequest.java:112-123 | the parameters gain every pair, or the method throws a bad request |
| SrcRequest.StrictParams | src/HTTPRequest.java:112-123 | the only exception is a bad request |
| SrcRequest.StrictParamsSucceeds | src/HTTPRequest.java:112-123 | decoding succeeds exactly when every segment has two `=`-parts, and then it puts every pair |
| SrcRequest.EmptySegmentRejected | src/HTTPRequest.java:113-119 | an empty segment, from a leading `&` or from `&&`, is a bad request |
| SrcRequest.TrailingAmpersandIgnored | src/HTTPRequest.java:112-123 | a `&` after the last segment decodes to the same map, or the same error, as the query without it |
| SrcRequest.TrailingAmpersandExample | src/HTTPRequest.java:112-123 | `a=1&` decodes to the one pair `a` = `1` |
| SrcRequest.HttpRequest.ParseHeaderLineInto | src/HTTPRequest.java:125-132 | the header map gains the trimmed pair, or the method throws a bad request |
| SrcRequest.HttpRequest.ReadBodyInto | src/HTTPRequest.java:37-52 | the body, remaining input and parameters are those of `ReadBody` and `parseBody`, or the method fails as they do |
| SrcRequest.HttpRequest.ParseBody | src/HTTPRequest.java:53-61 | a form body adds its pairs, and any other body changes nothing |
| SrcRequest.HttpRequest.ParseUrlEncodedBody | src/HTTPRequest.java:62-71 | every segment with two `=`-parts is put, and the others are skipped |
| SrcRequest.FormParamsAppend | src/HTTPRequest.java:64-70 | decoding two runs of segments is decoding the second from the first's result |
| SrcRequest.FormSegment | src/HTTPRequest.java:66-69 | a malformed segment is skipped, and `k=v` puts `v` under `k` |
| SrcRequest.FormBodyParameter | src/HTTPRequest.java:53-70 | a form body `k=v` adds `v` under `k` |
| SrcRequest.EmptyInputRejected | src/HTTPRequest.java:22-25 | a closed stream with no request line is a bad request |
| SrcRequest.RequestLineWithoutSpace | src/HTTPRequest.java:82-86 | a line without a space is a bad request |
| SrcRequest.TargetKeptAsWritten | src/HTTPRequest.java:88-94 | the target is kept as written, `..` included, because the legality test never refuses |
| SrcRequest.PathAndQuery | src/HTTPRequest.java:90 | `path?query` splits into the path and the query |
| SrcRequest.QueryOnlyForGet | src/HTTPRequest.java:95-98 | the query is decoded only when the method is GET in any case, and ignored otherwise |
| SrcRequest.HeaderLineOf | src/HTTPRequest.java:125-132 | `name: value`, where neither part holds `": "`, gives the trimmed name as written and the trimmed value |
| SrcRequest.HeaderLineWithoutSeparator | src/HTTPRequest.java:127-130 | a header line in which `": "` does not occur is a bad request |
| SrcRequest.HeadersOfBlock | src/HTTPRequest.java:30-32 | a CRLF header block ended by an empty line is read line by line, leaving what follows |
| SrcRequest.MissingLengthIsZero | src/HTTPRequest.java:39-44 | a missing or malformed `Content-Length` reads an empty body |
| SrcRequest.LengthFraming | src/HTTPRequest.java:39-48 | a body sent with its decimal length is read back exactly |
| SrcRequest.BodyHasContentLength | src/HTTPRequest.java:39-48 | reading fails exactly for a negative length, and otherwise the body has the declared length |
| SrcRequest.RequestRoundTrip | src/HTTPRequest.java:14-35 | a request line, header block and length-framed body are parsed back, with the form parameters |
| SrcRequest.BodilessRequestRoundTrip | src/HTTPRequest.java:14-35 | the same round trip for a request without `Content-Length` |
| SrcServer.ClientHandler.constructor | src/MultiThreadedServer.java:58-62 | the handler keeps the line separator its writers use; the root and default page it stores are passed to each handler as the configuration |
| SrcServer.ClientHandler.Println | src/MultiThreadedServer.java:192 | the stream gains the line and the separator, as bytes |
| SrcServer.ClientHandler.SendErrorResponse | src/MultiThreadedServer.java:190-196 | the stream gains the status line, `text/html` type, empty line and HTML body line, with no length |
| SrcServer.ClientHandler.SendSuccessResponse | src/MultiThreadedServer.java:198-206 | the stream gains the status, type and length lines, an empty line and the content |
| SrcServer.ClientHandler.HandleGetRequest | src/MultiThreadedServer.java:104-129 | the default page stands in for `/`, a missing file is `404 Not Found`, `/favicon.ico` is served from the root, and any other file is sent |
| SrcServer.ClientHandler.ServeFavicon | src/MultiThreadedServer.java:229-237 | the root's `favicon.ico` is sent as `image/x-icon`, or a `Not Found` reply when it is missing |
| SrcServer.ClientHandler.HandlePostRequest | src/MultiThreadedServer.java:132-143 | the reply is `text/plain` with `Received POST Data: ` and the parameter map's text in map order |
| SrcServer.ClientHandler.HandleHeadRequest | src/MultiThreadedServer.java:146-167 | a missing file is `Not Found`; a found one gets the status, type and length lines and an empty line |
| SrcServer.ClientHandler.HandleTraceRequest | src/MultiThreadedServer.java:169-187 | the reply is status, `message/http`, the requested page, one line per header in map order, and an empty line |
| SrcServer.ClientHandler.EchoHeaders | src/MultiThreadedServer.java:182-184 | one `name: value` line per key, in the given order |
| SrcServer.ClientHandler.Dispatch | src/MultiThreadedServer.java:73-88 | GET, POST, HEAD and TRACE go to their handlers, and any other method gets 501 |
| SrcServer.ClientHandler.DispatchAndCatch | src/MultiThreadedServer.java:73-94 | any exception a handler throws is answered with 500 after what it wrote |
| SrcServer.ClientHandler.Run | src/MultiThreadedServer.java:64-102 | the bytes written for an input stream are those of `Exchange` |
| SrcServer.AnsweredAfterWrites | src/MultiThreadedServer.java:89-94 | the handler's writes, plus the 500 reply for any exception, are the whole answer |
| SrcExchange.MalformedLineAnswered500 | src/MultiThreadedServer.java:89-94 | a request line without a space gets exactly the 500 reply |
| SrcExchange.EmptyQuerySegmentAnswered500 | src/MultiThreadedServer.java:89-94 | a GET query with an empty segment gets exactly the 500 reply |
| SrcExchange.UnknownMethodAnswered501 | src/MultiThreadedServer.java:86-87 | a request with another method gets exactly the 501 reply |
| SrcExchange.MissingFileAnswered | src/MultiThreadedServer.java:114-118 | a GET of a missing file gets `404 Not Found`, and a HEAD gets `Not Found` |
| SrcExchange.FoundFileAnswered | src/MultiThreadedServer.java:126-128 | a GET of a found file other than the favicon gets its success reply, and a HEAD gets its head |
| SrcExchange.FaviconAnswered | src/MultiThreadedServer.java:121-124 | a GET of `/favicon.ico` serves the root's favicon, or `Not Found` |
| SrcExchange.PostAnswered | src/MultiThreadedServer.java:132-143 | a POST gets the `text/plain` echo of its form parameters |
| SrcExchange.SuccessMatchesLater | src/MultiThreadedServer.java:198-206 | with CRLF separators, the success reply is byte for byte the later snapshot's length-framed reply |
| SrcExchange.HeadMatchesLater | src/MultiThreadedServer.java:161-166 | with CRLF separators, the HEAD reply is byte for byte the later snapshot's |
| SrcExchange.SuccessReadBack | src/MultiThreadedServer.java:198-206 | a success reply reads back as 200, the type, the length and the content |
| SrcExchange.HeadReadBack | src/MultiThreadedServer.java:161-166 | a HEAD reply reads back as 200, the type and the length, with nothing after it |
| SrcExchange.ErrorReadBack | src/MultiThreadedServer.java:190-196 | an error reply, which has no length, reads back with its HTML line as the body up to the end of the stream |
| SrcExchange.ErrorText | src/MultiThreadedServer.java:190-196 | the error reply's text is its status line, one header, an empty line and the HTML line |
| SrcExchange.MalformedLineReadBack | src/MultiThreadedServer.java:89-94 | the reply to a malformed request line reads back as `HTTP/1.1 500 Internal Server Error` |
| SrcExchange.RootReadBack | src/MultiThreadedServer.java:109-128 | a GET of `/` reads back as the default page with its type and length |
| SrcExchange.PostReadBack | src/MultiThreadedServer.java:141-142 | a POST reply reads back as 200, `text/plain` and the echo text |
| JavaText.DropTrailingEmpty | Sources/HTTPRequest.java:103 | split drops every trailing empty piece and nothing else |
| JavaText.SplitOfJoin | Sources/HTTPRequest.java:103 | plain parts joined by a separator split back into them |
| JavaText.SplitIgnoresTrailingSeparator | src/HTTPRequest.java:113 | a separator after the last part gives back the parts: the trailing empty piece is dropped |
| JavaText.SplitOnHeaderSeparator | Sources/HTTPRequest.java:135 | `name: value` splits on `": "` into exactly the name and the value when neither holds `": "` and the value is not empty |
| JavaText.SplitOnSpace | Sources/HTTPRequest.java:103 | space-free parts joined by spaces split back into them |
| JavaText.TrimStart | Sources/HTTPRequest.java:139 | trimming removes a prefix that ends before a non-space char |
| JavaText.TrimEnd | Sources/HTTPRequest.java:139 | trimming removes a suffix that starts after a non-space char |
| JavaText.LastIndexOf | Sources/MultiThreadedServer.java:261 | the index found holds the char, and no later index does; -1 means none does |
| JavaInt.ParseInt | Sources/HTTPRequest.java:61 | a parsed number fits in 32 bits |
| JavaInt.ParseFormat | Sources/HTTPRequest.java:61 | a length the server formats parses back to itself, in decimal or hex |
| LineReader.NextLine | Sources/HTTPRequest.java:24 | there is no line only at the end of the stream; a line holds no line end and is a prefix of the input |
| LineReader.ReadCrlfLine | Sources/HTTPRequest.java:32 | a line ended by CRLF is read, and the CRLF is consumed |
| LineReader.Reader.ReadLine | Sources/HTTPRequest.java:24 | the reader returns `NextLine` and keeps what follows |
| LineReader.Reader.Read | Sources/HTTPRequest.java:66-67 | as many chars as are left, up to the length, are copied, the rest of the buffer is kept, and -1 is returned at the end of the stream |
| LineReader.ReadIntoZeros | Sources/HTTPRequest.java:66-67 | a zero-filled buffer after the read holds `ReadChars`, padded with zeros |
| JavaMaps.EntryOrder | Sources/MultiThreadedServer.java:194 | the iteration order enumerates the map's keys, each once |
| JavaMaps.EntriesOfEnumeration | src/MultiThreadedServer.java:141 | the map's text has one `key=value` entry per key, in that order |
| Bytes.EncodeAscii | Sources/Util.java:8-10 | for ASCII text, the UTF-8 encoding is the chars cast to bytes and reads back as the text |
| Bytes.EncodeAppend | Sources/Util.java:8-10 | the encoding of a concatenation is the concatenation of the encodings |
| Bytes.LowBytesOfLatin1 | Sources/Util.java:28 | casting the one-char-per-byte view back to bytes gives the bytes |
| Streams.OutputStream.Write | Sources/Util.java:14 | the stream gains the bytes |
| Streams.StringBuilder.Append | Sources/Util.java:15 | the builder gains the text |

## Left out

- ContentLengthFraming (in `SourcesRequest`) reads the request as one char per byte, the
  ISO-8859-1 view. `InputStreamReader` decodes with the platform charset, so with UTF-8 and
  non-ASCII bytes the chars read are not the bytes sent, and Content-Length, which counts bytes,
  does not count the chars `read` returns. The read-back holds for ASCII bodies under any
  ASCII-compatible charset.
- ChunkedBodyIsConcatenation (in `SourcesRequest`) rests on the same one-char-per-byte view: a
  chunk size counts the chars `read` returns, which are the bytes sent only for ASCII data.
- ChunkedFraming (in `SourcesRequest`) rests on the same one-char-per-byte view.
- RequestRoundTrip (in `SourcesRequest` and `SrcRequest`) rests on the same one-char-per-byte
  view: its body comes back byte for byte only when it is ASCII.
- SourcesServer.Post and SourcesServer.ClientHandler.HandlePostRequest decode the POST body one
  char per byte. `new String(request.getBody())` uses the platform charset, which agrees with
  this only for ASCII bodies.
- JavaText.ToLower and JavaText.EqualsIgnoreCase fold ASCII letters only and ignore the locale;
  Java's `toLowerCase()` and `equalsIgnoreCase` also fold other letters (and `toLowerCase` uses
  the default locale, with its Turkish dotless i).
- LineReader.Reader.Read never returns fewer chars than are left, up to the length asked for.
  `BufferedReader.read` may return early, and the source does not loop, so a short read would
  leave `'\0'`s at the end of the body; that is not modelled.
- FileTypes.DefaultPageServed assumes a relative default page, as a configuration that names a
  file such as `index.html` gives; the configuration file's format is not part of this model.
- Listening, the thread pool, the connection semaphore, `activeConnections` and `ServerConfig` are
  not modelled. The configured root, default page and home directory are parameters.
- The file system is an oracle, a map from path to contents, so `Files.exists`, `Files.size` and
  `readAllBytes` never fail. I/O exceptions on the socket are not modelled.
- Logging to the console, and the later snapshot's `"> "` lines in the request log, are left
  out. The handler's `"< "` log is modelled.
- `String.getBytes` is modelled as each char cast to a byte, which is its UTF-8 encoding for
  ASCII text. The round-trip lemmas require ASCII headers.
- The `replaceFirst("^~", home)` expansion treats `home` as plain text. A `$` or `\` in it, which
  Java would read as a group reference, is not modelled.
- `HashMap` iteration order is a parameter that only has to enumerate the map, because Java does
  not fix that order.
- The HTML page that the later snapshot's POST handler builds is a function parameter. Writing it
  to `params_info.html` is a file-system effect and is left out.
- The earlier snapshot's `multipart/form-data` branch is an empty stub and changes nothing.
- `PrintWriter.println` is modelled with the line separator as a parameter, `eol`. Auto-flush and
  `checkError`, which hides write errors, are not modelled.
- In the later snapshot `ClientHandler.run` calls `new HTTPRequest(log, in)`, but the
  constructor at `Sources/HTTPRequest.java:16` takes only the reader. The model takes the
  one-argument form.
- The getters, `getReferer` and `getContentLength` are plain field reads and have no members of
  their own. `ContentLength` has the same meaning as `getContentLength`.
- An unframed response, such as the earlier snapshot's error reply, is read to the end of the
  stream, as a client does when the server closes the socket.
- `SrcRequest.IsLegalPageRequest` is always true: the source compares strings with `==`, which
  never holds between a split piece and the literal `..`.
- Partial writes and socket failures part-way through a reply are not modelled. The 500 reply is
  appended to what the handler wrote before it threw.
