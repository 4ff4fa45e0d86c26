# The gateway's hard core: a model with proofs

The repository is a C++17 HTTP gateway. This project models the parts of it that
have to agree on byte positions, socket ownership and retry counts, and proves
that they do:

- **Request parser** (`ParserMachine`, `RequestParser`, `Pipelining`,
  `ParserLimits`, `PrintedRequests`, `KeepAlive`). A byte machine specifies the
  parser; the class refines it state by state. Pipelined requests come out the same
  however the stream is cut into reads; every byte stream keeps the caps and the exact
  body length. Requests written out with no body, a counted one or chunks are accepted
  at their last byte with exactly those fields and that body, and what is not one is
  refused. What the handler's own boundary between two requests does instead is stated
  case by case.
- **Proxy hop** (`ConnectionTokens`, `ParserRuns`, `ProxyHop`). What the gateway
  forwards parses back to the same request but for exactly the hop-by-hop fields,
  the version and the query string, which is lost; the fields are given name by name.
- **Response side** (`HeaderLookup`, `ChunkScan`, `ChunkLoop`, `Framing`,
  `FrameLoop`, `ChunkCodec`, `PrintedResponses`, `ResponseHeaders`). Framing does not
  depend on TCP segmentation if and only if the response is within the caps; both
  chunk readers agree and undo the chunk writer; printed responses are framed
  exactly, and say whether the connection stays. `ChunkScan` and `Framing` are the scan that is meant, with exact sums;
  `ChunkLoop` and `FrameLoop` are the loop as it is written, with sums in `size_t`,
  and prove when the two are the same.
- **Backend exchanges** (`ConnectionPool`, `UpstreamExchange`). The phase machine
  over non-blocking sockets: it terminates (as long as no chunk size wraps), is never
  cut off while bytes move, and keeps requests and responses paired on pooled
  connections, for any number of exchanges in any order. Nothing is sent under TLS
  before the handshake, and nothing is pooled that was told to close. A backend that
  answers is heard, over a new connection, a pooled one, or a new one in place of a
  pooled one that had gone stale.
- **Event loop** (`Registry`, `EventLoop`). The loop drives these very exchanges,
  over the same connections, pool and circuit breaker. Over every run of events,
  with descriptor numbers reused by the kernel: the descriptor registry is exact, no
  socket is lost, every exchange ends exactly once with the right answer, and no
  request is put on more connections than its method allows. A call that its backend
  answers is answered to the client with that very response.
- **Delivery** (`Delivery`). Partial writes and would-blocks neither lose nor
  repeat a byte; responses keep their order exactly as long as none is queued while
  an earlier file is unsent.
- **Counters** (`ConnectionBudget`, `CircuitBreaker`, `RoundRobin`,
  `RateLimiter`; `Clock` holds their unit).

How the outside is modelled. Sockets answer from an arbitrary finite sequence of
outcomes (bytes, would-block, interrupted, closed, failed); an exhausted sequence
is a socket that stays silent. The clock moves on by an arbitrary non-negative
amount between readings. Descriptor numbers come from the same kind of oracle:
the kernel may return any number that is not open. Every theorem holds for all of
these. An I/O exception is a failed outcome. `Loop` owns real `Exchange` objects and
calls their `Advance`, `ReuseToPool` and destructor; besides, it keeps a copy of each
exchange's state (`Registry.Ex`), which `Loop.Mirrors` ties to the object, so that
the bookkeeping is reasoned about as values. The connection budget is a step machine
over its atomic operations; every interleaving is a run. Doubles are reals.

Methods that change state state their whole effect, either directly or by equating
the new state with a function of the old one (`ParserMachine.Step`,
`Framing.FrameOf`, `ChunkScan.ScanFrom`, `HeaderLookup.HeaderValue`, ...); the
lemmas are then about these functions. `Exchange` keeps its changing fields in one
record, so that a transition is one assignment.

Where code and documentation differ, the model follows the code:

- `tests/test_http_parser.cpp:245` says the handler clears the request between two
  requests of a connection. `src/server/http_handler.cpp:557` resets only the
  parser. `Pipelining` proves the promise for reset and clear.
  `KeepAlive.ResetAloneIff` says when a reset alone would do; after the handler has
  written its own fields into the request it never does
  (`HandlerBoundaryIsNeverFresh`). After one request with body framing every further
  one is refused (`FramedOnceIsRefusedForever`), and a request without swallows the
  bytes behind it (`UnframedTakesTheNext`).
- `src/server/http_client.cpp:198-201` adds `pos + size + 2` in `size_t`. A chunk-size
  line near 2^64 wraps and sends the scan back to an earlier place: it may then never
  end, or complete on no chunk at all (`FrameLoop.HangingResponse`,
  `FrameLoop.EmptyCompletion`). The model follows the scan that is meant and reports
  where the code leaves it (`astray`); `ChunkLoop.MoveIff`, `ChunkLoop.SameVerdictIff`
  and `FrameLoop.SameFrameIff` are the exact conditions, and `ResponseIsClear` shows
  that no response in the sense of the theorems gets there.
- `src/server/http_handler.cpp:560-564` relies on the client's descriptor being
  disarmed while an exchange is in flight. A local response queued before it has armed
  the descriptor again (line 1082), so a third buffered request may be started over the
  second. `EventLoop.Loop.Restart` says what that does; the run theorem assumes that
  it does not happen.
- The repository's `README.md:67` promises strict response ordering for pipelined requests, and
  `src/server/http_handler.cpp:568` says the next request waits until the response is
  sent. The `break` there leaves only the inner loop, so the next buffered request is
  answered at once, behind what is queued. `Delivery.OrderIff` proves when order is
  kept: as long as no earlier file is unsent. `Delivery.FirstFileIsLost` shows what
  happens otherwise.
- `src/server/http_handler.cpp:1134` forwards the path without the query string
  (`ProxyHop.QueryIsLost`).
- `find_header_value` adds 2 to `npos` when there is no line end, which wraps to 1;
  `HeaderLookup.FirstLine` does the same.

## Model

| member | source | states |
|---|---|---|
| RequestParser.HttpParser.Parse | src/common/http_parser.cpp:34-376 | The byte loop is the machine's `Parse`: same verdict, same count of consumed bytes, same state and request, for every state and every input. |
| RequestParser.HttpParser.OnRequestLine | src/common/http_parser.cpp:40-120 | One byte of method, path, query or version does what the machine's step does, including the caps and the CRLF rule. |
| RequestParser.HttpParser.OnHeader | src/common/http_parser.cpp:121-263 | One header byte: block cap first, then CR, LF or a buffered byte under the line cap. |
| RequestParser.HttpParser.StoreHeader | src/common/http_parser.cpp:193-253 | A complete line is split, trimmed, lower-cased and stored, or refused with the error of the first rule it breaks. |
| RequestParser.HttpParser.SelectBody | src/common/http_parser.cpp:135-191 | The empty line selects chunked, counted or no body, or the exact error; what that makes of whole requests is said by the rows of `PrintedRequests`. |
| RequestParser.HttpParser.OnChunkedBody | src/common/http_parser.cpp:264-356 | One byte of size line, chunk data or trailer, including the body cap and the unsigned wrap of the remaining count. |
| RequestParser.HttpParser.OnBody | src/common/http_parser.cpp:357-369 | One body byte; accepted exactly when the announced count is reached. |
| RequestParser.ReadContentLength | src/common/http_parser.cpp:162-173 | The early-stopping digit loop equals its recursive specification, for every string. |
| RequestParser.ReadChunkSize | src/common/http_parser.cpp:274-291 | The early-stopping hex loop equals its recursive specification, for every string. |
| Pipelining.ParseConcat | src/common/http_parser.cpp:34-376 | Parsing `a` and then `b` is parsing `a + b`: verdict, consumed count and state agree for every state and all bytes. |
| Pipelining.CutsDoNotMatter | src/common/http_parser.cpp:34-389 | For arbitrary bytes, requests delivered, error, final state and bytes used depend on the stream only, never on how it is cut into reads. |
| Pipelining.PipelinedRequests | src/common/http_parser.cpp:34-389 | Any list of complete requests, cut in any way, comes out as exactly that list in order with nothing left over. |
| Pipelining.Connection.OnRead | src/server/http_handler.cpp:440-449 | The append, parse and erase loop over mutable parser, request and buffer refines the draining of the stream; a rejected connection ignores the rest. |
| Pipelining.Serve | tests/test_http_parser.cpp:297-312 | A whole connection fed piece by piece delivers what the concatenation of the pieces holds, and stops with its error. |
| KeepAlive.ResetAloneIff | src/server/http_handler.cpp:556-557 | Resetting the parser without clearing the request gives the same answers as starting afresh on every input if and only if the old request has no header fields, no body and no query. |
| KeepAlive.HandlerBoundaryIsNeverFresh | src/server/http_handler.cpp:457-557 | Since the handler itself writes trace fields into the request before the reset, its boundary is a fresh start for no request at all. |
| KeepAlive.OldFieldsShowThrough | src/server/http_handler.cpp:556-557 | After a request without body framing the next one is read in step on every input, but delivered with the old fields beneath its own and, lacking a query, with the old query. |
| KeepAlive.FramedOnceIsRefusedForever | src/server/http_handler.cpp:556-557 | After an accepted request with Content-Length or Transfer-Encoding, and whatever was read since, every request with either field is rejected for it until the object is cleared. |
| KeepAlive.SecondPostIsRefused | src/server/http_handler.cpp:476-557 | A real pair of inputs: the same POST with a one-byte body twice; the first is accepted, the second rejected. |
| KeepAlive.UnframedTakesTheNext | src/server/http_handler.cpp:556-557 | After a request with a body of n bytes, every request without body framing stays pending at its own blank line and takes the next n bytes, those of the request behind it, for its body, on top of the old one; after a chunked request they are read as chunks. |
| ParserLimits.ScanDecimalExact | src/common/http_parser.cpp:162-178 | The Content-Length reader that stops early is exact up to the body cap, in both directions. |
| ParserLimits.ScanHexExact | src/common/http_parser.cpp:274-291 | The chunk-size reader that stops early is exact up to the body cap, in both directions. |
| ParserLimits.EveryStreamKeepsTheLimits | src/common/http_parser.cpp:34-376 | On every byte stream all buffers stay within one byte of their caps, Content-Length and Transfer-Encoding never coexist, and an accepted body has exactly the announced length. |
| ParserLimits.BodyPhase | src/common/http_parser.cpp:357-369 | With a counted body the parser takes exactly the missing bytes, in order, and accepts as soon as they are there. |
| ParserLimits.ChunkedBodyLength | src/common/http_parser.cpp:264-356 | An accepted chunked body is exactly as long as the sum of the exact values of its size lines, although the size reader stops early. |
| ParserLimits.OversizedChunkIsFatal | src/common/http_parser.cpp:314-326 | A chunk that cannot fit under the body cap is never survived, whatever follows. |
| PrintedRequests.BareRequest | src/common/http_parser.cpp:34-191 | From the very first byte: every request line and all printable fields within the caps, none of them about the body, are accepted at the blank line with exactly that verb, path, query and those fields, and no body. |
| PrintedRequests.CountedRequest | src/common/http_parser.cpp:34-369 | With a Content-Length field in any spelling and place, the request is accepted at the last byte of its body with exactly that body and those fields, whatever follows. |
| PrintedRequests.StreamedRequest | src/common/http_parser.cpp:34-356 | With a Transfer-Encoding field whose value is `chunked` in any case, every printed chunk stream with clean lines within the caps is accepted at its last byte with its payload as the body, and all fields. |
| PrintedRequests.EncodedRequest | src/common/http_parser.cpp:34-356 | For one, what the gateway's own chunk encoder writes for any body up to 1 MiB is read back as that body. |
| PrintedRequests.SecondFraming | src/common/http_parser.cpp:228-249 | A second Content-Length or Transfer-Encoding, behind any fields, is refused at the end of its line with the error of that pair. |
| PrintedRequests.OtherCoding | src/common/http_parser.cpp:139-151 | Any transfer coding but `chunked` is refused at the blank line. |
| PrintedRequests.BadLength | src/common/http_parser.cpp:157-183 | A Content-Length that is empty, no number or above the cap is refused at the blank line. |
| PrintedRequests.IllegalLine | src/common/http_parser.cpp:193-226 | Wherever a header line begins, one without a colon or a name, with a name that is no token, or with a control character in its value is refused at its end. |
| PrintedRequests.TokenCharacters | src/common/http_parser.cpp:8-18 | The characters of a name are the visible ones that are no delimiters (section 3.2.6 of RFC 7230). |
| PrintedRequests.BareLineFeed | src/common/http_parser.cpp:78-134 | Anywhere in request line and header block, a line feed without a carriage return right before it is refused. |
| PrintedRequests.LoneReturnIsDropped | src/common/http_parser.cpp:126-128 | A carriage return in a header line that no line feed follows is dropped from the line. |
| PrintedRequests.NothingHides | src/common/http_parser.cpp:34-376 | In no accepted request does a field name hold a blank, a delimiter, an upper-case letter or a control character, or a value or a part of the request line a control character. |
| ConnectionTokens.CollectTokens | src/server/http_client.cpp:99-118 | The hand-written comma split with its two trimming cursors yields the trimmed, lower-cased, non-empty parts. |
| ConnectionTokens.TrimRange | src/server/http_client.cpp:104-107 | The two cursor loops leave exactly the trimmed part. |
| ConnectionTokens.SplitJoins | src/server/http_client.cpp:99-118 | Splitting at commas is undone by joining with commas, and no part holds one. |
| ConnectionTokens.TokensAreTheParts | src/server/http_client.cpp:90-118 | A name is a token if and only if some non-blank part is that name up to case and blanks. |
| ConnectionTokens.NamedIff | src/server/http_client.cpp:90-118 | A header name is among the dropped ones if and only if it stands in the Connection value, in any case, between commas or ends with nothing but blanks around it. |
| ProxyHop.BuildRequest | src/server/http_client.cpp:722-746 | The request bytes are start line, new Host, the kept fields in the order the map is walked, Content-Length when needed, and the body; which fields those are is said by `ForwardedFields`. |
| ProxyHop.HopRoundTrip | src/server/http_client.cpp:722-746 | The receiving parser accepts at the last byte and returns the same verb, path and body, with the surviving fields plus the new Host and Content-Length, for every map order. |
| ProxyHop.ForwardedFields | src/server/http_client.cpp:84-118 | Name by name, what the backend's parser finds: the gateway's own Host; a Content-Length exactly when there is a body or the client framed one; none of the nine hop-by-hop names; no name listed in the Connection header; every other field with its value, and nothing else. |
| ProxyHop.ProxyHopPreservesRequest | src/server/http_client.cpp:722-746 | Whatever request the gateway's own parser accepted from any bytes, the backend's parser gets it with version 1.1, no query, and the header fields of `ForwardedFields`, name by name; so the hop changes nothing but header fields if and only if there was no query and the version was 1.1. |
| ProxyHop.QueryIsLost | src/server/http_handler.cpp:1128-1136 | For every verb, path and query: the request is accepted with its query and arrives without it. |
| ProxyHop.QueryIsLostHere | src/server/http_handler.cpp:1128-1136 | `GET /a?x HTTP/1.1` is accepted with query `x`, which the backend does not get. |
| HeaderLookup.FindHeaderValue | src/server/http_client.cpp:122-156 | The in-place scan of the raw block equals the recursive lookup, including the wrap of `npos + 2`. |
| HeaderLookup.HeaderValueIsFirstMatch | src/server/http_client.cpp:122-156 | On a block of lines the result is the trimmed, lower-cased value of the first line that carries the name, case-insensitively. |
| HeaderLookup.HitIff | src/server/http_client.cpp:122-156 | A line carries a name if and only if it begins with that name in any case, followed by the first colon of the line. |
| HeaderLookup.HitValue | src/server/http_client.cpp:122-156 | The value a line yields is the text behind the colon, trimmed and lower-cased. |
| HeaderLookup.NoLines | src/server/http_client.cpp:122-130 | Without any line end the lookup reads the status line from its second byte, as the wrap of `npos + 2` has it; without a colon there it finds nothing. |
| ChunkScan.ScanChunkedBody | src/server/http_client.cpp:164-203 | The scanning loop with exact sums equals the recursive scan on every buffer (same verdict, end and payload), and reports exactly when a size line on its way wraps in `size_t`. |
| ChunkLoop.RunLoop | src/server/http_client.cpp:164-203 | The loop as written, with its sums modulo 2^64 and followed for any number of rounds, equals its recursive specification. |
| ChunkLoop.MoveIff | src/server/http_client.cpp:186-201 | For every buffer and position, a round of the loop is the one that is meant if and only if its size line does not wrap. |
| ChunkLoop.ClearLoop | src/server/http_client.cpp:164-203 | If no size line on the way wraps, the loop ends within as many rounds as there are bytes left, with the scan that is meant. |
| ChunkLoop.SameVerdictIff | src/server/http_client.cpp:164-203 | The loop gives the verdict that is meant if and only if no size line on the way wraps, or it ends up waiting for more all the same. |
| ChunkLoop.ForeverIff | src/server/http_client.cpp:164-203 | The loop never ends if and only if it comes back to a place where it has been, which shows within as many rounds as the buffer has places. |
| ChunkLoop.GoesRound | src/server/http_client.cpp:198-201 | Behind any header block and whatever follows, the size line `ffffffffffffffec` leads back to itself, and the loop never ends. |
| ChunkLoop.CompletesOnNothing | src/server/http_client.cpp:198-201 | Behind a line `0` and the blank line, the size line `ffffffffffffffe7` completes the scan at its own start, with whatever has come in as payload; so a verdict of the code may change with more bytes. |
| ChunkLoop.LoopExtends | src/server/http_client.cpp:164-203 | As long as no size line wraps, a verdict of the loop is not changed by more bytes. |
| ChunkScan.ScanExtends | src/server/http_client.cpp:164-203 | A verdict of the scan that is meant is not changed by more bytes. |
| ChunkScan.ScanRetracts | src/server/http_client.cpp:164-203 | A completed scan that is meant does not depend on anything behind its end. |
| Framing.TryFrame | src/server/http_client.cpp:748-800 | The framing decision with exact sums equals its specification (incomplete, error, or end, keep-alive and decoded body), and reports exactly when a chunk-size line it scans wraps; what the specification makes of responses is said by the rows of `PrintedResponses`. |
| FrameLoop.SameFrameIff | src/server/http_client.cpp:748-800 | The framing as written ends with the frame that is meant if and only if no size line wraps, or it ends up waiting for more all the same. |
| FrameLoop.StuckIff | src/server/http_client.cpp:748-800 | Framing never returns if and only if the head announces chunks and the chunk loop comes back to a place where it has been; that takes a wrapping size line. |
| FrameLoop.WrittenVerdictIsFinal | src/server/http_client.cpp:748-800 | Without a wrapping size line a verdict of the framing as written survives more bytes. |
| FrameLoop.ResponseIsClear | src/server/http_client.cpp:748-800 | In a stream that a response leads, no prefix scans a wrapping size line, neither before the response is complete nor behind it. |
| FrameLoop.HangingResponse | src/server/http_client.cpp:198-201 | Every chunked response, under any status and header lines, whose first size line is `ffffffffffffffec` hangs the framing for good. |
| FrameLoop.EmptyCompletion | src/server/http_client.cpp:198-201 | Every chunked response whose header block ends with a line `0` and whose first size line is `ffffffffffffffe7` is complete before its body. |
| Framing.VerdictIsFinal | src/server/http_client.cpp:748-800 | Once the header block is there a verdict of the framing that is meant survives more bytes and a close. |
| Framing.FrameRetracts | src/server/http_client.cpp:748-800 | A complete frame that is meant does not depend on what follows it. |
| Framing.PrefixIsIncomplete | src/server/http_client.cpp:748-800 | No shorter prefix of a response within the caps is taken for a response or refused. |
| Framing.ExtensionIsIgnored | src/server/http_client.cpp:748-800 | Whatever follows a response, it is framed the same way. |
| Framing.CutsDoNotMatter | src/server/http_client.cpp:1014-1040 | However much is buffered already and however the rest is cut into reads, the response is framed exactly, and leftover plus unread input is exactly what follows it. |
| Framing.CutsMatterIff | src/server/http_client.cpp:1014-1040 | A delimited response read at once is framed; it is framed under every cut if and only if header block and response are within the caps, and beyond them byte-wise reads fail. |
| Framing.ClosingIsIncomplete | src/server/http_client.cpp:790-800 | Until then it is incomplete, however much of it is there. |
| Framing.ClosingEnds | src/server/http_client.cpp:790-800 | The close completes a response that is ended by it with all that is behind the head. |
| ChunkCodec.ScanOfPrint | src/server/http_client.cpp:164-203 | The scanner inverts the printing of every chunk stream, whatever surrounds it: same payload, exact end. |
| ChunkCodec.ScanReadsAStream | src/server/http_client.cpp:164-203 | Whatever the scan that is meant completes on is the image of some chunk stream with the reported payload. |
| ChunkCodec.LoopReadsAStream | src/server/http_client.cpp:164-203 | So is whatever the loop as written completes on, as long as no size line on the way wraps. |
| ChunkCodec.ParserOfPrint | src/common/http_parser.cpp:264-356 | The parser's chunk states decode every printed stream with clean lines within the caps and accept exactly at its end. |
| ChunkCodec.ReadersAgree | src/server/http_client.cpp:164-203 | Where the scan that is meant completes, the request parser completes at the same place with the same payload, provided the lines are clean and fit its caps. |
| ChunkCodec.SizeHoweverWritten | src/server/http_client.cpp:170-185 | A size line announces its number in any case, with leading zeros, and with any extension behind a semicolon. |
| ChunkCodec.ScannerUndoesEncoder | src/server/http_handler.cpp:1018-1029 | The scanner undoes the chunk encoder for every body, whatever surrounds it. |
| ChunkCodec.ParserUndoesEncoder | src/server/http_handler.cpp:1018-1029 | The request parser undoes the chunk encoder for every body up to 1 MiB. |
| PrintedResponses.CountedResponse | src/server/http_client.cpp:748-800 | Every response printed as status line, header lines and a body with its exact Content-Length is framed at its last byte with exactly that body; the connection stays exactly if an HTTP/1.1 head does not say `close`, or any other says `keep-alive`. |
| PrintedResponses.ChunkedResponse | src/server/http_client.cpp:748-800 | Every response printed with a chunked body by the gateway's encoder is framed at its last byte with the decoded body, and says the same of the connection. |
| PrintedResponses.UnchunkedResponse | src/server/http_client.cpp:748-800 | What a printed response without chunks comes to, in every case: another transfer coding or a length above the cap is refused; a length is waited for and then decides; without one a response that stays is refused, and one that closes is incomplete until the close and then all that came. |
| PrintedResponses.FrameStays | src/server/http_client.cpp:752-760 | Whatever frame a printed response gets, its keep-alive flag is what status line and Connection value say. |
| PrintedResponses.BareResponse | src/server/http_client.cpp:748-800 | A response without header lines is refused under HTTP/1.1; under any other version all that comes until the close is its body. |
| PrintedResponses.ContainsHere | src/server/http_client.cpp:761-762 | A transfer coding is chunked wherever the word stands in its value. |
| PrintedResponses.ContainsSplits | src/server/http_client.cpp:761-762 | And only there. |
| PrintedResponses.PrintedIsResponse | src/server/http_client.cpp:748-800 | Within the caps a printed response with Content-Length is what the segmentation and pairing theorems speak of. |
| PrintedResponses.ChunkedIsResponse | src/server/http_client.cpp:748-800 | So is one with a chunked body. |
| PrintedResponses.PrintedIsClosing | src/server/http_client.cpp:748-800 | Within the caps a printed response that closes, without chunks or usable length, is one that the exchange takes until the close. |
| ResponseHeaders.ReadHeaders | src/server/http_client.cpp:831-847 | The loop over the raw block that fills the response's header map equals its recursive specification, on every block. |
| ResponseHeaders.HeaderMapIsLines | src/server/http_client.cpp:831-847 | On a block of lines the map is the lines stored one after the other. |
| ResponseHeaders.LastLineWins | src/server/http_client.cpp:831-847 | The value of a name is the trimmed text behind the colon of the last line that carries it. |
| ResponseHeaders.MapWithoutLines | src/server/http_client.cpp:831-847 | Without any header line the loop, too, starts at the second byte of the status line. |
| ConnectionPool.KeyIsInjective | src/server/connection_pool.cpp:12-14 | The key of a policy without a bar in its strings determines host, port and policy against every other upstream, bars or not. |
| ConnectionPool.BarCollides | src/server/connection_pool.cpp:12-14 | Every policy with a bar in a string has another one with the same scheme. |
| ConnectionPool.KeyIsOwnIff | src/server/connection_pool.cpp:12-14 | An upstream shares its queue with no other if and only if no string of its policy holds a bar. |
| ConnectionPool.ExpiredGo | src/server/connection_pool.cpp:23-34 | What checkout drops from the front of a queue has expired, and the first entry it keeps has not. |
| ConnectionPool.Pool.Checkout | src/server/connection_pool.cpp:17-37 | The oldest unexpired connection of the key and nothing else is taken out; expired ones before it go, an empty queue is erased, other keys are untouched. |
| ConnectionPool.Pool.Checkin | src/server/connection_pool.cpp:39-49 | The connection joins the end of its key's queue with a new time stamp, or is dropped when the queue holds 16. |
| ConnectionPool.Pool.Invalidate | src/server/connection_pool.cpp:51-55 | Exactly the key's queue goes. |
| UpstreamExchange.Exchange.constructor | src/server/http_client.cpp:600-615 | A non-positive timeout ends the exchange with 504 before anything is opened; otherwise it starts with a deadline one timeout ahead. Key, host, port, verification policy, timeout, response cap and request bytes are those of the call. |
| UpstreamExchange.Exchange.Fail | src/server/http_client.cpp:854-884 | The request is replayed if and only if a pooled connection failed, the method is idempotent and no replay happened before; otherwise the exchange ends with the given error. A failed pooled connection clears its key's queue. |
| UpstreamExchange.Exchange.TakePooled | src/server/http_client.cpp:683-717 | A pooled connection is taken if and only if its key has an unexpired one and the probe does not find it closed; it is the oldest, with its leftover as the bytes already read. |
| UpstreamExchange.Exchange.StepConnect | src/server/http_client.cpp:631-720 | The oldest live connection of the pool is adopted with its leftover, unless its peer has closed it or this is a second attempt; otherwise a new one is opened: connected at once it goes to the handshake exactly under TLS and else to sending, in progress it waits, and any failure ends the exchange with ConnectFailed. No other holder, the pool or the alignment of any stream is disturbed. |
| UpstreamExchange.Exchange.StepConnecting | src/server/http_client.cpp:939-964 | A connect in progress waits for an event; confirmed, it goes to the handshake exactly under TLS and else to sending; refused, it ends the exchange with ConnectFailed. |
| UpstreamExchange.Exchange.StepHandshake | src/server/http_client.cpp:966-980 | Only a completed handshake leads on to sending, and marks the connection as secured; it waits for what TLS asks for, and a failure ends the exchange with ConnectFailed. |
| UpstreamExchange.Exchange.StepSend | src/server/http_client.cpp:982-1012 | What the socket takes is the next piece of the request, recorded on that connection; the phase ends exactly when all of it is sent. |
| UpstreamExchange.Exchange.StepRead | src/server/http_client.cpp:1014-1062 | A complete frame ends the exchange with its status, header map and body; otherwise bytes read are appended, and an end of stream completes only a response framed by it. It reports exactly when framing the bytes read goes astray on a wrapping chunk size; otherwise the framing as written ends with this very frame. |
| UpstreamExchange.WaitsForWhatIsAsked | src/server/http_client.cpp:966-1062 | A drive that waits, waits for writability while connecting or sending and for readability while reading, and under TLS for what the session asks for. |
| UpstreamExchange.Exchange.Turn | src/server/http_client.cpp:905-932 | The deadline is looked at first: past it the phase's own timeout error with 504 ends or replays the exchange; before it the phase's step is taken, and it passes on whether that went astray. |
| UpstreamExchange.Exchange.Advance | src/server/http_client.cpp:886-1068 | For every clock and every socket behaviour a drive terminates (replay left, answers left, phases left), provided its framing does, that is unless it reports `astray`; if it waits it holds a socket and a deadline after the time of the call; all invariants hold. A backend that keeps moving bytes is never cut off and never leads astray: whatever phase the drive starts in, over a new connection, a pooled one, or a new one after a pooled one turned out closed under an idempotent request, its response is the result, however it is cut into reads, whether it has a length, chunks or ends with the close. |
| UpstreamExchange.Exchange.ReuseToPool | src/server/http_client.cpp:1070-1080 | Exactly a successful, kept-alive, unclosed exchange returns its connection, with the request and response pair on its record and the bytes behind the response as leftover. |
| UpstreamExchange.AnsweredReports | src/server/http_client.cpp:803-850 | An exchange that ended with a response reports the status, header map and body of that response, whatever was read behind it. |
| UpstreamExchange.StatusOfPrinted | src/server/http_client.cpp:803-818 | The status of a printed response is the number between the first two spaces of its status line. |
| UpstreamExchange.HeadersOfPrinted | src/server/http_client.cpp:820-847 | The header map of a printed response is its lines stored one after the other. |
| UpstreamExchange.AlignedReuse | src/server/http_client.cpp:1070-1080 | After a finished exchange, all bytes ever sent on the connection are its requests and all bytes ever received are its responses followed by the leftover. |
| UpstreamExchange.KthPairHoldsKthAnswer | src/server/http_client.cpp:683-720 | On an aligned connection the k-th pair holds the k-th response the backend sent, for every k and any cut into reads. |
| UpstreamExchange.PooledPairs | src/server/http_client.cpp:683-720 | Every pooled connection has carried only requests of its own key, in order, each paired with the backend's answer of the same number. |
| UpstreamExchange.PooledStays | src/server/http_client.cpp:1070-1080 | The last response on a pooled connection, as printed, said that the connection stays. |
| UpstreamExchange.SecuredForItsUpstream | src/server/http_client.cpp:608-609 | A connection filed under the key of an upstream that asks for TLS has carried nothing before its handshake succeeded, and was opened under that very policy if no string of it holds a bar. |
| UpstreamExchange.RunAll | src/server/http_client.cpp:683-1080 | Any number of exchanges sharing the pool, driven, reused and destroyed in any order: every pooled connection stays aligned under its own key, no connection has two holders, and none that is held is pooled. No connection under TLS has carried a byte before its handshake succeeded, no plain one has started a handshake, and no pooled one was told to close. |
| Registry.AtMostOnceSend | src/server/http_handler.cpp:1417-1434 | What the counts kept by every run mean: over all replays and route retries a call whose own method is not idempotent is put on at most one connection; any other on at most two for each of 1 + min(max_retries, 2) exchanges; each connection sees a prefix of the same bytes. |
| Registry.DriveKeeps | src/server/http_handler.cpp:1303-1307 | Whatever sockets an exchange drops, opens or adopts in a drive, and under which numbers, the other registrations stay, and the old one survives only as long as its socket is not closed. |
| EventLoop.MakeExchange | src/server/http_handler.cpp:1128-1150 | A new exchange has the key, verification policy, request bytes, timeout and response cap of its call, and begins unless the timeout is not positive. |
| EventLoop.Loop.Advance | src/server/http_handler.cpp:1297-1317 | A drive of the real exchange: afterwards it is unregistered, every other registration is intact, and if it waits it holds a socket and a deadline ahead, both as the exchange itself has them. If nothing stands between the exchange and a response, it ends with that response. |
| EventLoop.Loop.DriveChild | src/server/http_handler.cpp:1297-1327 | Driving one child changes nothing but that child, which is then finished or armed under its current socket with a deadline ahead, or ends the whole exchange; the circuit breaker hears of it if and only if an exchange of it ended. If nothing stands between the call and a response, the dependency is resolved with it, or the client of a single call answered with it. |
| EventLoop.Loop.FinishChild | src/server/http_handler.cpp:1329-1448 | The circuit breaker is told the outcome, for the call's own key. A composite child is resolved ok exactly for a 2xx answer; a single exchange is answered with the backend's status, 504 for a timeout and 502 for other failures, unless it is retried, which needs retries left, an idempotent method and a transient error. |
| EventLoop.Loop.FinishAnswer | src/server/http_handler.cpp:1384-1448 | The client is answered with what the last exchange came to. Its connection goes to the pool exactly if the response is framed and says that it stays, the peer has not closed it and the queue has room; otherwise it is closed. |
| EventLoop.Loop.RecordOutcome | src/server/http_handler.cpp:1334-1343 | The key's history grows by exactly the outcome, and no other key's changes. |
| EventLoop.Loop.Ask | src/server/http_handler.cpp:1111-1112 | The answer is the one the key's history calls for; the request itself goes on the record. |
| EventLoop.Loop.FinalizeComposite | src/server/http_handler.cpp:1475-1504 | The aggregate is answered once, from the children as they are. |
| EventLoop.Loop.StartSingle | src/server/http_handler.cpp:1085-1158 | For a client with nothing in flight: without a backend the answer is 502, and 503 whenever the breaker does not grant the call, at once. Otherwise one new exchange for that very call is driven; if that ends it, it is answered under its own number and the breaker has heard of it. No other client is touched. For every call with a positive timeout that is granted, whose connection, new or from the pool, takes the request and brings a response within the caps, with a clock read often enough: the client is answered with exactly the status, header map and body of that response. |
| EventLoop.Loop.Restart | src/server/http_handler.cpp:1152-1156 | For every valid loop and every client: entering a new exchange keeps registry and record exact if and only if the client had none in flight. Otherwise the old exchange is never answered, and its descriptors stay in the registry although nothing watches them. |
| EventLoop.Loop.ThreeRequests | src/server/http_handler.cpp:1152-1156 | Local, proxied and proxied requests on one connection: if the second is in flight when the third is started, it ends zero times. |
| EventLoop.Loop.StartComposite | src/server/http_handler.cpp:1160-1289 | One child per dependency, in its place and with its importance: unavailable without a backend, failed behind an open circuit, otherwise its own call, with the smaller of its timeout and the overall budget, driven in turn as long as the exchange lasts; the overall deadline is the start plus the budget, if there is one; no other client is touched. The first dependency that is called is resolved with exactly the response that a new connection brings, under the same conditions as for a single call. |
| EventLoop.Loop.DriveNext | src/server/http_handler.cpp:1272-1289 | Any dependency in its turn: if nothing stands between it and a response, it is resolved with that response. |
| EventLoop.Loop.BuildChild | src/server/http_handler.cpp:1185-1270 | A dependency gets an exchange if and only if the circuit breaker grants the call; the exchange is the one its call asks for, under the smaller of its timeout and the budget, with its deadline that far ahead. |
| EventLoop.Loop.OnUpstreamEvent | src/server/http_handler.cpp:1526-1534 | An event on a registered descriptor drives exactly its child: siblings and other clients stay as they are, unless the exchange ends. On any other descriptor nothing at all happens. If the event is all that stood between the call and a response, even while still connecting, the call comes to that response. |
| EventLoop.Loop.ForceFinish | src/server/http_handler.cpp:1450-1473 | At the overall deadline exactly the children still in flight fail, their sockets are unregistered and closed, finished ones keep their outcome, the aggregate is answered, and the circuit breaker is told nothing. |
| EventLoop.Loop.AbortClient | src/server/http_handler.cpp:1506-1520 | The client's exchange ends as aborted, all its sockets are unregistered and closed, nothing else changes, and the circuit breaker is told nothing. |
| EventLoop.Loop.RunWithProbeOut | src/server/http_handler.cpp:1085-1606 | While a probe is out for a key, over any run, whether its client goes away or its overall deadline passes: as long as the key's history since the grant holds nothing but asks, every further ask is refused. |
| EventLoop.Loop.AbandonProbe | src/server/http_handler.cpp:1506-1520 | For one: a single call granted as a probe, any events, then its client goes away; its key refuses everybody unless an outcome came in. |
| EventLoop.Loop.CheckTimeouts | src/server/http_handler.cpp:1558-1606 | Afterwards no exchange has an overall deadline, and no child in flight an idle deadline, at or before the time of the call; clients with nothing due are exactly as they were. |
| EventLoop.Loop.PollTimeout | src/server/http_handler.cpp:1536-1556 | No wait when a deadline has passed; otherwise the longest, in whole milliseconds up to a second, that passes none. |
| EventLoop.ExpiredIff | src/server/http_handler.cpp:1536-1606 | An exchange is swept exactly when one of the deadlines that bound the poll timeout has passed. |
| EventLoop.Loop.Run | src/server/http_handler.cpp:1085-1606 | After every run of events in which no client makes a request while one of its own is in flight: the registry is a bijection between registered descriptors and children in flight, each under the socket its exchange holds; no pooled socket is registered; every open socket is pooled or registered; every exchange in flight waits on a registered one; every exchange started has been answered once or aborted once or is in flight; a single call is answered with what its last exchange came to, and never while another try was due, an aggregate 503 exactly when a required dependency did not come to a 2xx response; the breaker has heard of every exchange but those cut off; no key's history is rewritten; every call, in flight or ended, keeps the bound of `AtMostOnceSend`; and connections are as `RunAll` says of TLS and of those pooled. |
| EventLoop.RegistryIsExact | src/server/http_handler.cpp:1297-1327 | What the registry invariant means: no two descriptors for one child, every child in flight armed under its current socket, no pooled socket registered, no open socket forgotten. |
| EventLoop.NoneIsStuck | src/server/http_handler.cpp:1297-1327 | Every exchange in flight has a call that waits on a registered socket. |
| EventLoop.EndsOnce | src/server/http_handler.cpp:1329-1520 | The number of ends of an exchange plus its being in flight is exactly one. |
| Delivery.SizeIsExact | src/server/http_handler.cpp:1031-1059 | The recorded response size is what is sent if and only if there is no non-empty file next to a body or under a status other than 200 (or the request is HEAD). |
| Delivery.Sender.Finalize | src/server/http_handler.cpp:1031-1078 | Header and body, coalesced for TLS or not, join the queue; a large file replaces the one on record and a HEAD request drops it. If no earlier file is unsent, the reply is next behind what is unsent; the recorded size counts the file then on record, so without an earlier one it is the reply's own. |
| Delivery.OrderIff | src/server/http_handler.cpp:1031-1078 | Queued behind anything, responses stay in order if and only if no earlier file is unsent, or the reply has no file and reads the same before the file as behind it. |
| Delivery.FirstFileIsLost | src/server/http_handler.cpp:966-968 | Of two large files asked for in one go the first is never sent: headers of both, then the second file. |
| Delivery.Consume | src/server/http_handler.cpp:1746-1756 | Popping and trimming the queue after a gathered write drops exactly the bytes written. |
| Delivery.Sender.HandleWrite | src/server/http_handler.cpp:1719-1883 | Bytes written followed by the rest of queue and file are the same before and after, for any partial writes and would-blocks; it reports the end only when nothing is left, and moves on whenever the socket takes something. |
| Delivery.Sender.SendFileRecords | src/server/http_handler.cpp:1807-1853 | The TLS file buffer always equals the file at the current offset, across retries; nothing is skipped or repeated. |
| Delivery.Sender.Deliver | src/server/http_handler.cpp:1031-1883 | Over any number of write events the wire holds a prefix of the response, and exactly the response, of the recorded size, once it is sent; with a willing socket it is sent. |
| Delivery.Sender.Serve | src/server/http_handler.cpp:1031-1991 | Any number of responses and write events in any order, up to the first response queued while an earlier file is unsent: written and unsent bytes together are all responses, in order. |
| ConnectionBudget.UsageIsLiveTickets | include/server/connection_budget.h:18-78 | After every interleaving usage equals the number of live tickets, is never negative and never above the largest limit there has been. |
| ConnectionBudget.RefusalMeansFull | include/server/connection_budget.h:50-63 | A refusal implies an instant of that very call at which usage was at least the limit it is refused under, spurious failures and limit changes included. |
| ConnectionBudget.GrantTakesOneSlot | include/server/connection_budget.h:50-63 | A grant adds exactly one new owner and stays within the largest limit. |
| ConnectionBudget.DropFreesOneSlot | include/server/connection_budget.h:34-44 | A dropped ticket gives back exactly its own slot, if it has one. |
| ConnectionBudget.MoveHandsOver | include/server/connection_budget.h:25-33 | A moved ticket hands its slot over, and the ticket it replaces gives its own back. |
| ConnectionBudget.RoomIsGranted | include/server/connection_budget.h:50-63 | Where usage is below the limit, a thread that is not disturbed gets a slot. |
| ConnectionBudget.ReloadEvictsNobody | include/server/connection_budget.h:68-71 | A reloaded limit is in force at once and evicts nobody; a thread that asks is refused exactly while usage is not below it. |
| CircuitBreaker.CircuitIsHistory | src/server/upstream_manager.cpp:21-81 | With a fixed threshold T a circuit is open if and only if the failures since the last success or reload reach max(1, T); its probe flag and opening time are what the history says. |
| CircuitBreaker.GrantIff | src/server/upstream_manager.cpp:29-52 | A request is granted if and only if the circuit has not tripped, or its recovery time since the latest failure is over and no probe is out. |
| CircuitBreaker.NoGrantWhileCooling | src/server/upstream_manager.cpp:41-48 | Nothing is granted within the recovery time of the latest failure of a tripped circuit. |
| CircuitBreaker.SingleProbe | src/server/upstream_manager.cpp:50-52 | After a probe is granted every request is refused, however many ask and whenever, until an outcome is recorded. |
| CircuitBreaker.Circuits.AllowRequest | src/server/upstream_manager.cpp:29-52 | The manager's answer for a key is the one its own history calls for; other keys are untouched. |
| RoundRobin.PickCounts | src/server/upstream_manager.cpp:83-105 | Over any n consecutive picks of n backends a healthy one is chosen exactly once plus once for each unhealthy one right before it in cyclic order. |
| RoundRobin.PickIff | src/server/upstream_manager.cpp:95-101 | A healthy backend is chosen from exactly the positions of the unhealthy run before it and its own. |
| RoundRobin.PickIsHealthy | src/server/upstream_manager.cpp:95-101 | An unhealthy backend is never chosen while there is a healthy one. |
| RoundRobin.PickWithoutHealth | src/server/upstream_manager.cpp:95-105 | Without a healthy backend the choice is the counter's position. |
| RoundRobin.Group.PickServer | src/server/upstream_manager.cpp:83-105 | The search loop finds the first healthy backend at or after the counter's position, or that position; an empty group has none. |
| RoundRobin.Group.Round | src/server/upstream_manager.cpp:83-105 | A round of real picks from any counter value counts a healthy backend as `PickCounts` says. |
| RateLimiter.RefillConserves | src/server/rate_limiter.cpp:7-19 | What is earned is stored to the last fraction of a token or spilled, and only a full bucket spills; nothing is lost in the truncation. |
| RateLimiter.Limiter.TryAcquire | src/server/rate_limiter.cpp:7-25 | A request is admitted exactly when the refilled bucket holds a token, which it then spends. |
| RateLimiter.WindowBound | include/server/rate_limiter_manager.h:39-65 | In any window of any run of uses and cleanups fewer than capacity + refill * length + 1 requests of a key are admitted, if capacity <= idle * refill. |
| RateLimiter.BoundFails | include/server/rate_limiter_manager.h:39-65 | For every configuration with capacity > idle * refill some run breaks that bound, so the condition is exact. |
| RateLimiter.Manager.TryAcquire | include/server/rate_limiter_manager.h:55-65 | A use creates the key's bucket with the configuration of that call, or refills it under the one it was created with, as its history says, is admitted exactly when that holds a whole token, and touches no other key. |
| RateLimiter.Manager.CleanUp | include/server/rate_limiter_manager.h:39-51 | Exactly the limiters unused for longer than the idle time go. |

## Left out

- RequestParser.HttpParser.Parse: `tolower` and the character classes are those of the C locale on 8-bit characters.
- Pipelining.Connection.OnRead: routing, authentication, rate limiting and the early error answers of the read handler are not part of the loop; the boundary is reset and clear (see `KeepAlive`).
- ConnectionPool.KeyIsInjective: host names are assumed to hold no `|`.
- UpstreamExchange.Exchange.Advance: an exception that escapes the replay started from the exception handler is not modelled; thrown I/O errors are failed outcomes.
- EventLoop.Loop.FinishChild: metrics, logging, the filtering of response headers and the JSON text of the aggregate are not modelled; a retry walks the header map in the same order as the first try.
- One worker has the connection pool and the circuit breaker to itself, and no configuration is reloaded during a run.
- EventLoop.Loop.StartSingle: assumes that the client has no exchange in flight, which the code does not ensure; `Restart` has the other case, up to the first drive of the new exchange.
- EventLoop.MakeExchange: the header fields of a call are taken as given; adding trace and forwarding fields to them is not modelled.
- EventLoop.Loop.DriveChild: which kind of event a descriptor is registered for is left to the exchange (`WaitsForWhatIsAsked`) and not kept in the registry.
- EventLoop.Loop.StartComposite: that every called dependency gets its answer is stated turn by turn (`DriveNext`) and, from the start, for the first one; the others would need the sockets' answers split among them.
- EventLoop.Loop.Run: a request of a client with an exchange in flight is passed over, under the same assumption, and once `astray` is set the run is the one that is meant, not the one of the code.
- UpstreamExchange.Exchange.StepRead: where a chunk size wraps it goes on with the scan that is meant; that the code may hang, throw, fail or complete there is stated in `ChunkLoop` and `FrameLoop` and not followed into the exchange.
- EventLoop.Loop.PollTimeout: the narrowing of the wait to 32 bits is not modelled; deadlines lie at most an `int` of milliseconds ahead.
- Delivery.Sender.HandleWrite: the file does not change while it is sent, and no queued chunk is empty; parsing the next buffered request at the end of a response is left out, its response is an event of `Serve`.
- Delivery.Sender.Serve: ends where order is lost; what is written after that is not followed.
- CircuitBreaker.CircuitIsHistory: 32-bit overflow of the failure count is not modelled.
- RoundRobin.PickCounts: 64-bit wrap of the counter and health changes within a round are not modelled.
- RateLimiter.WindowBound: the clock is read once per call, doubles are reals, and all uses of a key have one configuration.
- ConnectionBudget.UsageIsLiveTickets: the atomics are sequentially consistent; relaxed reorderings are not modelled.
- The blocking `forward_request`: it differs from `UpstreamExchange` at end of stream and at the size cap; only the event-driven path is modelled.
- Responses framed by a close are delivered like any other (`Advance`), but are outside the pipelining and pairing theorems; they are never pooled.
- `FileCache`, `FdCache`, route matching, API keys, log redaction, metrics, configuration, TLS contexts and the admin server: mostly single-loop facts or plumbing.
