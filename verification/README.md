# Verified model of the fh server

fh is an HTTP/1.1 and HTTP/2 server library written in Go. This Dafny project models the parts of it whose correctness is hard to see from the code, and proves what they promise:

- **HTTP/2 connections**: the stream registry and state machine, receive and send flow control, HEADERS/CONTINUATION fragmentation, the queues between frames and readers, and the process-wide body budget. Every region of code under the connection lock is one step of a state machine (`H2Core`); the theorems hold for every interleaving of steps. `H2Connection` and `H2Send.Sender` are the objects whose methods perform these steps in place and keep what the theorems promise (`H2Promises`).
- **HTTP/1 framing**: the keep-alive loop with its growing, shifting and shrinking buffer (`Http1Server`), the two chunked decoders (`ChunkedBatch`, `ChunkedStream`) with exactly where they differ (`ChunkedDifferences`), the request-head parser (`RequestLine`, `RequestParser`, `RequestHeader`), and whole conversations (`Http1Pipeline`). A connection is a byte string that arrives in pieces of any size (`Wire.Source`).
- **Response writers**: the general writer and the hand-specialised ones that must emit the same bytes (`Responses`).
- **Health-aware endpoint selector**, **idempotency log** with its restarts (`IdempotencyRestarts`), **file queue** with any number of workers (`FileQueue`, `FileQueueCalls`, `FileQueueWorkers`) and **Merkle audit checkpoints**, one at a time (`MerkleAudit`) and overlapping (`MerkleOverlap`).

Each module pairs a specification (functions on values, state machines over runs) with imperative methods and classes proved against it. Time, randomness, the network and crashes are inputs: clocks are integers passed to each operation, reads deliver an arbitrary non-empty piece, writes to a log may fail in each way the code distinguishes, the reading of a job file may fail, and other goroutines are steps that may happen in between.

Where a property fails for the code as it is, the project keeps the code's behaviour, proves an input or a run in which it fails, and proves exactly when it holds:

- an HTTP/2 peer that keeps its windows is accepted: `H2Mixed.HonestPeerIsAcceptedIff`;
- the reader of a streaming HTTP/2 body is told of its end: `H2EndOfFile.EndOfFileIff`;
- the body budget stays in range: `BudgetRange.BudgetInRangeIff`;
- the loop continues at the end of a streamed request body: `StreamHandover.ReadAndFinish`, `StreamHandover.PipelinedRequestIsLost`;
- the two chunked decoders agree on lines, sizes and trailers, and a line does not depend on how it arrives: `ChunkedDifferences.LinesAgreeIff`, `SizeLinesAgreeIff`, `TrailersAgreeIff`, `ChunkedBatch.LineIndependentIff`;
- the specialised response writers emit the general bytes: `Responses.CachedHeadIff`, `JsonCacheIff`, `HeadFitsIff`;
- a restart of the idempotency store finds what memory had: `IdempotencyRestarts.RevivedIff`;
- the file queue loses no job and calls handlers no more often than it should: `FileQueueWorkers.NoJobLostIff`, `CallsBoundedIff`;
- published checkpoints form a valid chain: `MerkleOverlap.ChainValidIff`.

`dafny verify dfyconfig.toml` checks the whole project.

Two places where the code and its comments differ, and the model follows the code:

- request_stream.go:12-14 says that a request body stream never reads beyond the body, so that pipelined bytes remain available. For a chunked body they remain in `prefix`, but `finish` hands back only `leftover`, which is empty then (`StreamHandover.ReadAndFinish`).
- body_budget.go:7-9 says that bytes are released when consumed or when their stream ends. A streaming HTTP/2 byte that arrives before its handler goroutine begins is released at both moments (`BodyBudget.ReleasedTwice`).

## Model

| member | source | states |
|---|---|---|
| H2Lifecycle.StreamLifecycle | http2.go:615-751 | At any two moments of any run: stream ids are odd and never registered again, registered streams and running handlers stay within the limits, phases only move forward, a stream is closed exactly when both ends sent END_STREAM, and no body byte is accepted after the peer's END_STREAM |
| H2Lifecycle.AtMostOneHandler | http2.go:1007-1069 | However dispatch, resets and frames interleave, at most one handler goroutine begins for a stream |
| H2Lifecycle.StepMoves | http2.go:805-962 | Every step touches one stream, which only moves forward; only a new odd id above all earlier ones can appear; the semaphore follows the handlers that hold a slot |
| H2Lifecycle.MovesKeepInv | http2.go:1007-1030 | Any step of that kind keeps the registry within its limit and the semaphore equal to the number of claimed handler slots |
| H2Receive.ReceiveFlowControl | http2.go:840-903 | In every run with a peer that stays within its own windows, neither flow-control check fires; the connection window equals 65535 minus charged plus announced bytes (buffered bodies and tunnels), or minus charged plus consumed bytes (streaming, no tunnels); window plus unannounced credit (buffered bodies) or the window itself (streaming, no tunnels) never exceeds 65535 |
| H2Receive.StepInv | http2.go:840-903 | Every step keeps both accounting equations for the connection and for each stream, with unread bytes never exceeding what was charged |
| H2Receive.TunnelCreditInv | http2_connect.go:70-97 | Credit after a tunnel read keeps the equations in which the window grows when the WINDOW_UPDATE is sent |
| H2Receive.ConsumeInv | request_stream.go:302-327 | Credit after a streaming read keeps the equations in which the window grows when bytes are consumed |
| H2Receive.FlushInv | request_stream.go:287-300 | Announcing the accumulated credit at the end of a body keeps them |
| H2Mixed.HonestPeerIsAcceptedIff | http2.go:840-847 | A peer that keeps its windows is never refused by the connection check if and only if the connection does not combine streaming bodies with tunnels, or admits no stream at all |
| H2Mixed.OneByteTooMany | request_stream.go:276-300 | A run, one stream at a time, that leaves the peer one byte more than the server accepts: a tunnel's handler reads a byte whose credit waits; then the handler of a streaming request, ended by an empty DATA frame, reads the end of file, and the flush announces that byte, which never entered the window |
| H2EndOfFile.EndOfFileIff | request_stream.go:237-285 | In every run, the reader of a streaming request finds the end of file if and only if the peer has ended the request by DATA or trailers, everything was read and the stream was not reset; the reader of a request that its opening HEADERS ended waits until a reset |
| H2EndOfFile.EmptyRequestWaits | http2.go:724-738 | A run in which a request complete with its HEADERS is served and its handler waits for the end of the body |
| H2Send.SendFlowControl | http2.go:1634-1696 | In every run without a connection error: connection window = 65535 + grants - debits in [0, 2^31-1]; stream window = current initial window + grants - debits, negative only after the peer lowered the initial window; the next DATA frame fits both windows, the peer's frame limit and the 24-bit length |
| H2Send.SendDeliversInOrder | http2.go:1634-1696 | Whatever others do between its wake-ups, any number of steps each time, sendData puts the data on the wire in order and complete up to what is left, in non-empty frames, END_STREAM on the last one only; if it stops early with the stream alive it used every wake-up |
| H2Send.SettingsKeepInv | http2.go:541-559 | A SETTINGS frame that is accepted shifts every stream window by the same difference and keeps all accounts |
| H2Send.Sender.HandleSettings | http2.go:524-571 | The loop over settings and streams, in any map order, closes the connection exactly when the specification does and otherwise reaches its state, with every window still accounting for grants and debits |
| H2Send.Sender.HandleWindowUpdate | http2.go:964-1005 | Unless it closes the connection, exactly the addressed window has grown, by the increment, and every window still equals its initial value plus grants minus debits, within 2^31-1; a stream that would overflow is gone |
| H2Send.Sender.CutFrame | http2.go:1650-1680 | The length cut is the least of data, frame limit and both windows, zero when a window is closed, and is debited from both windows |
| H2Send.Sender.SendData | http2.go:1634-1696 | The loop emits the frames of the specification for every interleaving; their payloads and the rest are the data, and the windows stay in order |
| Frames.FrameRoundTrip | http2.go:392-430 | A frame with a 31-bit stream id, written and read back, is the same frame with what follows it exactly when its payload is within the receiver's limit; a longer one that the 24-bit length can express is reported as oversized |
| Frames.WriteHeaderBlock | http2.go:1595-1614 | The write loop terminates and yields the frames of the specification: END_STREAM only on the first, END_HEADERS only on the last, none longer than the peer's limit |
| Frames.CollectHeaderBlock | http2.go:577-605 | The read loop collects what the specification reads, with its limits on list size and number of CONTINUATION frames |
| Frames.HeaderBlockRoundTrip | http2.go:1595-1614 | Reading the frames written for any block and flags rebuilds block and flags exactly when the frames, the block and the number of CONTINUATION frames are within the receiver's limits |
| H2Queues.BodyQueue.Deliver | http2.go:854-867 | A DATA chunk is appended to the stream's unread bytes |
| H2Queues.BodyQueue.Read | request_stream.go:237-285 | The oldest unread bytes in order, across chunks, until the buffer is full or nothing is left; only then the error of a closed stream, or the end of file if END_STREAM was passed on, and otherwise it waits |
| H2Queues.TunnelQueue.Deliver | http2_connect.go:46-51 | A tunnel chunk is appended to the unread bytes |
| H2Queues.TunnelQueue.Read | http2_connect.go:99-115 | A read hands out the oldest unread bytes; end of file is reported only after everything was read |
| H2Promises.StepConsistent | http2.go:805-962 | Every step keeps registry, both flow-control disciplines and reservations in order together |
| H2Promises.Promises | http2.go:840-903 | In every such state: streams and handlers within the limits, the connection window within 65535 (no mix of streaming and tunnels), each buffered body given back not at all or once and in full |
| H2Promises.DataAbsorbed | http2.go:805-962 | A DATA frame concerns one stream, charges each window at most once, trips no check that it fits, adds nothing to a body that has ended, and takes from the budget at most what was granted |
| H2Promises.HeadersOpen | http2.go:607-751 | A HEADERS frame touches one stream; only an odd id above all earlier ones enters the registry, while there is room; no window and no reservation grows |
| H2Promises.ResetForgets | http2.go:1802-1835 | A reset stream leaves the registry and, unless its handler has started, holds nothing of the budget; no other stream is touched |
| H2Promises.TunnelCredited | http2_connect.go:70-97 | After a tunnel read, window plus waiting credit has grown by exactly what was read, for connection and stream |
| H2Promises.BodyConsumed | request_stream.go:302-327 | After a streaming read, the windows have grown by what was read, announced plus waiting credit too, and the reservation has shrunk by it |
| H2Promises.CreditFlushed | request_stream.go:287-300 | After the flush nothing waits, and the stream's announcements equal what was consumed |
| H2Promises.SlotAcquired | http2.go:1016-1021 | A handler slot is taken exactly when fewer than the limit are; otherwise the stream leaves the registry, reset |
| H2Promises.HandlerMayStart | http2.go:1023-1030 | A handler starts exactly when its stream was not reset meanwhile; otherwise its slot is free again |
| H2Promises.HandlerTakesOver | http2.go:1031-1034 | When the goroutine begins, the reservation passes to it and nothing is lost on the way |
| H2Promises.HandlerGivesBack | http2.go:1032-1033 | When it ends its slot is free, and a buffered body has given back everything it took, once |
| H2Connection.Connection.HandleData | http2.go:805-962 | The method, check by check, performs the DATA step; the object stays consistent and the frame is absorbed as above |
| H2Connection.Connection.HandleHeaders | http2.go:607-751 | Trailers, id checks, refusal, registration and a reset in between add up to the HEADERS step; the object stays consistent |
| H2Connection.Connection.AcquireSlot | http2.go:1016-1021 | A slot is taken exactly when one is free; otherwise the stream is out of the registry and reset; the object stays consistent |
| H2Connection.Connection.CloseAllStreams | http2.go:251-283 | The loop abandons every registered stream once, in any order, and no other; the object stays consistent |
| BodyBudget.Counter.Reserve | body_budget.go:10-25 | However often the compare-and-swap loop is overtaken, it acts as one atomic reservation on the value it finds at the end, and a grant never passes the limit |
| BodyBudget.RunKeepsInv | body_budget.go:10-25 | In every interleaving with HTTP/1 connections that give back exactly what they hold, the counter's share of each of them is what its own calls, with the answers they got, hold |
| BodyBudget.BudgetConservation | http2.go:1007-1032 | With buffered bodies, in every interleaving over all connections: the counter is what the calls of the HTTP/1 connections and the HTTP/2 streams hold, stays in [0, limit], each stream gives its reservation back at most once and then in full, and the counter is 0 when everything has ended |
| BudgetRange.BudgetInRangeIff | http2.go:1031-1032 | The counter stays in [0, limit] in every run if and only if bodies are not streamed, or no stream or no byte of a body is admitted |
| BodyBudget.ReleasedTwice | http2.go:1031-1032 | A run with streaming bodies in which one byte is released twice and the counter becomes -1 |
| H2Budget.StepFollows | http2.go:871-877 | With buffered bodies every step keeps each stream's reservation in order and takes from the budget only what it was granted |
| Http1Heads.ServeConnection | app.go:1748-2210 | For every size of buffer and reads and every answer of the body budget, the requests dispatched on a connection are those of its byte stream parsed as a whole, unless a chunk line of 4096 bytes or more is reached; each is dispatched while exactly its body is reserved, every release gives back what is held, and the connection ends holding nothing |
| Http1Server.Server.Serve | app.go:1754-2210 | The same for any head parser that refuses oversized heads and the HTTP/2 preface |
| Http1Server.Server.TakeBody | app.go:1919-2101 | A body of known length is reserved before it is read, a chunked one chunk by chunk; a refusal ends the connection; a body that is taken is reserved in full |
| Http1Pipeline.ConversationIsDispatched | app.go:1748-2210 | Any list of sendable requests (origin form, acceptable headers that announce the body, known length or chunked), printed and sent in pieces of any size, is dispatched as that list: lines, headers in order, bodies and trailers |
| Http1Pipeline.HeadIsFound | app.go:2418-2422 | The head of a printed request ends exactly where its header section does, whatever follows |
| Http1Pipeline.HeadIsUnderstood | app.go:1855-1893 | A printed head parses to its own line and to fields that say what its headers mean |
| Http1Server.Server.ReadHead | app.go:1791-1848 | The head is found at the first empty line of the stream, through growth of the buffer and the preface test; giving up happens only when the stream has no further request; a stream that begins with the preface switches to HTTP/2 |
| Http1Server.Server.ReadFixedBody | app.go:2056-2091 | Reading in place or into a larger buffer keeps every byte and succeeds exactly when the body arrives |
| Http1Server.Server.Shift | app.go:2177-2206 | The in-place, possibly overlapping copy and the return to the original buffer keep exactly the unconsumed bytes |
| Http1Server.Server.Restore | app.go:2193-2198 | The leftover of a chunked body becomes the content of the buffer |
| Http1Server.Server.ReadRequest | app.go:1791-2101 | One round takes exactly the next message off the stream, or ends |
| Http1.MessageLeavesRest | app.go:2193-2206 | What a message leaves is the end of the stream: consumed and remaining bytes together are the bytes received |
| Http1.HeadEndOfPrefix | app.go:2418-2422 | The head is found as soon as it has arrived, whatever follows |
| Http1Heads.LineOutOfHead | app.go:1855 | Parsing the request line out of everything received gives what the head alone gives |
| Http1Heads.ParseAccumulated | app.go:1855-1893 | Parsing the request line out of everything received and then the section up to the end of the head accepts and yields exactly what parsing the head alone does |
| Http1Heads.HeadsAreSane | app.go:1793-1797 | A head beyond the configured sizes is refused even if a large buffer lets it arrive, and so is the preface |
| Chunked.ParseHex | chunked.go:138-161 | Accepts exactly the non-empty hexadecimal numerals that fit a 64-bit integer, with their value |
| Chunked.SizesAgreeIff | request_stream.go:112-115 | The two decoders read a trimmed size alike unless it carries a sign that the incremental one accepts |
| Chunked.LineReads | request_stream.go:159-175 | Both decoders read a line shorter than 4096 bytes without LF alike |
| ChunkedGrammar.DecodersAgree | chunked.go:24-136 | Each decoder gives every message of the chunked grammar (any numerals, padding, extensions, trailers) its concatenated chunks, its trailers and exactly what follows, or refuses it when it exceeds the limit; so the two agree |
| ChunkedGrammar.BodyWithinLimit | chunked.go:98-100 | No input makes a decoder deliver more than the limit |
| ChunkedGrammar.DecodeLeavesSuffix | chunked.go:134 | What a decoder leaves is the end of its input |
| ChunkedDifferences.SignedSizeSplitsDecoders | request_stream.go:112-115 | An input with a signed size that one decoder accepts and the other refuses |
| ChunkedDifferences.LinesAgreeIff | request_stream.go:159-175 | For every input, the decoders read the next line alike exactly when its first LF is within the limit and ends a CR LF, or there is no LF, or it is beyond the limit and no CR LF comes at all |
| ChunkedDifferences.SizeLinesAgreeIff | request_stream.go:108-115 | For every line, they read the size alike exactly when its text, trimmed as the batch decoder does, has no white space at its ends and is not a numeral after a plus or zeros after a minus, or has some and, without it, is no numeral at all, signed or not |
| ChunkedDifferences.TrailersAgreeIff | request_stream.go:192-216 | For every line, they read a trailer alike exactly when its name is not a token, is a framing name or comes after the last trailer allowed, or what follows the colon, trimmed as the batch decoder does, has no white space at its ends and no control byte |
| ChunkedDifferences.TrailerReadsIff | chunked.go:115-133 | Of the trailer lines with a proper name, the grammar admits exactly those that both decoders read as written |
| ChunkedDifferences.WideSpaceSplitsDecoders | request_stream.go:208 | A no-break space at the end of a trailer value stays for one decoder and is trimmed by the other |
| ChunkedDifferences.ControlSplitsDecoders | request_stream.go:209-213 | A control byte in a trailer value is accepted by one decoder and refused by the other |
| ChunkedDifferences.BareLFSplitsDecoders | request_stream.go:166-171 | A bare LF in a chunk extension is accepted by one decoder and refused by the other |
| Text.TrimsAgreeIff | request_stream.go:208 | Stripping blanks and trailing carriage returns and stripping all Unicode white space differ exactly on values that keep white space at an end after the former |
| ChunkedBatch.Decoder.ReadLine | chunked.go:54-72 | For every cut of the stream into reads, the line, or the failure, is that of the stream, unless the line has 4096 bytes or more |
| ChunkedBatch.Decoder.ReadTrailers | chunked.go:115-133 | The trailer loop collects what the specification reads |
| ChunkedBatch.Decoder.ReadBody | chunked.go:24-136 | For every cut of the stream into reads and every initial buffer the result is that of decoding the whole stream; leftover and unread bytes are exactly what follows; the calls to the budget hold the body's length, or on failure what is reported as reserved |
| ChunkedBatch.LineIndependentIff | chunked.go:54-72 | Reading a line is independent of how the stream arrives exactly when its line does not end at or beyond 4096 bytes |
| ChunkedStream.RequestBodyStream.ReadLine | request_stream.go:159-175 | The byte-wise line reader returns the line of the stream or the error the specification gives |
| ChunkedStream.RequestBodyStream.Read | request_stream.go:39-53 | Every call, with any buffer, hands out the next bytes of the body and leaves the eventual outcome as it was |
| ChunkedStream.ReadAll | request_stream.go:39-127 | Through buffers of any sizes the pieces add up to the decoded body, with its trailers and exactly what follows the message, or to its error |
| ChunkedStream.RequestBodyStream.Finish | request_stream.go:224-226 | What finish returns, with the unread input, is what follows the message, unless the body is chunked and more than the unread input follows it; then it is only its last part |
| StreamHandover.ReadAndFinish | app.go:2130-2139 | For every input and all buffer sizes: after the body is read the loop continues at the end of the message if and only if the body has a known length or nothing beyond its end had arrived with the head; otherwise everything that had is dropped |
| StreamHandover.PipelinedRequestIsLost | app.go:2130-2139 | A request that arrives together with the end of a chunked body is lost |
| RequestLine.OriginLineRoundTrip | header.go:343-476 | A request line in origin form within the limit parses to its own method, target and version, and to the path and query of the target, whatever follows it |
| RequestLine.PathAndQueryMakeTarget | header.go:453-473 | Path and query are the target cut at its first question mark |
| RequestLine.ParsedLineReprints | header.go:343-476 | Every accepted request line is the printed form of what was understood |
| RequestLine.LineIsLocal | header.go:343-361 | What follows the first line has no influence on its parsing |
| RequestHeader.Parser.ParseRequestLine | header.go:343-476 | The method, with its scans over the target, does what the specification says, errors included |
| RequestHeader.ScanTarget | header.go:436-444 | The scan accepts exactly the targets without blanks, controls and fragments, and finds the first question mark |
| RequestHeader.SplitAbsolute | header.go:403-431 | The loops split an absolute-form target into authority and route as specified |
| RequestParser.SectionSound | header.go:499-615 | Every accepted header section, whatever the input: at most one Host, all Content-Length values one number, at most one Transfer-Encoding, never both chunked and Content-Length, exactly one Host for HTTP/1.1; and every field says what the headers mean |
| RequestParser.SectionRoundTrip | header.go:499-615 | Parsing a printed section succeeds exactly when its headers are acceptable, and then returns them in order and consumes exactly the section |
| RequestHeader.Parser.ParseHeaders | header.go:499-615 | The loop over lines with its position variable computes what the specification says |
| RequestHeader.Parser.Note | header.go:552-596 | The switch over known headers has the specified effect, or refuses exactly when specified |
| KnownHeaders.KnownHeader | header.go:677-715 | The switch on length with the case bit set recognises exactly the known names, compared without regard to ASCII case |
| KnownHeaders.LowerNIsFold | header.go:749-756 | Setting the case bit is ASCII case folding on every string without control bytes |
| HeaderValues.HasHeaderToken | header.go:935-953 | The loop finds a token exactly when some part of the comma-separated list equals it after trimming |
| HeaderValues.ApplyConnection | header.go:717-739 | The short cuts for "close" and "keep-alive" decide exactly what the token scan decides |
| HeaderValues.ParseTransferCoding | header.go:1019-1049 | Refuses exactly the lists with an invalid part, and reports chunked exactly for the single coding "chunked" |
| Decimal.ParseContentLength | header.go:978-995 | Accepts exactly the non-empty decimal numerals that fit a 64-bit integer, with their value |
| Decimal.AppendInt | pool.go:103-120 | Filling a scratch array from its end writes the shortest numeral; of the least integer only the sign is written |
| Decimal.LengthReadsBack | pool.go:103-120 | Parsing what was written gives the number, for every length |
| Responses.WriteResponse | ctx.go:2052-2180 | The appends and loops emit the bytes of the specification: head, then content or chunked content with trailers |
| Responses.WriteDirectBytes | ctx.go:2226-2260 | Emits byte for byte what the general writer emits for a plain 200 response |
| Responses.WriteDirectString | ctx.go:2186-2224 | Likewise, except that the cached head is used; then exactly when no Server header is configured |
| Responses.CachedHeadIff | pool.go:17-34 | A cached head equals the general one exactly when no Server header is configured |
| Responses.JsonCacheIff | ctx.go:1999-2008 | The cached JSON head equals the general one exactly when the type is application/json and no Server header is configured |
| Responses.WriteDirectJson | ctx.go:1997-2049 | Otherwise the general writer's bytes, assembled in front of the body without touching it; when the head does not fit the reserve the slice expression fails |
| Responses.Backfill | ctx.go:2043-2048 | Assembling the head at the front and moving it up, overlapping itself, leaves head and body contiguous and the body as it was |
| Responses.JsonHeadFitsIff | ctx.go:1966 | With date and keep-alive headers the JSON head fits the 192 reserved bytes for every body, whether the connection is kept or closed, exactly when the Server header has at most 33 bytes |
| Responses.HeadFitsIff | ctx.go:2013-2044 | For every configuration and type: the head fits for every body and connection setting exactly when its longest form does |
| Hex.AppendHex | stream.go:390-403 | Filling a scratch array from its end writes the shortest hexadecimal numeral |
| Hex.HexReadsBack | stream.go:390-403 | Either way to read a chunk size gives back the number written, in at most 16 digits |
| Responses.InitTables | pool.go:17-34 | The tables hold the lines and heads that the general code would write |
| Responses.AppendLength | pool.go:122-129 | The table and the general path write the same line |
| ResponseTrailers.TrailersReadBack | ctx.go:2157-2173 | The chunked content written for any body and any trailers without white space at the ends of their values decodes, by either request decoder, to that body and those trailers |
| JsonEscape.QuotedReadsBack | ctx.go:1902-1931 | The quoted text of any byte string is one JSON string (section 7 of RFC 8259) whose value is the input, whatever follows |
| JsonEscape.AppendJsonStringContent | ctx.go:1846-1900 | The flush-and-escape loop appends exactly the interior of that text |
| JsonEscape.AppendJsonString | ctx.go:1902-1931 | The quoted variant appends the whole text |
| Selector.ProbeSafety | httpclient_health.go:105-173 | In every run: an endpoint is probing exactly when one selection in flight carries its current generation with the probe mark; an ejected endpoint has no other live selection; it is ejected exactly when its failures have reached the threshold |
| Selector.StaleReportsChangeNoEndpoint | httpclient_health.go:131-173 | At any two moments of any run: generations do not decrease, and a ticket that was reported or whose endpoint was ejected or recovered by the first moment is still dead at the second, where its report changes no endpoint |
| Selector.OnlyProbesRecover | httpclient_health.go:131-173 | At any two moments of any run: an endpoint ejected at the first and not at the second was brought back in between by a success report of its own live probe |
| Selector.NextFailsIff | httpclient_health.go:105-129 | Next fails exactly when every endpoint is probing or ejected into the future |
| Selector.StayingEligibleMeansChosen | httpclient_health.go:109-128 | An endpoint that stays eligible is chosen within as many calls as there are endpoints |
| Selector.PickIsFirst | httpclient_health.go:109-128 | The endpoint chosen is the first eligible one in cyclic order |
| Selector.HealthAwareSelector.Next | httpclient_health.go:105-129 | The loop over the slots performs the specified step |
| Selector.HealthAwareSelector.Report | httpclient_health.go:131-173 | The method performs the specified step |
| MerkleTree.Fold | merkle_audit.go:225-247 | The bottom-up loop that promotes an odd last node computes the tree split at the largest power of two below the number of leaves (the shape of section 2.1 of RFC 6962) and terminates |
| MerkleTree.LevelKeepsTree | merkle_audit.go:229-245 | One level of pairing leaves the root of that tree unchanged |
| MerkleTree.RootBindsLeaves | merkle_audit.go:225-247 | With a joining function injective on the nodes involved, equal roots over equally many leaves have equal leaves |
| MerkleAudit.BuildMerkleRoot | merkle_audit.go:225-247 | The root of the event hashes, and of the empty list |
| MerkleAudit.VerifyCheckpoint | merkle_audit.go:172-178 | Accepts exactly the hashes whose root is the recorded one |
| MerkleAudit.VerifyChain | merkle_audit.go:182-196 | Accepts exactly the chains in which each checkpoint follows the one before |
| MerkleAudit.CheckpointsBindHistory | merkle_audit.go:172-196 | Two histories that both match one list of checkpoints, counts included, are equal, unless the hash collides on the values hashed for them |
| MerkleAudit.RootAloneDoesNotBindCount | merkle_audit.go:172-178 | A root alone is also that of a shorter list, because VerifyCheckpoint does not compare the recorded count |
| MerkleAudit.MerkleAuditSink.WriteAudit | merkle_audit.go:103-126 | Buckets and the current one always concatenate to the events recorded, and the chain stays valid |
| MerkleAudit.MerkleAuditSink.CreateCheckpoint | merkle_audit.go:129-169 | The new checkpoint follows the last one and verifies against its bucket |
| MerkleOverlap.ChainValidIff | merkle_audit.go:129-169 | In every run of writers, flush loop and Close, with taking the bucket, storing the root and publishing as separate steps, once all calls are done: every event is in one bucket, in order; and the published checkpoints pass VerifyChain if and only if each root was stored before the next bucket was taken and checkpoints came out in the order of their buckets (the only-if part when no two neighbouring roots coincide) |
| MerkleOverlap.OverlapBreaksChain | merkle_audit.go:135-160 | A run of two overlapping calls whose checkpoints fail VerifyChain, whatever the hash |
| Idempotency.RecordsAreLogged | reliability.go:727-744 | Until a restart, every record in memory is the last log line of its key, as long as no write has failed |
| Idempotency.ReloadKeepsRecords | reliability.go:574-601 | After any run with a clock that does not go back, restarts included: a restart finds every unexpired record of memory unchanged, if the log can be read |
| Idempotency.LoadSucceedsIff | reliability.go:574-601 | The log can be read exactly when every line is a record with a key, shorter than the scanner's limit |
| Idempotency.LoadFindsLive | reliability.go:574-601 | A restart finds for each key its last unexpired line, and nothing else |
| Idempotency.AbortedIsRevived | reliability.go:594-597 | A run after which a restart brings an aborted request back |
| IdempotencyRestarts.RevivedIff | reliability.go:574-601 | In every run with a clock that does not go back: a restart brings back a key that memory does not have if and only if an abort, or a Begin whose write failed, took it away and its last line not written by an abort has not expired; and it brings back that line's record |
| IdempotencyRestarts.PurgedStaysGone | reliability.go:692-712 | In every such run a purged record is never brought back |
| Idempotency.SecondNewNeedsRelease | reliability.go:602-640 | After New for a key, through completions, failed writes and restarts, no later request with the key is New unless in between it expired, timed out, was aborted or was purged |
| Idempotency.IdempotencyStore.BeginRequest | reliability.go:602-640 | A request is New only once its record is the last line of the log; a completed answer is replayed only to the same request; otherwise nothing changes; and what memory holds stays recoverable from the log |
| Idempotency.IdempotencyStore.CompleteRequest | reliability.go:641-667 | The answer is in memory only once it is the last line of its key in the log; a failed write leaves memory as it was; memory stays recoverable |
| Idempotency.IdempotencyStore.AbortRequest | reliability.go:668-691 | Only a request in progress with the same hash is forgotten, and no other record; memory stays recoverable |
| Idempotency.IdempotencyStore.PurgeExpired | reliability.go:692-712 | Exactly the expired records go, and are counted; memory stays recoverable |
| Idempotency.IdempotencyStore.LoadLog | reliability.go:574-601 | The line loop computes the specified load |
| FileQueue.JobsSurvive | reliability.go:1102-1229 | In every run in which no worker claims a job that another has and none removes a readable file, with crashes and recoveries anywhere: an accepted job that was neither discarded as too big nor purged is in one of the four directories, and at most one worker has it |
| FileQueue.OnlyRemovalsLose | reliability.go:1102-1229 | In every run in which no worker claims a job that another has, whatever reads fail: a job is lost only if a readable file of it was removed as unreadable, and at most one worker has it |
| FileQueue.OverlappingClaimLoses | reliability.go:1169-1191 | In every state, claiming a job that another worker has put back and not yet cleared away loses it |
| FileQueue.OverlappingRemovalLoses | reliability.go:1119-1129 | In every state, removing as unreadable the only, readable, file of a job loses it |
| FileQueueWorkers.NoJobLostIff | reliability.go:954-957 | No run of a queue with n workers, crashes and recoveries included, loses a job if and only if n is zero, or n is one and reads of files that are there do not fail |
| FileQueueWorkers.CallsBoundedIff | reliability.go:954-957 | In every run with n workers, whether or not reads may fail, a job's handler is called at most as often as it had attempts left, and once more for each crash, if and only if n is at most one |
| FileQueueCalls.CallsAreBounded | reliability.go:1003-1039 | In every run without claims that overlap or are stale, whatever reads fail, a job's handler is called at most as often as it had attempts left (at least one call is allowed), and once more for each crash |
| FileQueueWorkers.OverlappingClaimLosesJob | reliability.go:1169-1191 | A run of two workers in which a claim between the two steps of a retry leaves the job in no directory |
| FileQueueWorkers.OverlappingRemovalLosesJob | reliability.go:1119-1129 | A run of two workers in which a claim removes, as unreadable, a file that a retry has just put back |
| FileQueueWorkers.FailedReadLosesJob | reliability.go:1310-1332 | A run of one worker in which the reading of a file fails and the claim removes it: the job is in no directory |
| FileQueueWorkers.StaleClaimExceedsBound | reliability.go:1109-1155 | A run of two workers without loss or overlap in which a job with two attempts is handed to its handler three times, because a claim uses the copy it read before a retry |
| FileQueueStorage.Storage.Promises | reliability.go:1093-1229 | When operations do not overlap, any number of workers may take turns: a job is lost only if the reading of its file failed, at most one worker has it, and its handler is called within the bound |
| FileQueueStorage.Storage.ClaimJob | reliability.go:1102-1156 | Removes the files that cannot be read, and takes a visible job with no other visible one before it in priority and time, or reports that there is none; performs steps of a claim of its worker only, keeps the storage's promises, and drops no job but those whose reading fails |
| FileQueueStorage.Storage.CompleteJob | reliability.go:1157-1168 | Two steps of its worker take the job from processing to done; the storage's promises are kept |
| FileQueueStorage.Storage.RetryJob | reliability.go:1169-1205 | Two steps of its worker put the job back with one more attempt and its new visible time, or into failed exactly when the attempts are used up; the storage's promises are kept |
| FileQueueStorage.Storage.RecoverJobs | reliability.go:1206-1229 | The loop, before any worker is hired, moves every processing file back to pending by recovery steps; the storage's promises are kept |

## Left out

- Sockets, TLS, deadlines, timers, goroutine scheduling and buffer pools: a connection is a byte string delivered in pieces, time is an integer passed in.
- A read that returns bytes together with an error is not modelled; reads return bytes or the end of the stream.
- HPACK, server push, priority, PING and GOAWAY handling, and the flood counters of http2.go: they do not touch the state that the theorems are about.
- The h2c upgrade (stream 1) and the hijacked connection after an upgrade: `policy` in `Http1Heads.ParseHead` may end the connection there.
- H2Core: a reader may go on after its handler has ended and after a reset, so the theorems cover more runs than the code has; streams are values in a map, not shared objects; the content-length check and the marking for dispatch at the end of handleData belong to the step that stores the frame; 32- and 64-bit wrap-around of window counters is not modelled, because the proved bounds keep them small.
- H2Receive.ReceiveFlowControl: says nothing about connections that combine streaming bodies and tunnels, because the equations fail there (`H2Mixed.HonestPeerIsAcceptedIff`).
- H2Receive.ReceiveFlowControl: padding of frames for tunnels and streaming bodies is charged and never credited back; the theorem is about safety and does not promise that the window recovers.
- Http1Heads.ServeConnection: the checks on hosts, expectations and the head handler are one arbitrary function of the head; error status codes are not distinguished.
- Http1Server.Server.ReadHead: when the HTTP/2 preface follows a pipelined request, whether the connection switches to HTTP/2 depends on how the stream arrives; no request is dispatched by HTTP/1 either way, and the switch is promised only for a new connection.
- HTTP/1 with StreamRequestBody: the keep-alive loop is modelled with buffered bodies; the stream itself is `ChunkedStream`.
- ChunkedGrammar.DecodersAgree: messages whose lines the decoders read differently (`ChunkedDifferences`) and lines of 4096 bytes or more.
- Http1Pipeline.ConversationIsDispatched: request targets in origin form; a budget that grants what is asked.
- Chunked.Chunks: sizes are unbounded integers up to the 64-bit limit; the sum of size and two in the batch decoder does not wrap around in the model.
- RequestHeader.Parser.Note: the authority of an absolute-form target and the Host header are compared with ASCII folding, the code with Unicode folding.
- Byte helpers such as validToken, trimOWS, validHostField and bytesEqualFold are functions, not loops.
- JsonEscape.QuotedReadsBack: the reference reader treats surrogate escapes as malformed; the writer never emits them.
- Responses: automatic ETags, body transforms, streaming of large files.
- MerkleAudit.MerkleAuditSink.CreateCheckpoint: one call at a time; calls that overlap are in `MerkleOverlap`.
- MerkleAudit: hashing is an arbitrary function, assumed free of collisions only on the values compared.
- Idempotency: the fields of a response are one opaque payload; cleaning of replay headers is not modelled.
- FileQueue: job ids are distinct; an id chosen by the caller and used twice replaces the earlier file.
- FileQueue: the event log, concurrency keys (a busy key is a retry), requeueing of failed jobs by an operator, and several processes on one directory.
- The router, middleware, binding, configuration, caching, static files, the HTTP client transport and the circuit breaker: they would only add easy members.
