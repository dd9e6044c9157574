# CAN Telemetry Monitor: a verified model of the backend

The backend receives CAN frames, keeps the latest ones in a bounded store, and serves them over HTTP: by polling
queries, and as an event stream that a reactor thread pumps into per-connection send buffers. This project models
that path and proves what it promises. `dafny verify dfyconfig.toml` checks the whole project.

How the model is organised:

- **Codecs.** `Text` and `Numbers` hold the string searches and number readers the parsers are written with
  (`find`, `getline`, `trim`, `stoul`, `stoull` with base 0). `FrameCodec` holds the frame printer and the POST body
  parser as loops, `CodecRoundTrip` proves that one inverts the other, `SendBodies` says exactly which typed bodies are
  accepted, and `CanBus` holds the kernel frames, the sender and the decoder. `EventStream` is a reader of section 9.2.6 of the WHATWG HTML standard, byte by byte.
- **Delivery.** `FrameStores` is the bounded store, `Paging` a client that pages through it. `SsePipeline` is a machine
  whose steps are the critical sections of the receive thread, the pump, other appends and the writer.
  `SseAccounting` and `LossBound` prove what happens to every sequence number over all its runs, and `StreamRequests`
  ties it to the number in the request and to what the client reads.
- **Requests.** `HttpParsing` is the one-shot parser, `Reassembly` the carving loop over read batches,
  `ContentLengths` the comparison of the two Content-Length readers, and `Pipelining`, `HttpRoundTrip` and `Refusals`
  what all this means for requests as clients write them. `Routing` says which requests send a frame or start a stream.
  `Connections` is the connection object; each of its methods is tied to the reassembly and the pipeline machine.
- **Reactor.** `Timers` (heap with lazy deletion), `EventLoops` (the connection table under all interleavings of the
  loop thread, the workers and descriptor reuse), `LoopActivity` (a watch beside it that records only what epoll and the
  clock say), `ConnectionTables` (the loop object's own methods) and `ThreadPools` (the condition-variable protocol).
- **Statistics and receiver.** `Statistics` is the incremental sliding window, `Receiver` the receive loop and its
  lifecycle.

A run is a list of actions, and an action that is not enabled does nothing, so a statement about `Exec(start, acts)`
for all `acts` is a statement about every reachable state. Fields and variables marked `ghost` are history. Automatic
induction is switched off on every lemma, so each proof rests on the induction it writes out.

What the proofs found, where the code does not do what one might expect:

- Cutting a byte stream into read batches is invisible up to the first malformed request, and only so far: bytes
  behind a malformed request are dropped when they arrive in the same batch and carved when they arrive later.
  `ChunkingIsExact` says exactly which streams are read alike under every split, `FollowerIsLost` shows the loss.
- After a 400 the request object is not reset. `StaleLengthDecides` says exactly when a request that a new object accepts
  is still accepted: it stores a length of its own, or none was left behind, or the one left behind fits. For a request
  without a body only 0 and the numbers that wrap fit. A refused follower leaves the number in place, so one bad request
  refuses every later one without a stored length (`OneBadRequestRefusesTheRest`; `GoodRequestRefused` is the two-request
  stream), and an accepted one carries the refused request's other headers.
- The body handed to a handler is the carved one if and only if no line stores a Content-Length or the last one stored is
  not below the first one named (`BodyIsTheCarvedBytes`). With the lengths 2 and 1 the body `ab` is dispatched as `a`
  (`BodyIsCut`); `TwoLengthsDisagree` has the outcome for every pair.
- The removal on an error event names no connection. `ErrorRemovalIsExact` says exactly when it hits the one the event
  was raised for; `ErrorClosesNewcomer` constructs a run in which it closes another one.
- The pump moves its cursor before it appends, so the frame that meets a full buffer is passed and never sent
  (`DroppedAtCursor` inside `SseConservation`).

## Model

| member | source | states |
|---|---|---|
| `Numbers.Digits` | src/Connection.cpp:156-161 | a printed number is never empty, has only digits of its base in upper case, and a leading zero only for 0 |
| `Numbers.ParsePrintedDecimal` | src/Connection.cpp:131-151 | every 64-bit number printed in decimal is read back by the base-0 reader, which must not take it for octal |
| `Numbers.ParsePrintedHex` | src/Connection.cpp:131-151 | every 64-bit number printed as `0x` and upper-case hex is read back |
| `Numbers.DigitsAreStandard` | src/Connection.cpp:159-160 | digits are printed in upper case and read in both cases |
| `Numbers.NumberTextParses` | src/Connection.cpp:131-151 | every 64-bit number is read from its decimal text, from its octal text behind 0, and from its hexadecimal digits behind `0x` or `0X` in any mix of cases and behind any zeros |
| `Numbers.SignedParses` | src/Connection.cpp:138-145 | white space in front is skipped, a plus sign changes nothing, a minus sign negates modulo 2^64 |
| `Numbers.NumbersRefused` | src/Connection.cpp:140-150 | a number of 64 bits or more, any text behind a number, and the empty text are refused |
| `Numbers.StoulReadsFront` | src/Connection.cpp:75 | a length is read in decimal from the front of its text, whatever follows |
| `Numbers.StoulOfTrimmed` | src/Connection.cpp:24-34 | trimming a header value never changes the number `stoul` reads from it |
| `FrameCodec.FrameToJson` | src/Connection.cpp:153-178 | the stream insertions build the flat object text with the seven members in order; `PrintedMembersRead` says what each of them shows |
| `FrameCodec.PrintData` | src/Connection.cpp:165-176 | the loop prints the payload bytes, first `dlc` only, comma separated in brackets |
| `FrameCodec.SkipWhile` | src/Connection.cpp:267-279 | an index loop stops at the end of the longest prefix that satisfies its test |
| `FrameCodec.ReadValueLoop` | src/Connection.cpp:251-289 | key search, colon, white space, scan to `,` or `}`, trim, unquote; an empty value counts as missing |
| `FrameCodec.ReadBytesLoop` | src/Connection.cpp:340-370 | the array loop reads exactly the byte list the recursive reader defines, and refuses a bad item, a value over 255 or a ninth byte |
| `FrameCodec.ReadDataLoop` | src/Connection.cpp:322-370 | the same behind the first bracket pair after the key |
| `FrameCodec.ParseSendBody` | src/Connection.cpp:245-373 | the parser with its early returns computes `ReadSendBody`, at most eight bytes |
| `CodecRoundTrip.LocateMember` | src/Connection.cpp:254-259 | in an object text the plain substring search for a quoted key lands on the first member with that key, past any number of other members and quoted values |
| `CodecRoundTrip.ReadMember` | src/Connection.cpp:251-289 | reading that key then returns exactly the member's text |
| `CodecRoundTrip.ReadPrintedBytes` | src/Connection.cpp:340-370 | the array reader inverts the array printer, appending to what it already holds |
| `CodecRoundTrip.ReadObject` | src/Connection.cpp:245-373 | any flat object with an id, the flag and the byte array, in any order among other members, is read as exactly those three |
| `CodecRoundTrip.PrintedFrameParses` | src/Connection.cpp:153-178 | every valid frame, printed, is a body the parser accepts with the same id, flag and payload |
| `CodecRoundTrip.PrintedMembersRead` | src/Connection.cpp:153-178 | every member of a printed frame reads back under its own key: sequence, timestamp, id in both notations and length as numbers, the flag as its word, the payload as its bytes |
| `CodecRoundTrip.ClientBodyParses` | src/Connection.cpp:245-373 | the same for the client's form, a quoted id in any base and any case of its digits |
| `SendBodies.TrimPads` | src/Connection.cpp:24-34 | trim takes blanks, tabs, CR and LF off both ends and nothing else |
| `SendBodies.PaddedValueReads` | src/Connection.cpp:261-288 | white space around a value and before its colon does not change what is read |
| `SendBodies.ReadTyped` | src/Connection.cpp:340-370 | an array of numbers in any base, with any white space, is accepted if and only if there are at most eight and each is at most 255, and is then read as these bytes |
| `SendBodies.BodyIsReadIff` | src/Connection.cpp:291-373 | a typed body is accepted if and only if its id has at most 29 bits, its flag is missing, true or false, and its array is acceptable; a missing flag means a standard frame |
| `SendBodies.NothingWithoutKey` | src/Connection.cpp:291-326 | a body without an id, or without an array, is refused |
| `CanBus.CanSender.SendRaw` | src/CanSender.cpp:89-165 | sent if and only if open, short enough, data present and the write whole; the frame written is the encoded one, otherwise nothing is written and the error is the first that applies |
| `CanBus.CanSender.SendFrame` | src/CanRuntime.cpp:89-131 | accepted if and only if the id is in range for its format and the payload fits, on an open socket; errors in source order |
| `CanBus.DecodeFrame` | src/CanReceiver.cpp:83-111 | the field assignments of the receive loop compute the decoder, with its two discard rules |
| `CanBus.Decode` | src/CanReceiver.cpp:83-111 | whatever the kernel delivers, a frame that is kept has an id in range for its format and at most eight bytes |
| `CanBus.DecodeEncode` | src/CanSender.cpp:116-134 | everything `sendFrame` accepts is decoded with the same id, format, length and payload |
| `CanBus.EncodeDecode` | src/CanReceiver.cpp:83-111 | sending a decoded frame again reproduces the kernel frame, up to reserved id bits of a standard frame and bytes behind the length |
| `CanBus.WordOnWire` | src/CanSender.cpp:118-125 | bit 31 of the identifier word marks the extended format, bits 30 and 29 are clear, the id is in the low bits |
| `CanBus.EncodedBytes` | src/CanSender.cpp:116-134 | the frame holds the payload and zeros behind it |
| `CanBus.DiscardedIff` | src/CanReceiver.cpp:83-90 | exactly the error frames, the remote frames and the lengths over 8 are discarded |
| `CanBus.EndToEnd` | src/Connection.cpp:153-178 | printed to JSON, posted back, parsed, range-checked, encoded and received, every valid frame keeps id, format, length and payload |
| `EventStream.ReadFrame` | src/Connection.cpp:196-203 | under the standard's reader, one frame payload is exactly one `can_frame` event with the sequence as id and the JSON as data |
| `EventStream.ReadComment` | src/Connection.cpp:410-417 | the `: connected` and heartbeat blocks leave the reader's state unchanged |
| `EventStream.EventsGrow` | src/Connection.cpp:196-203 | more bytes never take an event back |
| `EventStream.StreamDecodes` | src/Connection.cpp:410-472 | the whole stream of frames and heartbeats is read as exactly its frames in order |
| `EventStream.StreamPrefixDecodes` | src/Connection.cpp:410-472 | any byte prefix of it is read as a prefix of those frames |
| `EventStream.StreamPrefixComplete` | src/Connection.cpp:410-472 | with every payload that has arrived completely among them |
| `FrameStores.FrameStore.constructor` | src/FrameStore.cpp:8-17 | an empty store of the given capacity |
| `FrameStores.FrameStore.Append` | src/FrameStore.cpp:19-33 | the frame gets the next number and joins the history, of which the deque stays the last min(n, capacity) frames |
| `FrameStores.FrameStore.QueryAfter` | src/FrameStore.cpp:35-69 | the loop with its early exit returns the first `limit` matching frames behind the cursor |
| `FrameStores.FrameStore.Stats` | src/FrameStore.cpp:71-80 | appended is overwritten plus buffered, and frames are lost only from a full store |
| `FrameStores.RetainedIsLast` | src/FrameStore.cpp:26-31 | the store holds the last min(n, capacity) frames, so exactly the numbers above the count overwritten |
| `FrameStores.SelectIsPage` | src/FrameStore.cpp:35-69 | a query's answer is increasing, unaltered, behind the cursor and of the id asked for, and it passes over no frame of that id up to its last number, or none at all when it is short |
| `FrameStores.UnfilteredIsSlice` | src/FrameStore.cpp:35-69 | without a filter the answer is one contiguous slice of the history with given bounds |
| `Paging.PagingIsExact` | src/FrameStore.cpp:35-69 | over every run of appends and queries by last sequence, with any filter and limits: frames come once, in order, unaltered; the pages tile the numbers passed; a number was delivered if and only if the store still held it when its page was read |
| `SsePipeline.AppendKeepsFifo` | src/Connection.cpp:393-437 | an append puts its text behind everything accepted, also while a writer is between write and erase |
| `SsePipeline.WriterKeepsFifo` | src/Connection.cpp:788-824 | copy, partial write, give-up and erase keep the byte order, and the copy stays a prefix of the buffer |
| `SsePipeline.BytesAreFifo` | src/Connection.cpp:393-437 | in every interleaving, bytes written plus bytes still unwritten are the accepted texts in append order |
| `SseAccounting.SseConservation` | src/Connection.cpp:404-477 | over all runs, for the stream since its last start: every number between the requested start and the cursor was enqueued, evicted before the query that passed it, or is the one frame at the cursor that overflowed; exactly one of these, so the counts add up, with at most `overwritten_` evicted |
| `SseAccounting.PumpDelivers` | src/Connection.cpp:439-477 | a pump of an active stream that nobody interrupts enqueues every frame its query returned, unless the buffer overflows |
| `SseAccounting.OverflowIsFinal` | src/Connection.cpp:404-450 | after overflow nothing is enqueued in any continuation: the stream stays as it is, and one started anew stays empty |
| `SseAccounting.ClientSeesPrefix` | src/Connection.cpp:421-477 | on a connection whose only request is the stream the buffer never exceeds 256 KiB, and at every moment the client has decoded a prefix of the enqueued frames, all of them once the buffer is empty |
| `LossBound.LevelBound` | src/Connection.cpp:452-467 | a queue drained by 100 a step stays within capacity at every step if and only if every window of steps gets at most capacity + 100 * (k - j) arrivals |
| `LossBound.ExactLossBound` | src/Connection.cpp:452-467 | the frames delivered by any sequence of pumps have no hole if and only if every window of pumps j..k gets at most capacity + 100 * (k - j) frames |
| `LossBound.StreamIsGapFreeIff` | src/Connection.cpp:439-477 | the same for every run of the concurrent pipeline that has not overflowed |
| `LossBound.StreamBegins` | src/Connection.cpp:452-467 | in every run the first frame enqueued is the oldest wanted one that the store still held at the first pump that saw one |
| `StreamRequests.StartsAtRequest` | src/Connection.cpp:404-419 | a stream asked for behind n starts at n and stays there until another one is asked for |
| `StreamRequests.RequestIsServed` | src/Connection.cpp:404-477 | for the n of the request, over every run with one request: the frames enqueued are those behind n in order, each number behind n up to the cursor is enqueued, evicted or the one dropped, the first frame is the oldest still held, and without overflow nothing is missing if and only if the arrivals stay within the loss bound |
| `StreamRequests.RequestStarts` | src/Connection.cpp:653-689 | the bytes of `GET /api/can/stream?after=n`, in any fragments, are one machine step: a stream behind n |
| `StreamRequests.ResumedStream` | src/Connection.cpp:404-543 | from those bytes to the frames enqueued, both of the above together |
| `StreamRequests.ClientGetsWhatItAsked` | src/Connection.cpp:404-477 | what the client has read at any moment are the first frames enqueued behind the number it asked for: kind, number and data of each event are the frame's |
| `StreamRequests.OneAnswerEach` | src/Connection.cpp:509-542 | the requests of a batch are answered one by one in order, each with its 400, its response or the head of its stream |
| `HttpParsing.Parse` | src/HttpRequest.cpp:8-73 | no text without a blank line is accepted, whatever the object held before |
| `HttpParsing.HttpRequest.constructor` | src/Connection.cpp:541 | a new object holds no method, path, version, headers or body |
| `HttpParsing.HttpRequest.ReadRequestLine` | src/HttpRequest.cpp:75-120 | the fields after the request line, including what a refused line leaves in them |
| `HttpParsing.HttpRequest.ReadHeader` | src/HttpRequest.cpp:122-139 | one header line stored under its key without blanks, or refused for want of a colon |
| `HttpParsing.HttpRequest.ReadHeaders` | src/HttpRequest.cpp:26-40 | the line loop is the fold of the header lines up to the first empty one or the first refusal |
| `HttpParsing.HttpRequest.ReadBody` | src/HttpRequest.cpp:42-72 | the declared bytes or the rest, with the comparison in 64-bit arithmetic |
| `HttpParsing.HttpRequest.ReadRequest` | src/HttpRequest.cpp:8-73 | the whole method as a function of the old fields and the text |
| `Reassembly.ExtractContentLength` | src/Connection.cpp:36-85 | the line loop finds the first line named Content-Length, a bad number counting as 0 |
| `Reassembly.ScanForLength` | src/Connection.cpp:52-84 | its loop over the lines behind the request line |
| `Reassembly.CompleteStays` | src/Connection.cpp:509-524 | more bytes never change the length or the text of a request that is complete |
| `Reassembly.CarveStep` | src/Connection.cpp:509-542 | every round that continues shortens the buffer |
| `Reassembly.CarveAppend` | src/Connection.cpp:509-542 | carving what is there and then the rest is carving everything; a malformed request swallows the rest |
| `Reassembly.ChunkingIndependence` | src/Connection.cpp:479-543 | for every stream and every split into read batches, the requests dispatched are those of the whole stream up to its first malformed one; without one the residue and the request object agree too |
| `Reassembly.ChunkingIsExact` | src/Connection.cpp:479-543 | all splits of a stream agree if and only if no proper prefix of it holds a malformed request |
| `Reassembly.FollowerIsLost` | src/Connection.cpp:525-537 | any bytes behind the malformed request CRLF CRLF are lost in the same batch and carved in the next |
| `ContentLengths.SameLines` | src/HttpRequest.cpp:26-40 | the two readers see the same header lines, up to one CR that the cut takes from the last |
| `ContentLengths.StoredIsLast` | src/HttpRequest.cpp:122-139 | the parser holds the value of the last line that stores a length, or else what it held before |
| `ContentLengths.StoredIsFirst` | src/HttpRequest.cpp:122-139 | with at most one line that names Content-Length after trimming, what the parser stored reads as the carver's number, despite different trimming |
| `ContentLengths.FirstNamedDecides` | src/Connection.cpp:71-81 | the first line that names Content-Length decides, with length 0 when its value is no number |
| `ContentLengths.BodyIsTheCarvedBytes` | src/Connection.cpp:511-525 | for every carved and accepted request: the body is the carved bytes cut to the stored number, so it is all of them if and only if no line stores a length or the last stored is at least the carver's; at most one line that names a length is enough |
| `ContentLengths.WrappedLengthIsRefused` | src/Connection.cpp:518 | a length that wraps at 2^64 carves a text the parser refuses in every state |
| `ContentLengths.HeadersIgnoreBody` | src/HttpRequest.cpp:8-40 | two accepted texts equal up to the blank line give the same method, path, version and headers |
| `ContentLengths.StaleLengthDecides` | src/Connection.cpp:525-537 | after a 400, whatever it left behind: a request that a new object accepts is accepted if and only if it stores a length of its own, none was left behind, or the one left behind fits |
| `ContentLengths.StaleHeadersAreCarried` | src/Connection.cpp:525-541 | where it is accepted it carries the refused request's headers below its own, and its body is cut to the number left behind where that decides |
| `ContentLengths.StaleLengthStays` | src/Connection.cpp:525-537 | where it is refused the number left behind stays |
| `Refusals.AfterRefusal` | src/Connection.cpp:525-541 | the same on the wire: one well-formed request read by an object with any past is dispatched and the object is new again, or refused and the number stays, with the exact condition and the exact request dispatched |
| `Refusals.RefusalsRepeat` | src/Connection.cpp:525-537 | well-formed requests without a stored length that the number does not fit are all refused, however many |
| `Refusals.OneBadRequestRefusesTheRest` | src/Connection.cpp:525-537 | after a request with the length `x`, every list of requests without a stored length is refused; a new connection dispatches them all |
| `Refusals.GoodRequestRefused` | src/Connection.cpp:525-537 | the two-request stream: the log is two 400s, while the second request alone is dispatched |
| `Refusals.BodyIsCut` | src/HttpRequest.cpp:48-66 | the concrete request with two lengths whose body `ab` is dispatched as `a` |
| `Refusals.RefusalIsFramed` | src/Connection.cpp:527-532 | the 400 is a status line, two header lines of which one has the length of the body, and the body |
| `Refusals.StreamHeadIsFramed` | src/Connection.cpp:410-416 | the stream's head is a status line and four header lines |
| `Pipelining.ParseOfBytes` | src/HttpRequest.cpp:8-73 | on lines printed with CRLF the parser sees exactly these lines and then the body |
| `Pipelining.HandleFramed` | src/Connection.cpp:509-542 | one framed request in an empty buffer goes through the parser as a whole, whatever the object holds |
| `Pipelining.CarveOne` | src/Connection.cpp:509-542 | the carver takes exactly one well-formed request off the front, whatever follows |
| `Pipelining.PipelinedRequestsAreDispatched` | src/Connection.cpp:479-543 | well-formed requests back to back, in any fragments, are dispatched once each, in order, with their own bodies, leaving nothing |
| `Pipelining.FollowersAreLost` | src/Connection.cpp:525-537 | well-formed requests behind a malformed one are all lost in the same batch and all dispatched in the next |
| `Pipelining.TwoLengthsDisagree` | src/HttpRequest.cpp:48-66 | a request with two Content-Length lines, the first that of its body, the second b: it is carved as a whole, and dispatched if and only if b is not above the body's length or wraps, with the body cut to b bytes |
| `HttpRoundTrip.LineReads` | src/HttpRequest.cpp:75-120 | a printed request line is read as its method, path and version |
| `HttpRoundTrip.VerbIs` | src/HttpRequest.cpp:89-103 | GET and POST are known in any case, and every other word is an unknown method |
| `HttpRoundTrip.LineIsReadIff` | src/HttpRequest.cpp:75-120 | a line of words is accepted if and only if there are three and the third is HTTP/1.1 or HTTP/1.0; a refused one of two or more leaves its path behind |
| `HttpRoundTrip.FieldReads` | src/HttpRequest.cpp:122-139 | a printed field is stored under its key with its value, and not mistaken for a length |
| `HttpRoundTrip.PaddedFieldReads` | src/HttpRequest.cpp:130-137 | blanks around the key and in front of the value are dropped |
| `HttpRoundTrip.BareLineFeed` | src/HttpRequest.cpp:26-31 | a line may end in LF or in CRLF |
| `HttpRoundTrip.PrintedMessage` | src/HttpRequest.cpp:8-73 | every printed message is well formed and means the message |
| `HttpRoundTrip.MessagesRoundTrip` | src/Connection.cpp:479-543 | any list of messages, printed, pipelined and fragmented at will, is dispatched as those messages with all their fields, and nothing is left over |
| `HttpRoundTrip.PostedFramesArrive` | src/Connection.cpp:691-728 | any messages in any fragments: those that POST a frame to the send route, with the id in any base and case, among whatever others, are dispatched, parsed, accepted and encoded, and a receive loop on the bus decodes exactly these frames in order |
| `Routing.PathWithoutQuery` | src/Connection.cpp:87-93 | the route is the longest prefix of the path without a question mark |
| `Routing.ParseQuery` | src/Connection.cpp:95-129 | the index loop computes the map of the items, a later one replacing an earlier one |
| `Routing.QueryReads` | src/Connection.cpp:87-129 | every list of parameters printed behind a route is read back, a later one replacing an earlier one, and so is the route |
| `Routing.StreamStartIs` | src/Connection.cpp:653-689 | a stream starts at 0 without `after`, behind its number with it among any other parameters, and nowhere when it is no number |
| `HttpRoundTrip.PostArrives` | src/Connection.cpp:691-728 | a message that posts a frame to the send route puts on the bus a frame that another node decodes as the one asked for |
| `Routing.ResumesBehind` | src/Connection.cpp:653-689 | a stream request for what lies behind a printed sequence number starts exactly there |
| `Connections.Connection.constructor` | src/Connection.cpp:376-385 | a new connection is the initial state of both machines |
| `Connections.Connection.AppendSendBuf` | src/Connection.cpp:393-402 | the machine's append |
| `Connections.Connection.AppendSsePayload` | src/Connection.cpp:421-437 | accepted if and only if not empty and within 256 KiB; a refusal sets overflow and appends nothing |
| `Connections.Connection.StartSse` | src/Connection.cpp:404-419 | the machine's StartSse step, on the first call and on any later one: the cursor is the number asked for, then header and `: connected` |
| `Connections.Connection.HandleWrite` | src/Connection.cpp:788-824 | for any sequence of write results the bytes move from the buffer to the wire in order, exactly as many as were taken, and it ends drained, blocked or failed as they say |
| `Connections.Connection.CopyPending` | src/Connection.cpp:794-802 | the first critical section is the machine's Copy step, or finds nothing to send |
| `Connections.Connection.EraseWritten` | src/Connection.cpp:807-808 | the second is its Erase step |
| `Connections.Taken` | src/Connection.cpp:792-821 | successive writes never take more than was waiting |
| `Connections.Connection.Receive` | src/Connection.cpp:484-507 | the read loop appends the chunks in order |
| `Connections.Connection.ProcessRequest` | src/Connection.cpp:545-786 | the stream route is the machine's StartSse step behind the number asked for; every other request appends its one response |
| `Connections.Connection.CarveRound` | src/Connection.cpp:509-542 | one round of the loop: a request taken off and processed, or the loop left with the reassembly's final state, after a 400 if malformed; every event of the log is one step of the pipeline machine |
| `Connections.Connection.HandleRead` | src/Connection.cpp:479-543 | the method is the reassembly of the whole batch, and the pipeline machine's run over the answers to its events, one each and in order; at end of file or an error nothing is carved or answered |
| `Connections.Connection.FrameToSse` | src/Connection.cpp:196-203 | the payload the stream decoding is about |
| `Connections.Connection.PumpFrame` | src/Connection.cpp:458-467 | one round of the pump is the machine's PumpFrame step, cursor first, wherever the writer is |
| `Connections.Connection.Beat` | src/Connection.cpp:469-474 | 10 seconds after the last one a heartbeat is appended if it fits in 256 KiB, else overflow is set; its clock moves also then; this is the machine's PumpEnd step |
| `Connections.Connection.PumpFrames` | src/Connection.cpp:458-467 | the loop is the machine's PumpFrame steps up to the first frame that meets a full buffer |
| `Connections.Connection.PumpSse` | src/Connection.cpp:439-477 | the whole method refines the machine's uninterrupted run of query, frames and end; it reports whether anything was appended, and ends with a heartbeat when one is due and nothing overflowed |
| `Timers.LatestDeadlineCounts` | src/Timer.cpp:8-49 | over any history of operations a deadline is armed if and only if it is the latest set for its descriptor and was neither cancelled nor fired since |
| `Timers.TickIsDetermined` | src/Timer.cpp:32-49 | two right answers to a tick differ only in the order of equal deadlines |
| `Timers.Timer.AddTimer` | src/Timer.cpp:8-15 | arms the descriptor in the deadline map; stale heap entries may remain |
| `Timers.Timer.UpdateTimer` | src/Timer.cpp:17-24 | the same |
| `Timers.Timer.RemoveTimer` | src/Timer.cpp:26-30 | disarms it, leaving its heap entries |
| `Timers.Timer.Top` | include/Timer.h:14-29 | an entry with the earliest time, any of several |
| `Timers.Timer.Tick` | src/Timer.cpp:32-49 | despite stale, repeated and re-added entries: exactly the descriptors whose latest deadline is at most now, without duplicates, in deadline order, and exactly the rest stay armed |
| `EventLoops.OwnershipHolds` | src/EventLoop.cpp:44-109 | in every interleaving with descriptor reuse: registered descriptors are open and their own connection's, none is closed twice, none unclosed is lost, and after shutdown each accepted one has been closed exactly once |
| `EventLoops.RemovalHitsItsConnection` | src/EventLoop.cpp:90-109 | in every reachable state a removal that names its connection takes exactly its table entry, its descriptor and its timer away and closes it, or changes nothing |
| `EventLoops.TimeoutsAreJust` | src/EventLoop.cpp:121-161 | at the top of the loop every registered connection has an armed timer from its own last activity; every connection closed by timeout was no stream when checked and was last armed at least 15 seconds before the tick's clock |
| `LoopActivity.ActivityKeepsAlive` | src/EventLoop.cpp:121-165 | judged by what epoll_wait reported and the clock alone, while the clock does not go back: at the loop's top every connection reported in the round just ended has a timer at least 15 seconds behind that round's clock, and none is closed by a timeout within 15 seconds of a round that reported it |
| `LoopActivity.IdleAreClosed` | src/EventLoop.cpp:137-158 | and at the loop's top no connection is left whose timer was due at the round's clock |
| `LoopActivity.OverflowedAreClosed` | src/EventLoop.cpp:167-209 | every connection a dispatch found overflowed is closed before the loop handles its events |
| `EventLoops.TimeoutHitsItsConnection` | src/EventLoop.cpp:137-158 | the timeout's removal by descriptor meets the connection that timed out or nothing |
| `EventLoops.ErrorRemovalIsExact` | src/EventLoop.cpp:248-252 | the removal on an error event meets the connection the event was raised for if and only if its descriptor was not accepted again since `epoll_wait` |
| `EventLoops.ErrorClosesNewcomer` | src/EventLoop.cpp:248-252 | from every loop top with a client and no timer due, a run exists in which it closes a connection accepted in the same round |
| `EventLoops.NewcomerClosedFromStart` | src/EventLoop.cpp:248-252 | such a run from the empty table: connections 0 and 1 are closed, and no worker has asked for 1 |
| `ConnectionTables.EventLoop.constructor` | src/EventLoop.cpp:18-30 | a new loop has an empty table and no timers |
| `ConnectionTables.InitServer` | src/Server.cpp:95-96 | with the listening socket added it is where the machine starts |
| `ConnectionTables.EventLoop.AddEvent` | src/EventLoop.cpp:44-66 | an existing entry is kept, a new one added |
| `ConnectionTables.EventLoop.RemoveEvent` | src/EventLoop.cpp:90-109 | table entry, timer and descriptor go together, or nothing changes when the identity differs |
| `ConnectionTables.EventLoop.IsRegistered` | src/EventLoop.cpp:111-119 | the lookup the machine uses |
| `ConnectionTables.EventLoop.ExpireTimers` | src/EventLoop.cpp:137-158 | the loop over the answer of a tick re-arms streams, each by its own clock reading, and removes the rest |
| `ConnectionTables.EventLoop.HandleNewConnection` | src/EventLoop.cpp:256-290 | the accept loop registers and times each descriptor, each by its own clock reading |
| `ConnectionTables.EventLoop.HandleEvent` | src/EventLoop.cpp:213-253 | one round of the loop over the events, and what it submits to the pool |
| `ConnectionTables.EventLoop.HandleEvents` | src/EventLoop.cpp:211-254 | the whole loop, and the connections submitted in order |
| `ConnectionTables.OthersUntouched` | src/EventLoop.cpp:137-158 | descriptors that are not due keep entry, socket and deadline |
| `ConnectionTables.EachIsSettled` | src/EventLoop.cpp:137-158 | each due descriptor is settled by what the table held before: a stream re-armed, anything else closed and gone |
| `ConnectionTables.EachIsAccepted` | src/EventLoop.cpp:256-290 | every accepted descriptor ends up open, registered for its own connection and timed |
| `ConnectionTables.EachEventIsHandled` | src/EventLoop.cpp:211-254 | every client that is registered when its input or output is reported stays registered, has 15 seconds from the moment its event was handled, and is submitted; one that reports only an error is gone with its timer |
| `ThreadPools.ThreadPool.Push` | src/ThreadPool.cpp:29-36 | the protocol's Submit step, so all its invariants stay: the queue is the submitted tasks not yet taken, in order, with the new one last, and a notification is due |
| `ThreadPools.ThreadPool.Test` | src/ThreadPool.cpp:42-55 | the protocol's Test step of an awake worker, which then sleeps, exits or runs the front task as the answer says |
| `ThreadPools.ThreadPool.Stop` | src/ThreadPool.cpp:17-20 | the protocol's RequestStop step, so that from here on every sleeper has the notify_all still to come, and the queue is what was submitted and not yet taken |
| `ThreadPools.PoolIsSafe` | src/ThreadPool.cpp:15-58 | over every run with arbitrary scheduling and spurious wakeups: a sleeper implies queue <= awake testers + pending notifications, and with stop a pending notify_all; submitted = dequeued (in that order) + queued, dequeued = running + finished; nobody exits before everything submitted before stop is dequeued |
| `ThreadPools.WorkDecreases` | src/ThreadPool.cpp:15-58 | every step of the pool's own threads uses up work, so the pool comes to rest |
| `ThreadPools.RestMeansDone` | src/ThreadPool.cpp:15-58 | at rest exactly the tasks dequeued have finished: before stop all that were submitted, after stop at least all submitted before it, and every worker has exited |
| `ThreadPools.JoinedMeansDone` | src/ThreadPool.cpp:15-27 | once all workers have exited, every task submitted before stop has finished, whatever was submitted later |
| `Statistics.CanBusStatistics.constructor` | src/CanBusStatistics.cpp:7-24 | empty counters and window, for a bitrate and a window above zero |
| `Statistics.EstimateIsLayout` | src/CanBusStatistics.cpp:94-106 | the estimate is the sum of the widths of a classic CAN data frame's fields, standard or extended, plus the least number not below a fifth of it |
| `Statistics.CanBusStatistics.RemoveExpired` | src/CanBusStatistics.cpp:108-124 | the purge loop keeps the running total equal to the sum of the deque, so the unsigned subtraction never wraps |
| `Statistics.CanBusStatistics.RecordReceived` | src/CanBusStatistics.cpp:26-51 | totals, the entry of the frame's key and the window all stay functions of the history |
| `Statistics.CanBusStatistics.TakeSnapshot` | src/CanBusStatistics.cpp:53-82 | after the purge: the totals, the entries, the rate that times the window is the number of frames in it, and the load that times the bus capacity of the window is 100 times the bits of these frames laid out field by field |
| `Statistics.WindowIsExact` | src/CanBusStatistics.cpp:108-124 | for calls in clock order the deque is exactly the recorded samples younger than the window |
| `Statistics.RemovedHadExpired` | src/CanBusStatistics.cpp:108-124 | for any clock the deque is a suffix of what was recorded, and all that is gone had expired at some call since it was recorded |
| `Statistics.PerIdIsProjection` | src/CanBusStatistics.cpp:36-44 | each identifier's entry counts exactly its own frames and bytes and has its last time, and exists if and only if it has a frame |
| `Statistics.PerIdSumsToTotals` | src/CanBusStatistics.cpp:33-44 | the entries add up to the totals |
| `Receiver.Deliver` | src/CanReceiver.cpp:112-117 | one kept frame: statistics first, then the store |
| `Receiver.ReceiveLoop` | src/CanReceiver.cpp:36-119 | for any sequence of kernel answers, statistics and store receive exactly the kept frames up to the first error, in order |
| `Receiver.ReceivedAreValid` | src/CanReceiver.cpp:83-111 | every frame received meets what the printers and the pipeline require |
| `Receiver.ReceivedUpToError` | src/CanReceiver.cpp:36-119 | up to the first error every kept frame is received, and nothing behind it |
| `Receiver.StatisticsAndStoreInStep` | src/CanReceiver.cpp:112-172 | at every moment of every run of the lifecycle: at most one producer, the statistics are ahead of the store by the frame in hand or not at all, and after stop they agree |

## Left out

- Sockets, epoll, poll, ioctl, clocks and signals: read batches, write results, fresh descriptors, poll answers and clock
  readings are arguments or actions.
- Counters, sequence numbers, timestamps and totals are unbounded; only `size_t` request lengths and parsed numbers
  have their 64 bits.
- A `std::string` holds one `char` per byte; locale is "C".
- The responses of `processRequest`: each dispatched request has one response text, given from outside. Of the routes,
  the stream and the send route are modelled, with a CAN runtime present; static files and MIME types are not.
- The lock order between `startSse` and a pump in progress: a stream starts while no pump is running, which its mutex
  ensures.
- What a client makes of a second stream on the same connection: its bytes are in order and its frames are accounted for,
  but a second response header stands in the middle of the first stream.
- That write interest is never lost: `handleWrite` falls back to EPOLLIN after it has released the send lock.
- That raw reads and writes on a descriptor reach the right peer: the code does not check this either.
- A clock that goes back: the results on activity and idle connections assume that each reading is at least the one before;
  ownership and `TimeoutsAreJust` do not.
- Closing of the listening descriptor at shutdown; the close-once result is about accepted connections.
- Registrations with epoll (`epoll_ctl`, `updateEvent`): which events a descriptor reports is arbitrary.
- The rounding of a snapshot's rate and load to doubles: they are real numbers here.
- The internals of `std::priority_queue` and `std::deque`: a multiset with a minimum and a sequence.
- Constructor arguments that throw: capacity 0, bitrate 0, window 0.
- Opening of CAN sockets, kernel filters, `CanRuntime.start` and `stop`, thread creation that fails, and a receiver without
  statistics.
- Tasks that throw in a pool worker; a pool without workers, which never runs a task.
- `Logger`, `Server`, `main`, the clients, scripts and build files.
- A task submitted after stop may never run: once the workers have exited nobody takes it. `FinishedInOrder` inside
  `RestMeansDone` says which tasks have finished.
- EventLoops.OwnershipHolds: the destructor's loop over the table is one step a descriptor, so that workers may come in
  between, which its mutex forbids; the result holds all the more.
- Numbers.Digits: the model's printing is for bases 8, 10 and 16; the source prints in 10 and 16.
- Connections.Connection.PumpSse: one call nobody interrupts; its critical sections, `PumpFrame` and `Beat`, are machine
  steps from every state, and their interleavings with responses and the writer are those of `SsePipeline`.
