# Forge and its wrk client, modelled and proved in Dafny

Forge is a small pre-forking HTTP server; its repository carries a patched copy of the load generator wrk. This project
models the parts of both that are hardest to get right, and proves what they promise. It stands beside the repository:
source files are cited by path and line.

`dafny verify dfyconfig.toml` checks everything.

## What is modelled

- **The incremental HTTP parser** (`tools/wrk/src/http_parser.c`, strict build). `HttpStep` is the switch over about 60
  states as a function from a record and a byte to an outcome; `HttpSpec` folds it over bytes into a log of events.
  `HttpExecute` is `http_parser_execute` as a class with its real loops: names, values with the bounded `memchr` jump,
  body strides, marks and callbacks. It is proved to compute the fold (`HttpMarks`, `HttpBulk`, `HttpTurns`), to keep an
  invariant under which no internal assert fails (`HttpInvariant`), and to depend on how the input is cut in exactly two
  ways (`HttpSplit`, `HttpBadCut`, `HttpCuts`). On top of the fold stand round trips and exact readings: header names, the
  values of Connection and Transfer-Encoding, header blocks, lengths, methods, request lines, printed requests in
  pipelines, chunked and identity bodies (`HttpNames`, `HttpValues`, `HttpLines`, `HttpHeaders`, `HttpLengths`,
  `HttpMethods`, `HttpStartLine`, `HttpBodies`, `HttpRequests`, `HttpChunks`), and the order of header events (`HttpShape`).
- **What wrk does around it**: printing and verifying requests (`WrkRequest`), packing response headers into NUL-separated
  buffers and unpacking them for Lua (`WrkResponse`), the closed loop of a connection (`WrkConnection`), and URLs
  (`UrlParser`).
- **The latency histogram** (`Stats`, and `StatsThreads` for any number of threads at once).
- **The ae event loop**: timers (`AeTimers`) and file events with their epoll and select back ends (`AeEvents`).
- **Forge's own protocol** between the master and its workers (`Handoff`).

A Dafny `char` stands for one byte. Callbacks are passive: they return 0 and only add to the log. A log is canonical when
adjacent data events of one kind are joined; that is the form in which runs are compared. `HttpExecute` runs `HttpStep.Step`
itself for the states whose C code looks at one byte only, so there it agrees with the fold by construction; what is proved
about it are the loops, jumps, strides, marks and counters. What those states do is the subject of the other modules.

## What turned out not to hold, and what holds instead

- **Cutting the input.** The `memchr` jump passes over bytes that `IS_HEADER_CHAR` rejects, while the first byte of a new
  buffer is always looked at. So a request with a control byte inside a header value can be accepted in one buffer and
  rejected in two (`HttpBadCut.CutMatters`). And the header size counter counts one byte too many at each end of a buffer
  inside a header name or value, so that a request with a full head overflows when it is cut there
  (`HttpBadCut.CutOverflows`, `CutFills`). `HttpSplit.SplitOnce` and `SplitMany` give the exact condition, in terms of the
  run over the whole input, and the exact surplus of the counter. `HttpCuts.PipelinedCuts` is what a client can rely on:
  pipelined requests with heads of at most 40 KiB are read alike however they are cut.
- **Hex digits.** The table `unhex` has 256 entries but only 128 are written out; the others are zero, so a byte of 128 or
  more is read as the hex digit 0 in a chunk size. An accepted size is one of RFC 7230 if and only if it holds no such byte
  (`HttpChunks.SizeIsRfc`, `HighByteIsZero`).
- **Lists in `Connection`.** The code lower-cases a byte before it compares it with a tab, which turns the tab into `)`, so
  that tabs are not skipped although the comment says that white space is. An empty element, or one that is a proper
  beginning of an option, such as `k`, also hides what follows it. `HttpValues.ListRun` and `FlagsExactly` are exact for
  every value: an option counts if and only if it is `Seen`, a condition on the text alone. What is seen is listed in the
  sense of RFC 7230 (`FlagsSound`), so the flags are those of RFC 7230 if and only if no listed option is hidden
  (`AgreesWithRfc`, and `ConnectionAgrees` for the whole line). `HiddenByTab` and `HiddenOptions` give values with hidden options.
- **Lists in `Transfer-Encoding`.** The parser compares the whole value with `chunked`, so it does not see the coding at
  the end of a list (`HttpValues.TransferFlags`, `CodingListMissed`). The flags of a trailer's header lines count like those
  of the head (`HttpChunks.ChunkedRequest`).
- **Verifying a request.** `script_verify_request` looks at the number of bytes used and not at the error. When the search
  for a line end in a header value finds none within 80 KiB, the jump goes to the end of the text, however far that is, so
  all bytes count as used, and the text is accepted if an earlier request in it was complete. `WrkRequest.AcceptedExactly`
  says exactly when a text is accepted, `TailUnread` and `UnnoticedError` give the texts.
- **Responses without headers.** wrk passes a response to Lua only when a header buffer exists. Before the first header of a
  connection, a response without headers is not passed on and its body goes to the next one; afterwards such a response is
  passed on with one pair that holds a left-over of an earlier response. `WrkResponse.Deliver` is what happens exactly.
- **Empty masks.** `aeCreateFileEvent` with an empty mask on an empty slot breaks `maxfd` or the back end, except under
  select below `maxfd`. `AeEvents.EventLoop.CreateFileEvent` states the exact condition.

## Model

| member | source | states |
|---|---|---|
| HttpExecute.HttpParser.constructor | tools/wrk/src/http_parser.c:2082-2091 | http_parser_init leaves the start state of the given type, an empty event log, and a parser that satisfies the invariant |
| HttpExecute.HttpParser.Execute | tools/wrk/src/http_parser.c:631-2029 | one call ends in the record, counter, event log and byte count of the fold of one-byte steps; if it ends in an error, the error, the state, the byte count and the notifications are those of the fold, the header size limit included; it keeps the invariant, uses all of a buffer that it accepts, and every loop terminates |
| HttpExecute.HttpParser.Scan | tools/wrk/src/http_parser.c:699-2021 | the outer loop over a non-empty buffer meets the fold over all its bytes, whatever strides its inner loops take, and stops with the error and at the byte at which the fold stops |
| HttpExecute.HttpParser.FieldLoop | tools/wrk/src/http_parser.c:1228-1355 | the header-name loop leaves the machine in front of the byte the fold is at, or stops where the fold stops; the size check waits until the token run ends, and the end of a buffer counts one byte more |
| HttpExecute.HttpParser.ScanValue | tools/wrk/src/http_parser.c:1436-1615 | the header-value scan with its jumps reads the same record as the fold, or fails at the byte the fold fails at |
| HttpExecute.HttpParser.ValueLoop | tools/wrk/src/http_parser.c:1436-1625 | the whole header-value state: scan, callback at the line end, the size check behind it, and going on with the line feed |
| HttpExecute.HttpParser.BodyLoop | tools/wrk/src/http_parser.c:1820-1861 | body strides equal that many one-byte steps; a stride is never empty, so the position never moves back |
| HttpExecute.Memchr | tools/wrk/src/http_parser.c:1472-1474 | the first occurrence within the limit, or none there |
| HttpExecute.Jump | tools/wrk/src/http_parser.c:1465-1488 | the jump goes to the nearest line end within 80 KiB, and to the end of the buffer when there is none there, however far that is and whatever line ends lie beyond |
| HttpExecute.HttpParser.Callbacks | tools/wrk/src/http_parser.c:77-143 | what the mark, data and notify macros append to the log; no second mark is set |
| HttpBulk.ValueLoopByte | tools/wrk/src/http_parser.c:1436-1615 | one byte of the header-value loop is one step of the byte machine |
| HttpBulk.JumpBytes | tools/wrk/src/http_parser.c:1465-1488 | a jump equals that many byte steps: over bytes without line ends as far as the search reaches, and over anything behind |
| HttpBulk.JumpTooFar | tools/wrk/src/http_parser.c:1465-1620 | once the search has found nothing, the rest of the buffer counts as used, whatever it is, and the call fails with a header overflow |
| HttpBulk.FieldLoopByte | tools/wrk/src/http_parser.c:1228-1338 | one byte of the header-name loop is one step of the byte machine |
| HttpBulk.BodyRun | tools/wrk/src/http_parser.c:1820-1850 | bytes of a body of known length, taken in one stride or one at a time, reduce content_length by their number and extend one data event |
| HttpTurns.PassOn | tools/wrk/src/http_parser.c:705-1997 | one pass of the switch relates the callbacks and marks of the C code to the log of the byte machine; no internal assert fails |
| HttpTurns.JumpOn | tools/wrk/src/http_parser.c:1465-1488 | the loop invariant survives a jump, also one past unseen line ends |
| HttpTurns.LastStride | tools/wrk/src/http_parser.c:1820-1854 | the last stride of an identity body flushes the data with the final byte included and goes on to message_done |
| HttpStep.StepDescends | tools/wrk/src/http_parser.c:705-1997 | every re-execute edge goes to a state of smaller rank, so one byte is examined finitely often |
| HttpSpec.RunConcat | tools/wrk/src/http_parser.c:699-1997 | reading A + B is reading A and then B |
| HttpSpec.RunUsed | tools/wrk/src/http_parser.c:699-1997 | a machine without error has used every byte, a stopped one no more than there were |
| HttpSpec.PushTwice | tools/wrk/src/http_parser.c:102-143 | the log does not depend on how a stretch of data was split into callbacks |
| HttpInvariant.StepKeeps | tools/wrk/src/http_parser.c:705-1997 | every state keeps the invariant: known header states in names and values, matchers strictly inside their words, F_CHUNKED in chunk states, lengths that are neither 0 nor ULLONG_MAX in bodies, an index within the spelling of the guessed method, and no failed assert |
| HttpInvariant.RunKeeps | tools/wrk/src/http_parser.c:699-1997 | the invariant holds after any input |
| HttpInvariant.CallKeeps | tools/wrk/src/http_parser.c:631-2029 | over any sequence of calls no internal assert fails and the parser stays valid; a chunk size starts with nread equal to 1 |
| HttpInvariant.InitValid | tools/wrk/src/http_parser.c:2082-2091 | a new parser is valid |
| HttpInvariant.StepSpans | tools/wrk/src/http_parser.c:705-1997 | a state's callbacks and marks fit together: one open span at a time, and what is flushed is what was marked |
| HttpInvariant.DecimalExact | tools/wrk/src/http_parser.c:1495-1520 | the guard on Content-Length digits is exact: an accepted digit never wraps, and the result is at most 2^64 - 7 |
| HttpInvariant.HexExact | tools/wrk/src/http_parser.c:1888-1923 | the guard on chunk-size digits is exact: an accepted digit never wraps, and the result is at most 2^64 - 17 |
| HttpSplit.SplitOnce | tools/wrk/src/http_parser.c:631-2029 | one cut of an accepted input: each of the two calls is accepted if and only if a condition on the run over the whole input holds, namely that the second part does not begin with a byte that only a jump accepts and that all size checks have room for the one byte that a cut inside a name or value adds; the result is then the same, and otherwise the error says which of the two failed |
| HttpSplit.SplitMany | tools/wrk/src/http_parser.c:631-2029 | any number of cuts: all calls are accepted if and only if the whole input is accepted and the cuts fit, a condition on the run over the whole input; then record, events and data are the same, and nread is greater by exactly one for each cut inside a header name or value since its last reset |
| HttpSplit.ByteAlike | tools/wrk/src/http_parser.c:1457-1488 | two machines that differ in the jump and in the surplus of the counter agree on a byte, unless its size check needs the surplus or IS_HEADER_CHAR rejects it, and then the error is known |
| HttpBadCut.CutMatters | tools/wrk/src/http_parser.c:1457-1488 | a concrete GET request with a control byte in a header value: one call reads it to its end and reports it complete, two calls reject it when the second begins with that byte |
| HttpBadCut.CutOverflows | tools/wrk/src/http_parser.c:1340-1345 | a good request whose head fills the header limit is accepted whole; a cut anywhere inside one of its names or values makes the second call overflow |
| HttpBadCut.CutFills | tools/wrk/src/http_parser.c:1618-1624 | a concrete one of 81920 bytes: accepted by one call with one completed message, an overflow in two |
| HttpSplit.SmallCutsFit | tools/wrk/src/http_parser.c:1340-1345 | the surplus of the counter never exceeds the number of buffers that have ended, nor the counter itself; so when the greatest count of the uninterrupted run leaves room for the smaller of the two, the cuts fit if and only if none is bad |
| HttpCuts.PlainSplit | tools/wrk/src/http_parser.c:439-440 | an input of header characters of any length is read alike however it is cut, if the longest header block leaves room below the limit for the cuts or for as many bytes again; bodies do not count |
| HttpCuts.PipelinedCuts | tools/wrk/src/http_parser.c:631-2029 | any number of printed requests with bodies of any length and content, in buffers that end anywhere: every call is accepted and all events are read back, if the longest head leaves room below the limit for the cuts, or is at most 40 KiB |
| HttpValues.ConnectionLine | tools/wrk/src/http_parser.c:1411-1665 | a Connection or Proxy-Connection header line, in any case, sets exactly the flags of its list and changes nothing else |
| HttpValues.CodingLine | tools/wrk/src/http_parser.c:1388-1665 | a Transfer-Encoding header line sets the chunked flag exactly when its value is that one word, in any case, and blanks |
| HttpValues.ListRun | tools/wrk/src/http_parser.c:1533-1610 | the automaton is exact: from any place in a list, the flags behind it are those that its elements set one by one |
| HttpValues.TransferFlags | tools/wrk/src/http_parser.c:1522-1592 | the matcher of chunked is exact on every value |
| HttpValues.FlagsSound | tools/wrk/src/http_parser.c:1533-1610 | a flag that a value sets stands for an option that it lists in the sense of RFC 7230 |
| HttpValues.FlagsComplete | tools/wrk/src/http_parser.c:1533-1610 | a sufficient condition that looks at one element at a time: in a list without tabs, empty elements and elements that are a proper beginning of an option, the flags are exactly the options listed |
| HttpValues.FlagsExactly | tools/wrk/src/http_parser.c:1522-1610 | in a list of any length, the flag of each of the three options is set if and only if it was set before or the option is seen: an element spells it, in any case and with blanks, in a place where elements are compared; the places are told from the text in front |
| HttpValues.AgreesWithRfc | tools/wrk/src/http_parser.c:1522-1610 | the flags behind a list are those of RFC 7230 if and only if every option that the list names is seen in it or had its flag already |
| HttpValues.ConnectionAgrees | tools/wrk/src/http_parser.c:1411-1665 | a whole Connection header line sets the flags of RFC 7230 if and only if it hides no option whose flag is not set already |
| HttpValues.NextRecognised | tools/wrk/src/http_parser.c:1533-1588 | in a list of two elements, the option that the second spells is set if and only if it was set before, the first spells it too, or the first has a token letter first and is no proper beginning of an option |
| HttpValues.CodingListMissed | tools/wrk/src/http_parser.c:1388-1592 | a Transfer-Encoding line with the codings gzip and chunked changes no flag, although RFC 7230 frames such a message by its last coding |
| HttpValues.HiddenByTab | tools/wrk/src/http_parser.c:1544-1548 | a tab in front of an option or behind it hides it, although RFC 7230 allows it there |
| HttpValues.HiddenOptions | tools/wrk/src/http_parser.c:1533-1588 | an element that is a tab, empty or a proper beginning of an option hides the option behind it |
| HttpMethods.MethodPrefix | tools/wrk/src/http_parser.c:917-1010 | soundness: after any input, the bytes since the start of the message are the first letters of the method that is guessed, as many as index says |
| HttpMethods.MethodAccepted | tools/wrk/src/http_parser.c:960-970 | an accepted method word is exactly the spelling of the method reported, and in front of it a message began |
| HttpMethods.MethodStays | tools/wrk/src/http_parser.c:705-1997 | behind its word nothing changes the method until the next message begins |
| HttpLines.BlockFlags | tools/wrk/src/http_parser.c:1522-1672 | the flags that a header block sets are exactly those that its Connection and Transfer-Encoding headers say, in any order and number |
| HttpLines.FreeLines | tools/wrk/src/http_parser.c:1178-1672 | any block of header lines without Content-Length and Upgrade gives back its names and values, and changes nothing in the record but those flags and the header automaton |
| HttpNames.NamesRecognised | tools/wrk/src/http_parser.c:1178-1338 | the nested automaton recognises exactly connection, proxy-connection, content-length, transfer-encoding and upgrade, in any case, and nothing else |
| HttpHeaders.ValueLine | tools/wrk/src/http_parser.c:1357-1672 | a value and its line end: the value is reported as one event and the record is what the value loop makes of it |
| HttpHeaders.SettleRun | tools/wrk/src/http_parser.c:1638-1665 | a line that does not continue the last header is read as if the value had been closed first |
| HttpLengths.LengthAccepted | tools/wrk/src/http_parser.c:1495-1520 | a Content-Length is accepted if and only if the decimal value of its digits is at most 2^64 - 7, and then it is that value |
| HttpLengths.LengthRejected | tools/wrk/src/http_parser.c:1495-1520 | a greater Content-Length fails with INVALID_CONTENT_LENGTH |
| HttpLengths.DecimalRead | tools/wrk/src/wrk.lua:60-60 | the decimal spelling of a length reads back as the length |
| HttpBodies.IdentityBody | tools/wrk/src/http_parser.c:1798-1854 | bytes delivered plus content_length stay the declared length, and the message completes exactly when it reaches zero |
| HttpBodies.CloseRun | tools/wrk/src/http_parser.c:1705-1818 | the empty line completes the headers; without a body the message completes at once |
| HttpStartLine.GuessPrefix | tools/wrk/src/http_parser.c:917-1010 | completeness: while one of the 33 methods is spelled out, the guess begins with the letters read so far |
| HttpStartLine.GuessNext | tools/wrk/src/http_parser.c:960-1010 | at every letter where two methods part, the correction of the guess leads to the right one |
| HttpStartLine.MethodWordRun | tools/wrk/src/http_parser.c:917-1010 | each of the 33 methods is recognised from its spelling |
| HttpStartLine.StartLineRun | tools/wrk/src/http_parser.c:917-1176 | a request line gives back its method, its target as one event and version 1.1 |
| HttpRequests.PlainLine | tools/wrk/src/http_parser.c:1178-1672 | a header line with an ordinary name gives back name and value and changes nothing else |
| HttpRequests.LengthLine | tools/wrk/src/http_parser.c:1372-1520 | a Content-Length line sets the flag and the length |
| HttpRequests.RequestRun | tools/wrk/src/http_parser.c:917-1870 | one printed request is read back exactly, and the parser waits for the next one |
| HttpRequests.PipelinedRoundTrip | tools/wrk/src/wrk.lua:50-72 | any number of printed requests in a row is consumed whole without error, completes one message each, and gives back methods, targets, headers and bodies in order |
| HttpChunks.SizeRun | tools/wrk/src/http_parser.c:1888-1923 | a run of the table's hex digits is accepted if and only if its value is at most 2^64 - 17, and then it is that value, without wrapping |
| HttpChunks.SizeExact | tools/wrk/src/http_parser.c:1872-1923 | any text in the place of a chunk size: the parser reads on exactly when all of it is digits of the table and not too large; else the error is INVALID_CONTENT_LENGTH or INVALID_CHUNK_SIZE by what comes first |
| HttpChunks.SizeIsRfc | tools/wrk/src/http_parser.c:221-230 | an accepted text is a chunk size of RFC 7230, and read as its number, if and only if it holds no byte from 128 on |
| HttpChunks.HighByteIsZero | tools/wrk/src/http_parser.c:221-230 | the byte 128 in the place of a size ends the body like a zero |
| HttpChunks.ChunkRun | tools/wrk/src/http_parser.c:1872-1990 | one chunk with extension reports its data and one chunk header and chunk completion |
| HttpChunks.EndingRun | tools/wrk/src/http_parser.c:1872-1951 | the last chunk with its trailer completes exactly one message, and the header lines of the trailer set their flags too |
| HttpChunks.ChunkedRoundTrip | tools/wrk/src/http_parser.c:1863-1990 | any list of non-empty chunks with a final chunk is consumed whole; the body data is the concatenation of the chunks and one message completes (section 4.1 of RFC 7230) |
| HttpChunks.ChunkedRequest | tools/wrk/src/http_parser.c:917-1990 | from http_parser_init on: a head that carries Transfer-Encoding: chunked anywhere among its headers and in any case, with Connection headers beside it, and any such body are consumed by one call, which reports the head, the chunks' data and one complete message; then the parser waits for a request, or is dead if and only if the option close is seen in the head or the trailer |
| HttpChunks.HexRead | tools/wrk/src/http_parser.c:1888-1923 | every size up to 2^64 - 17 is read back from its hex spelling |
| HttpShape.RunShape | tools/wrk/src/http_parser.c:699-1997 | in the log of any accepted input, header names and header values take turns |
| HttpShape.CallShape | tools/wrk/src/http_parser.c:631-2029 | the same over calls, including the end of the input |
| WrkResponse.PackCanonical | tools/wrk/src/wrk.c:298-316 | splitting the data of a callback does not change what is packed |
| WrkResponse.PackedPairs | tools/wrk/src/wrk.c:298-316 | the packed text is the NUL-separated list of the names and values of the log |
| WrkResponse.OrderOfCalls | tools/wrk/src/wrk.c:308-316 | no value callback comes before the first name callback, so a separator always has a buffer to go to |
| WrkResponse.Buffer.Append | tools/wrk/src/script.c:557-566 | appends in a buffer that grows, and leaves room for one more byte |
| WrkResponse.Buffer.Separate | tools/wrk/src/wrk.c:301-301 | the unchecked write of a separator stays inside the buffer |
| WrkResponse.Buffer.Reset | tools/wrk/src/script.c:568-570 | empties the buffer and keeps its storage |
| WrkResponse.Connection.HeaderField | tools/wrk/src/wrk.c:298-306 | a separator after a value, then the bytes; there is room for the separator |
| WrkResponse.Connection.HeaderValue | tools/wrk/src/wrk.c:308-316 | a separator after a name, then the bytes; there is room for the separator |
| WrkResponse.Connection.Receive | tools/wrk/src/wrk.c:298-322 | the callbacks of a response leave exactly the packed headers and the body in the two buffers |
| WrkResponse.Buffer.PushString | tools/wrk/src/script.c:572-576 | the text up to the next NUL and the place behind it, which may lie behind the cursor |
| WrkResponse.Buffer.Unpack | tools/wrk/src/script.c:167-176 | unpacking gives back the list of headers whose encoding the buffer begins with, until the cursor is reached or passed |
| WrkResponse.Connection.Complete | tools/wrk/src/wrk.c:337-341 | what Lua gets for any response and what the connection keeps: its pairs and body, nothing when there is no header buffer yet, or one pair with a left-over of an earlier response when it has no header |
| WrkResponse.DeliveredExactly | tools/wrk/src/wrk.c:337-341 | Lua gets just what a response holds if and only if it has a header and no body was kept before it |
| WrkResponse.BodiesConserved | tools/wrk/src/wrk.c:318-341 | over any number of responses the texts that Lua gets and what is kept are the bodies in order |
| WrkResponse.CutsDeliver | tools/wrk/src/wrk.c:426-448 | the reads of a response are all accepted exactly when its cuts fit, and then lead to the log of the whole response, with names and values in turns |
| WrkResponse.ReadResponse | tools/wrk/src/wrk.c:298-341 | from the reads to Lua: however a response is cut, if the cuts fit, headers and body delivered are those of the whole response, together with what the connection kept |
| WrkRequest.Wrk.Format | tools/wrk/src/wrk.lua:50-72 | prints the request of its arguments and defaults, each table entry once in some order, and completes the passed table with Host and Content-Length, or removes the latter |
| WrkRequest.PrintedIsGood | tools/wrk/src/wrk.lua:50-72 | with an accepted method and target and ordinary headers, the printed text is a request that the parser reads back, whatever the order of the table |
| WrkRequest.Locate | tools/wrk/src/script.c:286-294 | line and column of the end of the parsed text, counted from one |
| WrkRequest.VerifyRequest | tools/wrk/src/script.c:268-301 | accepts exactly the texts of which every byte was used and in which a message was completed, with their number; otherwise gives the error and its place; the error and the byte count are those of the fold |
| WrkRequest.AcceptedExactly | tools/wrk/src/script.c:276-296 | a text is accepted if and only if some request in it was completed and either it was read whole without error or the header limit was passed inside a header name or value that, as far as the parser looked, does not end |
| WrkRequest.TailUnread | tools/wrk/src/script.c:276-296 | good requests followed by a request line and a header whose value has no line end in its first 80 KiB are accepted with their number, whatever follows |
| WrkRequest.UnnoticedError | tools/wrk/src/script.c:276-296 | one good request, then a request with a value of 90000 bytes, then anything: accepted with count 1 |
| WrkRequest.ErrorAtEnd | tools/wrk/src/http_parser.c:1465-1625 | an error has used the whole text exactly when it is that of the header size check at its end; every other error leaves a byte unused |
| WrkRequest.GoodRequestsAreCounted | tools/wrk/src/script.c:262-301 | a script that returns k good requests is accepted with k as the pipeline depth |
| UrlParser.DigitsEnd | tools/wrk/src/http_parser.c:2369-2370 | where a number ends: behind digits only, and in front of no digit |
| UrlParser.Strtoul | tools/wrk/src/http_parser.c:2369-2370 | the value of the digits up to the first other byte, saturating |
| UrlParser.Url.Scan | tools/wrk/src/http_parser.c:2288-2344 | the first pass refuses exactly what parse_url_char refuses, and leaves consecutive spans that cover the text up to delimiters |
| UrlParser.Url.ParseHost | tools/wrk/src/http_parser.c:2193-2273 | the second pass parts the authority into user information, host and port, exactly when the host automaton accepts it, and touches no other field |
| UrlParser.Url.Parse | tools/wrk/src/http_parser.c:2280-2382 | fails exactly in the five listed cases; otherwise the text is laid out as schema, user information, host, port, path, query and fragment, and port is the decimal value of its span |
| UrlParser.SpansTile | tools/wrk/src/http_parser.c:2280-2382 | the fields of an accepted URL lie in the text, are disjoint and in order, and every byte outside them is a delimiter |
| UrlParser.NextByte | tools/wrk/src/http_parser.c:484-629 | one step of parse_url_char keeps the layout of the first pass |
| UrlParser.NextHostByte | tools/wrk/src/http_parser.c:2111-2191 | one step of http_parse_host_char keeps the layout of the authority |
| Stats.Histogram.constructor | tools/wrk/src/stats.c:10-16 | a new histogram has no samples |
| Stats.Histogram.Record | tools/wrk/src/stats.c:22-31 | accepts exactly the values below the limit, counts the value once, and keeps count, min and max exact |
| Stats.Histogram.Correct | tools/wrk/src/stats.c:33-43 | cell m becomes the sum of the old cells m, m + e, m + 2e, … up to max if m is above e, and stays otherwise; count stays the sum |
| Stats.Histogram.Spread | tools/wrk/src/stats.c:35-41 | the inner loop adds the old value of cell n to the cells n - e, n - 2e, … above e |
| Stats.LevelDown | tools/wrk/src/stats.c:37-41 | one turn of the inner loop: the next cell below is the only one that changes |
| Stats.Histogram.Percentile | tools/wrk/src/stats.c:80-88 | the sample at index floor(p * count / 100) of any ascending list of the samples; 0 when there is none |
| Stats.PercentileMonotone | tools/wrk/src/stats.c:80-88 | percentiles rise with p |
| Stats.SamplesAreUnique | tools/wrk/src/stats.c:80-88 | an ascending list of the samples is determined by the cells |
| Stats.Histogram.PopCount | tools/wrk/src/stats.c:90-96 | the number of different recorded values |
| Stats.Histogram.ValueAt | tools/wrk/src/stats.c:98-107 | the recorded value with this index in ascending order and how often it was recorded; 0 and the number of values beyond the last |
| Stats.DistinctAscends | tools/wrk/src/stats.c:90-107 | the values are listed in strictly ascending order, each recorded value and no other |
| StatsThreads.StepMoves | tools/wrk/src/stats.c:22-31 | min only falls and max only rises, each to a recorded value; no recorded value is lost |
| StatsThreads.StepKeeps | tools/wrk/src/stats.c:22-31 | every atomic step of any thread keeps: sum(data) - count is the number of threads between their adds, and each recorded value is covered by min and max or by a thread that still owes it |
| StatsThreads.RunKeeps | tools/wrk/src/stats.c:22-31 | the same in every state that any number of threads can reach |
| StatsThreads.RecordedExactly | tools/wrk/src/stats.c:22-31 | when all calls have returned, every accepted value is counted, the total is right, and min and max are exact |
| StatsThreads.WorkFalls | tools/wrk/src/stats.c:26-29 | a thread comes closer to its return with each of its steps, and no other thread sets it back |
| StatsThreads.CallReturns | tools/wrk/src/stats.c:22-31 | a call returns within a number of its own steps that is known in advance, whatever the other threads do |
| AeTimers.Later | tools/wrk/src/ae.c:189-201 | exactly that many milliseconds later, normalised for non-negative delays |
| AeTimers.EventLoop.CreateTimeEvent | tools/wrk/src/ae.c:203-220 | the new timer is the head, with the next id; the other timers stay |
| AeTimers.EventLoop.DeleteTimeEvent | tools/wrk/src/ae.c:222-233 | ends the timer with this id, and reports whether there was one |
| AeTimers.EventLoop.Unlink | tools/wrk/src/ae.c:293-304 | taking out a marked node keeps the list linked and acyclic and loses no other node |
| AeTimers.EventLoop.Turn | tools/wrk/src/ae.c:315-329 | the turn of one live timer, with a callback that creates and deletes timers |
| AeTimers.EventLoop.Step | tools/wrk/src/ae.c:288-332 | one node of the walk: what comes after it is untouched, the id never exceeds maxId, and the meaning changes as one visit |
| AeTimers.EventLoop.ProcessTimeEvents | tools/wrk/src/ae.c:262-334 | a pass over the list with lazy deletion and re-entrant callbacks is one visit of each timer in a finite map; it reports the timers that fired |
| AeTimers.EventLoop.SearchNearestTimer | tools/wrk/src/ae.c:246-259 | a timer that none is earlier than |
| AeTimers.EventLoop.Timeout | tools/wrk/src/ae.c:354-398 | whether the loop polls, for all flags, and for how long: not at all with AE_DONT_WAIT, for ever without timers to wait for, and otherwise never past the first due time, and up to it if none is due |
| AeTimers.EventLoop.IdsBound | tools/wrk/src/ae.c:203-220 | ids strictly decrease from the head and include every live timer |
| AeTimers.EachDueTimerOnce | tools/wrk/src/ae.c:285-334 | a pass fires each timer at most once, and exactly those that were live at its start, due, and not deleted before their turn; never a new one |
| AeTimers.NothingIsLost | tools/wrk/src/ae.c:285-334 | a live timer, old or new, survives a pass unless a callback deletes it or returns AE_NOMORE, and keeps its time unless it fired |
| AeEvents.EventLoop.constructor | tools/wrk/src/ae.c:63-92 | all masks are empty and the back end agrees |
| AeEvents.EventLoop.CreateFileEvent | tools/wrk/src/ae.c:135-153 | merges the mask, or fails and changes nothing; maxfd and the mirror stay right exactly when the slot ends up with a mask or the empty call is harmless |
| AeEvents.EventLoop.DeleteFileEvent | tools/wrk/src/ae.c:155-171 | removes the mask and finds the new maxfd; the back end equals the table afterwards if and only if the kernel did its part or nothing changed |
| AeEvents.EventLoop.ResizeSetSize | tools/wrk/src/ae.c:106-122 | succeeds exactly when no used descriptor is cut off and the back end allows it; no mask changes |
| AeEvents.EventLoop.ApiAddEvent | tools/wrk/src/ae_epoll.c:73-88 | the back end's interest after adding; epoll is asked to add exactly the unknown descriptors |
| AeEvents.EventLoop.ApiDelEvent | tools/wrk/src/ae_epoll.c:90-106 | the back end's interest after removing, also when the kernel fails; epoll is never asked about an unknown descriptor |
| AeEvents.EventLoop.PollEpoll | tools/wrk/src/ae_epoll.c:108-131 | the events of epoll_wait with errors and hang-ups as writable |
| AeEvents.EventLoop.EpollSees | tools/wrk/src/ae_epoll.c:108-131 | through epoll, the fired events are exactly the registered masks that are ready, with broken descriptors as writable |
| AeEvents.EventLoop.PollSelect | tools/wrk/src/ae_select.c:77-102 | through select, the fired events are exactly the registered masks that are ready |
| AeEvents.EpollAfterAdd | tools/wrk/src/ae_epoll.c:73-88 | after adding, epoll's interest is the table if and only if the slot has a mask |
| AeEvents.SelectAfterAdd | tools/wrk/src/ae_select.c:62-68 | setting bits keeps the sets equal to the table |
| AeEvents.SelectAfterDelete | tools/wrk/src/ae_select.c:70-75 | clearing bits keeps the sets equal to the table |
| Handoff.Connection.HandleRead | src/worker.c:65-100 | reads into the free part of the buffer and decides whether to close; a kept connection has room for another read |
| Handoff.AcceptKeeps | src/master.c:74-90 | accepting a socket gives it one reference and the next worker in turn |
| Handoff.SendKeeps | src/net.c:42-69 | a sent descriptor is one more reference, held by one message for one worker; a failed send adds none |
| Handoff.ReceiveKeeps | src/worker.c:131-157 | receiving moves the message's reference to a new connection, or drops it on failure |
| Handoff.CloseKeeps | src/worker.c:7-13 | closing drops the worker's reference and frees a connection that no later event of the batch names |
| Handoff.HandledIsAllocated | src/worker.c:159-171 | the connection of an event has not been freed, is to be kept alive and has room in its buffer |
| Handoff.StepKeeps | src/worker.c:117-173 | every step of the master and of any worker keeps all of it |
| Handoff.RunKeeps | src/master.c:60-98 | the same in every state that one master and any number of workers can reach |
| Handoff.OneHolder | src/master.c:89-96 | a socket is with at most one worker, in a message or open but not both, and its reference count is the number of its holders |
| Handoff.FairDispatch | src/master.c:89-90 | the numbers of sockets sent to any two workers differ by at most one |
| WrkConnection.Connection.SocketConnected | tools/wrk/src/wrk.c:362-382 | an opened connection may write, asks to, and has nothing on its way; the client's counters agree with the exchange |
| WrkConnection.Connection.SocketWriteable | tools/wrk/src/wrk.c:384-424 | whenever it is called, the closed loop permits the write: it begins a new text only when nothing is on its way, and goes on with the old one otherwise; the client's counters agree with the exchange again |
| WrkConnection.Connection.ResponseComplete | tools/wrk/src/wrk.c:324-360 | reading an answer is pending work; the last one of a batch, and no other, records a latency and asks to write again; the client's counters agree with the exchange again |
| WrkConnection.SessionKeeps | tools/wrk/src/wrk.c:324-424 | every move of client, socket and server keeps: answers read, given, requests read and bytes sent never overtake one another, and the answers read cover the finished batches |
| WrkConnection.RunKeeps | tools/wrk/src/wrk.c:324-424 | the same in every state of any run, with any text for each batch |
| WrkConnection.ClosedLoop | tools/wrk/src/wrk.c:324-424 | at most one batch is unanswered, and the client may write exactly while a batch is unfinished or nothing is unanswered |

## Left out

- HttpExecute.HttpParser.Execute: buffers of nearly 4 GiB, for which the 32-bit counter `nread` could wrap; after an error the rest of the record, the counter and data that no callback has reported yet, on which wrk does not rely.
- HttpRequests.PipelinedRoundTrip: CONNECT, upgrades, and headers that change framing other than Content-Length.
- WrkResponse.ReadResponse: responses that end with the connection, headers that hold a NUL, and further responses in the same reads; `http_parser_init` runs inside the callback there, and here once per response. A connection that is opened again in the middle of a response keeps its buffers, which is not modelled.
- HttpChunks.EndingRun: trailers with Content-Length or Upgrade headers, or with values that are continued on the next line.
- HttpChunks.ChunkedRequest: heads with Content-Length or Upgrade headers beside the coding, or with values that are continued on the next line.
- HttpValues.ConnectionLine: values that are continued on the next line.
- HttpValues.CodingLine: values that are continued on the next line.
- HttpCuts.PipelinedCuts: heads above 40 KiB whose own cuts, but not those of the whole pipeline, fit below the limit; the exact condition is that of `HttpSplit.SplitMany`.
- WrkResponse.Connection.Complete: headers that hold a NUL, at which Lua would see a string end.
- WrkConnection.Connection.SocketWriteable: delay scripts, and scripts whose texts hold another number of requests than the one that was verified.
- Stats.Histogram.Correct: an expected interval of 2^62 or more, for which doubling it would overflow; its only caller is commented out.
- StatsThreads.RecordedExactly: counters that wrap after 2^64 calls.
- WrkConnection.ClosedLoop: delay scripts, where a delay timer that fires while a connection is being opened again would replace its handler; and scripts whose texts hold another number of requests than the one that was verified, for which the count of pending answers is wrong; and servers that answer more than they were asked.
- Stats.Histogram.Percentile: the rounding of `long double` and of `round`; exact reals stand for both.
- UrlParser.Url.Parse: texts of more than 65535 bytes, whose offsets do not fit the 16-bit fields; the digits of a port end at the latest with the text, which the C code takes to be followed by a NUL.
- AeTimers.EventLoop.ProcessTimeEvents: finalizers, which wrk never passes, callbacks that process events themselves, and ids beyond 2^63.
- Handoff.RunKeeps: shutdown; a worker's descriptors are closed by its exit.
- Pausing the parser, callbacks that edit it, and detection of requests or responses by HTTP_BOTH beyond the invariant.
- The dispatch of fired file events to their handlers (`tools/wrk/src/ae.c:401-419`), which adds one condition per call.
- Forge's request parser (`src/http/parser.c`): its scan moves by two bytes rather than by lines, and it reads a buffer that is not terminated; the worker takes its answer as given.
- Requests that arrive together at a Forge worker: `rlen = 0` discards what follows the first.
- `tools/wrk/src/ae_evport.c`, which expects the mask to be updated before the call, while `ae.c` updates it afterwards.
- Floating-point mean and deviation, unit formatting, allocation failure, sockets, TLS, the Lua machine, signals and the clock: parameters or steps of the environment where they matter.
