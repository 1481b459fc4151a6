# Verified models of the ecron network library

Dafny models of the library's state machines and algorithms, with proofs about all their inputs, runs or
schedules. `dafny verify dfyconfig.toml` checks the whole project.

**HTTP request parser** (`HttpChars`, `HttpParser`, `HttpInvariant`, `HttpRun`, `HttpMarks`, `HttpExecute`,
`HttpCutting`, `HttpFraming`, `HttpMessage`, `HttpNumbers`, `HttpNames`, `HttpElements`, `HttpLines`, `HttpOptions`,
`HttpCodings`, `HttpSteps`, `HttpRequestLine`, `HttpFields`, `HttpHeaders`, `HttpChunks`, `HttpRequest`, `HttpShapes`,
`HttpHeaderShapes`, `HttpAccepted`). `HttpParser` gives the parser one byte at a time: `Dispatch` is one turn of the
state switch, `Chain` the turns joined by `reexecute`, `Run` a run of single-byte calls.
`HttpExecute` is the loop itself, with its inner scans over header names, header values and bodies, its marks and
its header bytes counted in lumps; `Http.Execute` is proved to end in the same parser and to deliver the same
callbacks as `Run`; when `Run` ends in an error, so does it, with the same callbacks but for the data callback that the
error cuts short. From that follows that cutting a stream makes no difference. `HttpFraming` is an
independent automaton over callbacks that says what sections 3.3.3 and 4.1 of RFC 7230 ask of message framing; every
run of the parser is accepted by it, also one that ends in an error, and so are the callbacks of every call and of
every sequence of calls. `HttpMessage` says what lasts until the next message begins; `HttpNumbers`, `HttpNames`,
`HttpOptions` and `HttpCodings` say which digits, names, methods, connection options and transfer codings are accepted,
the last two over values that may be folded over several lines (`HttpElements` for the values, `HttpLines` for the
lines).
`HttpRequest` speaks of requests as text: a method, a URL, a version, header lines, and a body by its length or in
chunks. Such requests, one behind the other, lead to exactly the callbacks that the text says (`RequestRead`,
`RequestsRead`; `HttpRequestLine`, `HttpFields`, `HttpHeaders` and `HttpChunks` for the parts, on the exact single steps
of `HttpSteps`). `HttpAccepted` proves the converse, from the shapes in `HttpShapes` and `HttpHeaderShapes`: an input is
taken, up to the end of a message, if and only if it is a list of such requests (`AcceptedExactlyWhen`).
The model is strict mode, type HTTP_REQUEST, not lenient, with callbacks that return 0.

**URL parser** (`HttpUrl`, `HttpUrlGrammar`). The two automata of `http_parser_parse_url` and `http_parse_host`, as
loops over offsets, and a grammar of URLs that speaks of no automaton. The function accepts exactly the URLs of the
grammar, and every field lies where the grammar says.

**Lock-free queue** (`LockFreeQueue`, `LockFreeProgress`). The Michael-Scott queue as a transition system: one load,
compare-and-swap or counter update per step, any number of threads, weak compare-and-swap that may fail for no reason.
The invariant holds in every interleaving, and each step is a step of a sequential queue; what a link appends is the argument of its
thread's call to push. A thread that runs alone, wherever the others have stopped, ends its operation within twenty
steps; and a pop alone takes an item, a push alone adds one, exactly when the contents allow it.

**Integer formatting** (`Digits`, `FormatInt`, `FixedPoint`). Digit counts, the writers that put two digits at a
time, the fixed-point digit generator, the integer parser and the rounded product of significands, each equal to a plain
mathematical definition on its whole machine-word domain.

**Event-loop protocols** (`TimingWheel`, `CircularQ`, `ThreadPool`, `TcpConnection`). The timing wheel refines a
map from timers to ticks left, over any commands. While the logging pool is open its workers alone handle everything
that is posted; it shuts down without losing a message and without getting stuck. A connection has one write under way
at most, and drains its queue also behind a close.

**Byte streams and logs** (`Buffers`, `RpcChannel`, `RotatingFileSink`). The sliding buffer is a byte FIFO; the RPC
framing gives back what was packed under any fragmentation, and its bytes are those of a frame in network byte order;
for any messages the rotated log files read back as a suffix of all that was written, cut only between messages.

`Arith` holds facts of nonlinear arithmetic, `Words` the machine-word ranges and optional values, `Seqs` the joining of
sequences.

## Where the code does not do what it seems to promise

Each of these has a lemma that says exactly when the code does.

- Header bytes are counted in 32 bits and in lumps: of a header value of 2^32 bytes in one call nothing is counted
  (`LumpCountAgrees` for the counter; `LumpCountWraps` at such a call, which goes on where single bytes are refused).
- A header whose name only begins with `transfer-encoding`, such as Transfer-Encoding-X, counts as a use of it
  (`HeaderNameRecognised` for which names do, `TransferEncodingNotedTooOften` at that name).
- Not every option that a Connection line lists is recorded. A mere beginning of an option, such as `k`, swallows the
  comma behind it and so hides the next element; an empty element, or one that begins with no token character or a
  tab, hides all behind it; a tab next to an option hides that option; a fold hides the element it is in or behind, and
  all that follow. `ConnectionOptions` says which are recorded, for every value and however it is folded, and
  `ConnectionExactlyWhen` when that is all of them; `BeginningHidesClose` stands at "k, close", `TabHidesUpgrade` at
  "close,<tab>upgrade" and `FoldHidesClose` at "close" with a line of white space behind it.
- For the same reasons a Transfer-Encoding value that ends in chunked does not always make the message chunked
  (`ChunkedIsLast`, `ChunkedExactlyWhen`, and `TabHidesChunked` at "gzip,<tab>chunked").
- A message once taken for chunked stays so, whatever a further Transfer-Encoding header adds (`ChunkedExactlyWhen`
  for one more header, `ChunkedOverLines` for any number of them, `GzipStaysChunked` at chunked followed by gzip).
- The first byte of a header value is taken whatever it is, a control character too (`FirstByteUnchecked` says so of
  values that are not looked into; the grammar of `AcceptedExactlyWhen` allows it).
- Bytes from 0x80 on are read as the hexadecimal digit 0 in a chunk size, since the table has 128 entries. The digits
  are the usual ones for exactly the ASCII bytes (`UnhexIsHexadecimal`), an accepted chunk size is what is written
  exactly if all its bytes are ASCII (`ChunkSizeIsWritten`), and the byte 0x80 alone ends a chunked body
  (`HighByteEndsChunks`).
- The guards against 64-bit overflow refuse some lengths that would still fit: a Content-Length is accepted exactly
  below 2^64 - 6 and a chunk size exactly below 2^64 - 16 (`LengthsBelow`, `ChunkSizesBelow`;
  `LargeLengthRefused` at 18446744073709551610 and `LargeSizeRefused` at FFFFFFFFFFFFFFF0).
- Offsets and lengths in a URL are stored in 16 bits: a field is stored as it lies exactly if both are below 2^16
  (`KeptExactlyWhen`), and the authority is taken apart as it lies if it ends below (`InReachExactlyWhen`);
  `LongPathVanishes` at a path of 65536 slashes.
- A timer whose interval is a multiple of 60 fires 60 ticks late, and never again even if it repeats; and one whose
  interval is near 2^64 can wait too long, since its slot sum wraps (`WaitsItsInterval`, `WholeTurnsFireOnceLate`,
  `OnTimeExactlyWhen`, and `LongestWaitsLonger` at 2^64 - 1).
- A pop takes a queue whose length is a multiple of 2^64 for an empty one, and a push compares the limit with the
  length modulo 2^64 (`PopTakesExactlyWhen`, `PushLinksExactlyWhen`).
- A pool whose queue has no room for a single message hangs in its destructor (`DestructorNeverStuck`).
- A send-complete callback that sends at once while the queue of an open connection has just become empty starts
  two writes of one buffer (`CompletionKeepsExactlyWhen`, `OneWriteExactlyWhen`).
- RPC lengths survive exactly if meta and message together are shorter than 2^32 bytes (`LengthsSurvive`).
- The RPC loop never returns exactly if the stream holds a whole frame whose meta cannot be decoded
  (`StuckExactlyWhen`, `NeverReturnsExactlyWhen`, and `BadMetaSpins` at such a frame).

## Model

| member | source | states |
|---|---|---|
| HttpChars.TokensAre | examples/http/http_parser.c:189-222 | the token table is the tchar of RFC 7230, read in lower case |
| HttpChars.UrlCharsAre | examples/http/http_parser.c:243-447 | the characters of URLs, user information and hosts, one by one, in strict mode |
| HttpParser.AgainLowersRank | examples/http/http_parser.c:712-2131 | a byte that is dispatched again is dispatched in a state of smaller rank, so every `reexecute` chain ends |
| HttpRun.FewTurns | examples/http/http_parser.c:712-2131 | every byte is handled in one to four dispatches, and only after the line feed of a header line in four |
| HttpInvariant.InitValid | examples/http/http_parser.c:2225-2234 | a fresh parser satisfies the invariant |
| HttpInvariant.DispatchOk | examples/http/http_parser.c:718-2125 | one turn of the switch keeps the invariant, and none of the program's asserts (content_length, nread, header state, unhandled state) can fail |
| HttpInvariant.ChainOk | examples/http/http_parser.c:718-2125 | the same for all turns of one byte |
| HttpInvariant.FeedOk | examples/http/http_parser.c:712-2125 | the same from the top of the loop, with the header bytes counted |
| HttpInvariant.SwitchStaysInside | examples/http/http_parser.c:971-1022 | a switch of the guessed method never leaves the old or the new method name |
| HttpInvariant.FieldStepOk | examples/http/http_parser.c:1256-1386 | the header-name matcher never reads past a name and never reaches its default assert |
| HttpInvariant.ValueStepOk | examples/http/http_parser.c:1482-1706 | the header-value matcher keeps its index inside the option names and content_length below the absent mark |
| HttpRun.RunConcat | examples/http/http_parser.c:641-2155 | a run over two inputs one behind the other is the run over the second from where the first ended |
| HttpRun.RunOk | examples/http/http_parser.c:641-2155 | the invariant and errno over every run |
| HttpRun.RunUsed | examples/http/http_parser.c:2147-2147 | a run that ends well and without an upgrade has consumed its whole input |
| HttpRun.ChainDiscipline | examples/http/http_parser.c:93-150 | between any two bytes exactly the mark of the state's data callback is set, whatever chain of turns led there |
| HttpMarks.FeedAgrees | examples/http/http_parser.c:682-710 | a byte inside a long input leaves the marks and callbacks in step with a call for that byte alone |
| HttpExecute.ScanField | examples/http/http_parser.c:1256-1384 | the scan of a header name with its inner loop ends at the first non-token byte, in step with byte-wise calls |
| HttpExecute.FieldTurn | examples/http/http_parser.c:1256-1392 | the turn for a header name, with its lump count, is in step with byte-wise calls and consumes input |
| HttpExecute.ScanValue | examples/http/http_parser.c:1482-1702 | the scan of a header value, with its skip to a line end and its `--p`, is in step with byte-wise calls |
| HttpExecute.ValueTurn | examples/http/http_parser.c:1482-1706 | the turn for a header value, with its lump count, is in step and consumes input |
| HttpExecute.BodyTurn | examples/http/http_parser.c:1944-2099 | taking many body bytes at once is taking them one by one |
| HttpExecute.Loop | examples/http/http_parser.c:712-2131 | the whole loop tracks the byte-wise run to the end, an upgrade or an error |
| HttpExecute.Http.constructor | examples/http/http_parser.c:2225-2234 | http_parser_init for a request |
| HttpExecute.Http.ExecuteEof | examples/http/http_parser.c:660-681 | a call for the end of input reports an error exactly inside a message, and completes a message that waits for it |
| HttpExecute.LikeFramed | examples/http/http_parser.c:93-150 | callbacks that agree with well framed ones but for a data callback cut short by an error are well framed |
| HttpExecute.Http.Execute | examples/http/http_parser.c:641-2155 | execute ends in the parser fields, the callbacks and the byte count of single-byte calls; it fails when they fail, with their error unless that is the header overflow, and their callbacks but for the one cut short; the callbacks stay well framed in every case |
| HttpCutting.CuttingNeverMatters | examples/http/http_parser.c:641-2155 | two ways of cutting a stream end in the same parser, callbacks, bytes and verdict |
| HttpCutting.FeedPieces | examples/http/http_parser.c:641-2155 | execute called on pieces does what one run over the whole stream does, also where it ends in an error, and the callbacks stay well framed |
| HttpCutting.LumpCountAgrees | examples/http/http_parser.c:154-162 | counting a lump equals counting each byte if and only if the lump stays within the limit or does not wrap back to it |
| HttpCutting.LumpCountWraps | examples/http/http_parser.c:1482-1706 | a call with 2^32 bytes of a header value: execute delivers them all and counts none, while single bytes end in the header overflow |
| HttpFraming.StageOfEmit | examples/http/http_parser.c:93-150 | joining data callbacks hides nothing from the framing automaton |
| HttpFraming.RunFramed | examples/http/http_parser.c:712-2131 | the callbacks of every run, also of one that ends in an error, are accepted by the framing automaton |
| HttpFraming.CompleteBody | examples/http/http_parser.c:1874-2116 | in an accepted trace a completed message has exactly its announced body |
| HttpFraming.EveryMessageIsFramed | examples/http/http_parser.c:1874-2116 | every message that any input completes, whatever comes behind it, delivered exactly Content-Length bytes, or the sum of its chunk sizes, or nothing |
| HttpFraming.CompletesOnce | examples/http/http_parser.c:1987-1994 | between two completions exactly one message begins, and it begins first |
| HttpFraming.BodyInOrder | examples/http/http_parser.c:1944-1979 | a part of a body is delivered as it came in, in order |
| HttpFraming.WholeChunk | examples/http/http_parser.c:2078-2099 | a chunk delivers its announced bytes, all and in order, and then expects its line end |
| HttpFraming.WholeBody | examples/http/http_parser.c:1944-1994 | a body of known length delivers its bytes in order and then completes the message |
| HttpNumbers.ContentLengthExact | examples/http/http_parser.c:1537-1576 | a Content-Length of any number of digits is accepted exactly within the guard, and is then the decimal value, without wrap |
| HttpNumbers.LengthsBelow | examples/http/http_parser.c:1537-1576 | a digit string is accepted exactly if its value is below 2^64 - 6 |
| HttpNumbers.LargeLengthRefused | examples/http/http_parser.c:1558-1566 | 2^64 - 6 fits 64 bits and is refused |
| HttpMessage.RunLasts | examples/http/http_parser.c:718-2125 | over every run in which no further message begins, the flags chunked and content-length once set stay set |
| HttpNumbers.SecondLengthRefused | examples/http/http_parser.c:1436-1450 | once the first digit of a Content-Length is taken, then over every run within the message the first digit of another one is refused, with its own error unless the header is too long |
| HttpNumbers.EmptyLengthRefused | examples/http/http_parser.c:1759-1782 | a Content-Length without a digit is refused at its line end |
| HttpNumbers.ChunkSizeExact | examples/http/http_parser.c:1996-2047 | a chunk size of any number of digits is accepted exactly within the guard, and is then the hexadecimal value in the parser's digits, without wrap |
| HttpNumbers.ChunkSizesBelow | examples/http/http_parser.c:1996-2047 | a chunk size is accepted exactly if it is below 2^64 - 16 |
| HttpNumbers.LargeSizeRefused | examples/http/http_parser.c:2031-2044 | 2^64 - 16 fits 64 bits and is refused |
| HttpNumbers.UnhexIsHexadecimal | examples/http/http_parser.c:224-233 | the table is the usual hexadecimal digits on exactly the ASCII bytes, and 0 beyond |
| HttpNumbers.ChunkSizeIsWritten | examples/http/http_parser.c:1996-2047 | an accepted chunk size is what its bytes write in hexadecimal if and only if they are all ASCII |
| HttpNumbers.HighByteEndsChunks | examples/http/http_parser.c:1996-2075 | the line of the one byte 0x80 is taken for the last chunk |
| HttpNames.FieldStepMeans | examples/http/http_parser.c:1256-1375 | the matcher's state and index say which names the bytes read can still become |
| HttpNames.HeaderNameRecognised | examples/http/http_parser.c:1206-1392 | a header is recognised if and only if its name, in any case of letters, is one looked for; when transfer-encoding is noted |
| HttpNames.TransferEncodingNotedTooOften | examples/http/http_parser.c:1339-1351 | the header Transfer-Encoding-X is not recognised as Transfer-Encoding and noted as a use of it |
| HttpNames.GuessBeginsAsRead | examples/http/http_parser.c:927-1022 | whatever the guessed method, it begins with the bytes read |
| HttpNames.EveryMethodGuessed | examples/http/http_parser.c:927-1022 | every method is reached by the switches of guess on its own name |
| HttpNames.MethodRecognised | examples/http/http_parser.c:927-1022 | a method is accepted if and only if it is one of the 34 names, and then it is that one |
| HttpElements.IsMeansBare | examples/http/http_parser.c:1579-1690 | what the parser takes for a name is the name with spaces or tabs around it, as long as there is no tab |
| HttpElements.AllHeeded | examples/http/http_parser.c:1579-1690 | the parser looks at every element if and only if each before the last is not empty, begins with a token character unless it is the first, does not swallow its comma and is torn by no fold |
| HttpOptions.ConnStep | examples/http/http_parser.c:1614-1690 | over every byte the matcher's state says which option the element can still be, and each flag is set exactly if it was or an element that was looked at is its option |
| HttpOptions.ConnectionOptions | examples/http/http_parser.c:1614-1749 | for every value and any folds in it: once the next header field begins, exactly the options in elements that are looked at and that neither a fold nor a tab spoils have been recorded |
| HttpOptions.ConnectionExactlyWhen | examples/http/http_parser.c:1614-1749 | each flag is right, set exactly if it was set or the option is listed, if and only if it was set or the option, when listed, is in such an element |
| HttpElements.BeginningHidesNext | examples/http/http_parser.c:1633-1662 | anywhere in a value, a mere beginning of an option hides the next element and no more |
| HttpElements.BadStartHidesRest | examples/http/http_parser.c:1614-1631 | behind an empty element, one that begins with no token character or a tab, or one that a fold tears, nothing is looked at |
| HttpOptions.BeginningHidesClose | examples/http/http_parser.c:1633-1662 | "k, close" lists close and records nothing |
| HttpOptions.TabHidesUpgrade | examples/http/http_parser.c:1614-1631 | "close,<tab>upgrade" lists upgrade and records only close |
| HttpLines.FoldRun | examples/http/http_parser.c:1719-1733 | a line end followed by a blank goes on with the value and forgets every matcher but one that looks for the beginning of an element |
| HttpOptions.FoldHidesClose | examples/http/http_parser.c:1719-1749 | "close", a line end and a line with a space list close and record nothing |
| HttpCodings.ChunkedIsLast | examples/http/http_parser.c:1579-1749 | for every value and any folds in it, a Transfer-Encoding header makes a message chunked exactly if its last element is looked at, is chunked and is spoilt by neither a fold nor a tab; what was set stays |
| HttpCodings.ChunkedExactlyWhen | examples/http/http_parser.c:1579-1749 | behind a Transfer-Encoding header chunked is set exactly if it is the last coding, as section 3.3.3 of RFC 7230 asks, if and only if, in a message that was chunked before, it still is the last one, and in any other, it is not overlooked in the last place |
| HttpCodings.TabHidesChunked | examples/http/http_parser.c:1579-1597 | "gzip,<tab>chunked" ends in chunked and the message is not taken for chunked |
| HttpCodings.ChunkedOverLines | examples/http/http_parser.c:1579-1749 | the same over any number of Transfer-Encoding lines from the start of a header field on |
| HttpCodings.GzipStaysChunked | examples/http/http_parser.c:1719-1903 | the lines "Transfer-Encoding: chunked" and "Transfer-Encoding: gzip" and a blank one lead to the first chunk size |
| HttpOptions.ClosedTakesOnlyLineEnds | examples/http/http_parser.c:721-729 | a connection that is not kept alive accepts exactly line ends |
| HttpOptions.CloseIsLast | examples/http/http_parser.c:2189-2204 | with the close flag no further request is accepted |
| HttpRequestLine.RequestLineRead | examples/http/http_parser.c:927-1204 | a method name, a URL and a version, with any spaces between, lead to exactly the parser that holds them, and the application hears that a message begins and its URL |
| HttpHeaders.LineRead | examples/http/http_parser.c:1206-1782 | a header line, with blanks and folds before and in its value, teaches the parser what its name and value say and nothing else, and the application hears both; the line is complete with the byte behind it |
| HttpHeaders.LinesRead | examples/http/http_parser.c:1206-1782 | the same for any header lines one behind the other |
| HttpHeaders.FirstByteUnchecked | examples/http/http_parser.c:1408-1480 | the first byte of a value is taken whatever it is, a further one only if it is a header character |
| HttpChunks.SizeLineRead | examples/http/http_parser.c:1996-2076 | behind a chunk-size line, with any extension, the announced length is the hexadecimal value of its digits, and the application is told it |
| HttpChunks.ChunksRead | examples/http/http_parser.c:1996-2116 | chunks as text deliver their sizes, their bytes and their ends, in order |
| HttpRequest.LengthDeliversBody | examples/http/http_parser.c:641-2155 | a request with one Content-Length and no transfer coding, read by a fresh parser, announces and delivers exactly as many bytes as its digits say, completes, and leaves the connection open by its version and options |
| HttpRequest.RequestRead | examples/http/http_parser.c:641-2155 | every well-formed request, with a body of known length, in chunks with a trailer, or none, delivers exactly what its text says and leaves the parser ready, closed or upgraded |
| HttpRequest.RequestsRead | examples/http/http_parser.c:641-2155 | the same for requests one behind the other |
| HttpShapes.RequestLineShape | examples/http/http_parser.c:927-1204 | what is taken as a request begins with a request line of the grammar |
| HttpHeaderShapes.FitsNeeded | examples/http/http_parser.c:1436-1450 | a Content-Length line that is taken holds a length, and is the first of its message |
| HttpHeaderShapes.LinesShape | examples/http/http_parser.c:1206-1800 | what is taken as a header block is header lines of the grammar and a blank line |
| HttpAccepted.HeadNeeded | examples/http/http_parser.c:1795-1942 | the blank line is taken only if the header lines agree on how the body is framed |
| HttpAccepted.ChunkedShape | examples/http/http_parser.c:1996-2122 | what is taken as a chunked body is chunks, a last chunk and a trailer |
| HttpAccepted.RequestsShape | examples/http/http_parser.c:641-2155 | what is taken up to the end of a message is requests of the grammar and line ends behind them |
| HttpAccepted.AcceptedExactlyWhen | examples/http/http_parser.c:641-2155 | a fresh parser takes an input up to the end of a message if and only if it is a list of well-formed requests, of which only the last may close or upgrade; and then its callbacks are exactly what they say |
| HttpUrl.Forward | examples/http/http_parser.c:494-639 | the URL automaton never goes back, and a byte of no field is one of `:/?#` |
| HttpUrl.KeptExactlyWhen | examples/http/http_parser.h:365-377 | a field is stored as it was found if and only if its offset and its length are below 2^16 |
| HttpUrl.FindParts | examples/http/http_parser.c:2423-2489 | for a URL of any length the loop finds every field exactly where the automaton is in it, ordered and disjoint, the other bytes being delimiters, and stores 16 bits of the offsets and lengths |
| HttpUrl.SplitsUnique | examples/http/http_parser.c:2255-2333 | an authority can be read as user information, host and port in one way only |
| HttpUrl.SplitsComplete | examples/http/http_parser.c:2255-2333 | every authority of the grammar is accepted by the automaton |
| HttpUrl.ParseHost | examples/http/http_parser.c:2336-2412 | at any place in a buffer of any length, the authority is accepted exactly if it is one by the grammar, and is then userinfo, host and port in order with nothing over, of which 16 bits are stored |
| HttpUrl.ParsePort | examples/http/http_parser.c:2520-2540 | the port is the decimal value of its digits, or refused above 65535; the sum is taken in a machine word |
| HttpUrlGrammar.States | examples/http/http_parser.c:494-639 | the bytes of schema, authority, path, query and fragment lead the automaton through the states of these parts |
| HttpUrlGrammar.AcceptsIsAdmits | examples/http/http_parser.c:2423-2543 | what the automata and the checks behind them let pass are exactly the URLs of the grammar |
| HttpUrlGrammar.UrlFieldsLie | examples/http/http_parser.c:2423-2543 | the fields found by the automata lie where the grammar says |
| HttpUrlGrammar.InReachExactlyWhen | examples/http/http_parser.c:2423-2489 | the authority of a URL of the grammar ends below 2^16 if and only if its path begins there, or there is no authority |
| HttpUrlGrammar.ParseUrl | examples/http/http_parser.c:2423-2543 | a URL of any length whose authority ends below 2^16 is accepted if and only if it is one by the grammar (`IsUrl`), and then every field lies where the grammar says, as far as 16 bits go, and the port is the number its digits say |
| HttpUrlGrammar.LongPathVanishes | examples/http/http_parser.c:2423-2489 | a URL of 65536 slashes is accepted with a path of length 0 |
| LockFreeQueue.InitInv | code/LockFreeQueue.hpp:45-54 | the invariant after init |
| LockFreeQueue.StepRefines | code/LockFreeQueue.hpp:56-142 | a successful link appends its value, a successful head CAS hands out the front value, no other step changes the contents |
| LockFreeQueue.StepKeepsData | code/LockFreeQueue.hpp:63-94 | the value in a node never changes |
| LockFreeQueue.LinksItsArgument | code/LockFreeQueue.hpp:56-94 | in every interleaving a successful link appends the argument of the push that its thread is in |
| LockFreeQueue.RunKeeps | code/LockFreeQueue.hpp:56-142 | the invariant in every interleaving of any number of threads |
| LockFreeQueue.TakenIsPrefixOfLinked | code/LockFreeQueue.hpp:56-142 | the values taken are in order a prefix of the values linked |
| LockFreeQueue.OneChain | code/LockFreeQueue.hpp:56-142 | one finite chain without repetition, head_ not past tail_, tail_ at most one link from the end |
| LockFreeQueue.CountIsLength | code/LockFreeQueue.hpp:92-92 | count_ is the queue length when no thread is between its CAS and its counter update |
| LockFreeQueue.ReachableNotFreed | code/LockFreeQueue.hpp:139-139 | nothing reachable from head_ or tail_ is deleted |
| LockFreeQueue.FreeKeeps | code/LockFreeQueue.hpp:139-139 | the delete of pop keeps the invariant: no node is deleted twice |
| LockFreeQueue.NextNodeNeverNull | code/LockFreeQueue.hpp:132-132 | next_node is an allocated node whenever it is dereferenced |
| LockFreeQueue.StepHeap | code/LockFreeQueue.hpp:63-94 | every allocated node is linked or held by one push |
| LockFreeQueue.Clear | code/LockFreeQueue.hpp:175-182 | clear deletes the nodes from head_ on, each once |
| LockFreeQueue.NoLeak | code/LockFreeQueue.hpp:139-182 | in every interleaving, what pops and clear delete together is every node ever allocated, each once |
| LockFreeProgress.PopAlone | code/LockFreeQueue.hpp:100-142 | from every reachable state, wherever other threads have stopped, a pop that runs alone ends, and takes the first item unless the counter or the queue says empty |
| LockFreeProgress.PushAlone | code/LockFreeQueue.hpp:56-94 | likewise a push that runs alone ends, and links its item unless the limit is reached by the counter |
| LockFreeProgress.PopTakesExactlyWhen | code/LockFreeQueue.hpp:100-142 | with no other operation pending a pop takes the first of the contents if and only if there are any, up to 2^64 of them |
| LockFreeProgress.PushLinksExactlyWhen | code/LockFreeQueue.hpp:56-94 | with no other operation pending a push appends its item if and only if there is no limit or the contents are below it, up to 2^64 of them |
| LockFreeProgress.EndsAlone | code/LockFreeQueue.hpp:56-142 | from every reachable state a thread that runs alone ends its operation within twenty steps |
| Digits.NumeralValue | code/spdlog/fmt/bundled/format.h:1253-1283 | the reference numeral has the value it denotes and no leading zero |
| Digits.TablePair | code/spdlog/fmt/bundled/format-inl.h:256-261 | entry p of the digit table is the two digits of p |
| FormatInt.AllBrackets | code/spdlog/fmt/bundled/format.h:1085-1086 | 1233/4096 is near enough to log10 2 for every bit length |
| FormatInt.CountDigitsExact | code/spdlog/fmt/bundled/format.h:1078-1087 | the clz count is the number of digits of every 64-bit value, and the power tables are read in bounds |
| FormatInt.CountDigitsLoop | code/spdlog/fmt/bundled/format.h:1090-1110 | the plain loop counts the digits |
| FormatInt.FormatDecimal | code/spdlog/fmt/bundled/format.h:1253-1283 | exactly num_digits cells are written and they are the numeral |
| FormatInt.Magnitude | code/spdlog/fmt/bundled/format.h:3742-3748 | two's complement negation gives the magnitude, also of the least number |
| FormatInt.Formatter.FormatUnsigned | code/spdlog/fmt/bundled/format.h:3717-3740 | the numeral is written at the end of the buffer and leaves a cell for the sign |
| FormatInt.Formatter.Signed | code/spdlog/fmt/bundled/format.h:3742-3764 | the text of every signed 64-bit number, inside the buffer |
| FormatInt.ParseNonnegativeInt | code/spdlog/fmt/bundled/format.h:1996-2020 | every run of digits with a value up to INT_MAX gives the value, every other is refused, without unsigned wrap |
| FixedPoint.QuotientError | code/spdlog/fmt/bundled/format.h:1163-1168 | the fixed-point quotient is off by less than one unit of the last digit, and 64 bits hold it |
| FixedPoint.NextDigits | code/spdlog/fmt/bundled/format.h:1170-1179 | the fraction times 10 or 100 brings out the next digits of u |
| FixedPoint.DecimalFormatter.OnLonger | code/spdlog/fmt/bundled/format.h:1160-1179 | three digits and more are written as the numeral of u |
| FixedPoint.DecimalFormatter.On | code/spdlog/fmt/bundled/format.h:1150-1182 | exactly the N + 1 digits of u are written, for every 32-bit u of that length |
| FixedPoint.LgIsLogarithm | code/spdlog/fmt/bundled/format.h:1122-1130 | lg picks the floor of the decimal logarithm |
| FixedPoint.FormatUint32 | code/spdlog/fmt/bundled/format.h:1122-1182 | lg with the formatter writes the numeral of every 32-bit number |
| FixedPoint.MulRoundedExact | code/spdlog/fmt/bundled/format-inl.h:305-315 | the limb product is floor((x y + 2^63) / 2^64) for all 64-bit x and y, and none of its products and sums leaves 64 bits |
| TimingWheel.WaitsItsInterval | code/TimingWheel.cpp:83-88 | a timer first waits its interval if and only if that is no multiple of 60 and the slot sum does not wrap |
| TimingWheel.LongestWaitsLonger | code/TimingWheel.cpp:83-88 | an interval of 2^64 - 1, added with the hand at 1, waits 44 ticks more |
| TimingWheel.Wheel.AddTimer | code/TimingWheel.cpp:60-73 | adding a timer adds its delay to the map of ticks left and changes nothing else |
| TimingWheel.Wheel.DelTimerLoop | code/TimingWheel.cpp:90-97 | deleting a timer removes it from the map and changes nothing else |
| TimingWheel.Wheel.Sweep | code/TimingWheel.cpp:110-127 | one timer of the swept bucket counts down, fires, returns or is lost |
| TimingWheel.Wheel.HandleTimeout | code/TimingWheel.cpp:99-130 | a tick of the wheel is a tick of the map, and exactly the timers that are due call back, once each |
| TimingWheel.Drive | code/TimingWheel.cpp:60-130 | any commands drive the wheel as their events drive the map, and every timer is called as often as they say |
| TimingWheel.KeepsSchedule | code/TimingWheel.cpp:99-130 | over every run, for all intervals, when a timer calls depends only on its own ticks left, interval and repetition and on where the hand is |
| TimingWheel.FiresOnTime | code/TimingWheel.cpp:83-130 | with an interval that is no multiple of 60 a timer fires after every interval, or once, unless its slot sum wraps |
| TimingWheel.WholeTurnsFireOnceLate | code/TimingWheel.cpp:83-130 | with a multiple of 60, and no wrapped slot sum, it fires 60 ticks late and never again |
| TimingWheel.OnTimeExactlyWhen | code/TimingWheel.cpp:83-130 | a timer is on time in every run if and only if its interval, any machine word, is no multiple of 60 and its slot sum wraps at none of the sixty places the hand can be at |
| TimingWheel.DeletedNeverFires | code/TimingWheel.cpp:90-97 | a deleted timer never calls back again in any run that does not add it, and no other timer is touched |
| CircularQ.Ring.PushBack | code/spdlog/details/circular_q.h:26-36 | append and keep the last max_items; the counter counts what was overrun |
| CircularQ.Ring.PopFront | code/spdlog/details/circular_q.h:40-44 | the oldest item goes |
| CircularQ.Ring.Empty | code/spdlog/details/circular_q.h:46-49 | empty exactly without items |
| CircularQ.Ring.Full | code/spdlog/details/circular_q.h:51-55 | full exactly with max_items |
| CircularQ.BlockingQueue.Enqueue | code/spdlog/details/mpmc_blocking_q.h:35-43 | a blocking enqueue goes on exactly when there is room, and overruns nothing |
| CircularQ.BlockingQueue.EnqueueNowait | code/spdlog/details/mpmc_blocking_q.h:46-53 | an enqueue that does not wait keeps the last max_items, and counts an overrun exactly of a full queue |
| CircularQ.BlockingQueue.DequeueFor | code/spdlog/details/mpmc_blocking_q.h:57-69 | the front item, or a timeout exactly of an empty queue; the overrun counter stays |
| CircularQ.Drive | code/spdlog/details/circular_q.h:26-60 | the ring, driven by any pushes and pops, has the history of the next row |
| CircularQ.NothingLostUnseen | code/spdlog/details/circular_q.h:26-60 | items leave in order, each popped or overrun once; overruns are pushes less pops less size |
| ThreadPool.StartInv | code/spdlog/details/thread_pool.h:113-127 | a pool starts exactly with one to a thousand workers, and then meets the invariant |
| ThreadPool.OpenPost | code/spdlog/details/mpmc_blocking_q.h:35-53 | while the pool is open a post without waiting is always possible and overruns the oldest message exactly if the queue is full, and one that waits is possible exactly if it is not |
| ThreadPool.QueueStep | code/spdlog/details/thread_pool.h:130-220 | every step keeps terminates queued plus terminates to post equal to the live workers, behind all messages |
| ThreadPool.WorkersStep | code/spdlog/details/thread_pool.h:182-220 | every step keeps each worker's handled messages equal to what it took |
| ThreadPool.RunKeeps | code/spdlog/details/thread_pool.h:130-220 | the invariant in every schedule |
| ThreadPool.HandledInOrder | code/spdlog/details/thread_pool.h:187-220 | each worker handles its messages in the order of posting |
| ThreadPool.RestIsDone | code/spdlog/details/thread_pool.h:182-193 | while the pool is open its workers are at rest only with an empty queue and every posted message handled once, or overrun |
| ThreadPool.WorkersComeToRest | code/spdlog/details/thread_pool.h:182-193 | the workers alone take at most two steps for every queued message and one for every message in hand |
| ThreadPool.SomeRest | code/spdlog/details/mpmc_blocking_q.h:57-69 | from every state of the invariant the workers alone come to rest |
| ThreadPool.EveryPostGetsItsTurn | code/spdlog/details/mpmc_blocking_q.h:35-69 | in an open pool, after any schedule, once the workers have come to rest everything posted is dealt with, and a post that waits is possible exactly if the capacity is at least 1 |
| ThreadPool.DestructorNeverStuck | code/spdlog/details/thread_pool.h:130-147 | in every schedule the shutdown can go on if and only if the capacity is at least 1 |
| ThreadPool.ShutdownIsShort | code/spdlog/details/thread_pool.h:130-147 | every schedule of the shutdown is at most as long as the work left |
| ThreadPool.Drained | code/spdlog/details/thread_pool.h:130-220 | after the destructor each message was handled exactly once, or was overrun and never handled |
| ThreadPool.ShutdownDrains | code/spdlog/details/thread_pool.h:130-220 | with blocking posts every message posted before destruction was handled exactly once |
| TcpConnection.Connection.Send | code/TcpConnection.cpp:90-98 | send_loop accepts while connected and starts a write exactly of an empty queue |
| TcpConnection.Connection.HandleSend | code/TcpConnection.cpp:156-175 | a completion pops the front, lets the callback send and close, and starts the next write |
| TcpConnection.CompletionKeepsExactlyWhen | code/TcpConnection.cpp:156-175 | one write stays under way if and only if the callback does not begin by sending into the queue of an open connection that has just become empty |
| TcpConnection.OneWriteExactlyWhen | code/TcpConnection.cpp:90-175 | the same over every run until the first failed write |
| TcpConnection.SentInOrder | code/TcpConnection.cpp:90-175 | completed writes are the accepted buffers in order, each once, and the rest is queued |
| TcpConnection.ClosedAcceptsNothing | code/TcpConnection.cpp:54-98 | once closed, a connection accepts nothing and stays closed over every run |
| TcpConnection.QueueDrains | code/TcpConnection.cpp:156-175 | also behind a close everything accepted is written in order, if the writes end well |
| TcpConnection.FailureIsFinal | code/TcpConnection.cpp:156-161 | behind a failed write the queue stays as it is and nothing is accepted, written or completed any more |
| Buffers.Buffer.Write | code/Buffer.cpp:30-45 | appends; storage grows exactly if old and new bytes do not fit it together, and then to less than the old ones and twice the new ones |
| Buffers.Buffer.HasWritten | code/Buffer.cpp:47-51 | counts bytes put in place, unless there are too many |
| Buffers.Buffer.HasReaded | code/Buffer.cpp:53-66 | drops n bytes, or all and frees the whole storage |
| Buffers.Buffer.ReadString | code/Buffer.cpp:73-83 | hands out the first n bytes or all |
| Buffers.Buffer.Compact | code/Buffer.cpp:106-108 | the overlapping copy moves the readable bytes unharmed |
| Buffers.Buffer.MakeSpace | code/Buffer.cpp:96-112 | compaction and growth keep the readable bytes and make the room; storage grows exactly if compaction is not enough |
| Buffers.Buffer.EnsureWritable | code/Buffer.cpp:85-89 | at least n writable cells, nothing readable changed |
| RpcChannel.LengthsSurvive | examples/rpc/RpcChannel.cpp:280-301 | the lengths in the header are the true ones if and only if they fit together in 32 bits |
| RpcChannel.UnpackConcat | examples/rpc/RpcChannel.cpp:74-126 | bytes that arrive later are unpacked behind what was left |
| RpcChannel.CuttingNeverMatters | examples/rpc/RpcChannel.cpp:74-126 | any byte stream unpacks to the same pairs however it is cut |
| RpcChannel.UnpackPack | examples/rpc/RpcChannel.cpp:74-126 | a packed pair is unpacked as it was |
| RpcChannel.AnyFragmentation | examples/rpc/RpcChannel.cpp:74-126 | of any packed pairs, cut anyhow, exactly the complete ones are handed over, once and in order, and a strict part of a frame is left |
| RpcChannel.StuckExactlyWhen | examples/rpc/RpcChannel.cpp:74-126 | unpacking ends in the spin if and only if a whole frame of the stream has a meta that cannot be decoded |
| RpcChannel.NeverReturnsExactlyWhen | examples/rpc/RpcChannel.cpp:74-126 | for every number of turns the loop is still going if and only if there is such a frame |
| RpcChannel.BadMetaSpins | examples/rpc/RpcChannel.cpp:74-126 | the packed pair with such a meta is such a stream |
| RpcChannel.PackIsFrame | examples/rpc/RpcChannel.cpp:277-328 | what is packed is, byte for byte, the letters ERPC, the two lengths with the most significant byte first, the meta and the message |
| RpcChannel.FrameIsHandedOver | examples/rpc/RpcChannel.cpp:74-126 | a stream that begins with such bytes hands over exactly that pair |
| RpcChannel.StopsAtHead | examples/rpc/RpcChannel.cpp:74-100 | a stream that is too short for a head waits, and one that does not begin with the letters ends the loop |
| RpcChannel.StopsBehindHead | examples/rpc/RpcChannel.cpp:74-126 | behind a head, by its numbers alone: lengths that contradict each other end the loop, a frame that is not complete waits, a complete one is taken |
| RpcChannel.PackSend | examples/rpc/RpcChannel.cpp:277-328 | the buffer that is sent holds exactly one frame, with its lengths in network byte order |
| RpcChannel.Process | examples/rpc/RpcChannel.cpp:74-126 | the loop hands over what unpacking gives and leaves its rest in the buffer, falling by at least 12 bytes a turn; it spins exactly if some whole frame has a meta that cannot be decoded |
| RpcChannel.Calls.CallMethod | examples/rpc/RpcChannel.cpp:50-72 | a call gets an id never used before and waits under it |
| RpcChannel.Calls.ProcessResponse | examples/rpc/RpcChannel.cpp:128-162 | a response completes its own call, the first time only |
| RotatingFileSink.CalcFilenameInjective | code/spdlog/sinks/rotating_file_sink.h:41-55 | different indices have different file names |
| RotatingFileSink.IndexBeforeExtension | code/spdlog/sinks/rotating_file_sink.h:37-55 | the index goes between the base and the extension of a name that has one, and index 0 leaves the name |
| RotatingFileSink.IndexBehindName | code/spdlog/sinks/rotating_file_sink.h:37-55 | a name without an extension gets the index behind it |
| RotatingFileSink.RenameToAt | code/spdlog/sinks/rotating_file_sink.h:88-110 | what one turn of the renaming loop does to every log file |
| RotatingFileSink.RenamedAt | code/spdlog/sinks/rotating_file_sink.h:86-111 | the loop moves every file up by one index and drops the last |
| RotatingFileSink.Sink.Rotate | code/spdlog/sinks/rotating_file_sink.h:82-113 | the rotation is that renaming and a new first file |
| RotatingFileSink.Sink.SinkIt | code/spdlog/sinks/rotating_file_sink.h:58-69 | a message goes behind the first file or into a new one, by the limit, and the sink stays consistent |
| RotatingFileSink.LogAllKeeps | code/spdlog/sinks/rotating_file_sink.h:58-113 | over any messages the sink stays consistent and places each message once and in order |
| RotatingFileSink.WriteAll | code/spdlog/sinks/rotating_file_sink.h:24-69 | a new sink, given any messages, ends in the log the next rows speak of |
| RotatingFileSink.ReadsASuffix | code/spdlog/sinks/rotating_file_sink.h:58-113 | after any messages the files from the highest index down read as what they held at the start and all messages, less what was deleted in front |
| RotatingFileSink.StartedFiles | code/spdlog/sinks/rotating_file_sink.h:58-113 | after any messages every file the sink has started holds a run of whole messages, in order, within the limit or a single one, and was begun only when the one before had no room |

## Left out

- HttpExecute.Http.Execute: of calls in which a header line longer than 80 KiB has 2^32 - 81920 bytes or more behind its
  beginning, where the 32-bit header count of a lump can wrap (`LumpCountAgrees` says exactly when), only those that
  hold nothing but bytes of a header value are covered (`OverlongCall`); all others meet `LinesFit`. Bodies of any
  length are covered. For a call that ends in an error the returned byte count is not stated.
- HttpCutting.FeedPieces: the same bound on every piece; after an upgrade nothing but the framing is said, since the
  caller is to stop feeding.
- HttpAccepted.AcceptedExactlyWhen: of an input that stops inside a message nothing is said but what holds of every
  run, and not with which error an input that is not of the grammar is refused.
- HttpUrlGrammar.ParseUrl: of a URL whose authority ends at offset 65536 or behind, nothing is said but that reads stay
  in the buffer and 16 bits are stored.
- LockFreeQueue.StepRefines: memory is sequentially consistent, node identities are never used again and a read of a
  freed node still answers; results `false` of push and pop are not claimed to be linearizable.
- LockFreeQueue.Clear: run by one thread alone, as the program requires.
- FormatInt.FormatDecimal: without the thousands separator.
- Digits.TablePair: the table is given by the rule that makes it, not by its 200 characters.
- TimingWheel.Wheel.HandleTimeout: callbacks do not add or delete timers while a bucket is swept, and a deleted timer's
  memory may still be read.
- ThreadPool.RunKeeps: a step is a critical section of the queue; the ten-second timeout of an idle worker is not a
  step, since it changes nothing. No client posts once the destructor runs.
- TcpConnection.OneWriteExactlyWhen: the socket is abstract; a write ends well or in an error, in order, at some
  later time.
- RpcChannel.AnyFragmentation: meta and message codecs are any pair of functions that round-trips.
- RpcChannel.PackSend: the parts must fit together in 32 bits; else the program reserves too little room and serializes
  past its buffer. `LengthsSurvive` says what becomes of the lengths then.
- RpcChannel.Process: a meta that cannot be decoded ends the model's loop with `SpinsOnMeta`, where the program's
  loop goes on for ever (`NeverReturnsExactlyWhen`).
- RpcChannel.Calls.CallMethod: the 64-bit id counter is unbounded here.
- RotatingFileSink.Sink.SinkIt: no input or output fails, and sizes are unbounded.
- Response parsing, HTTP_BOTH, lenient mode, failing or pausing callbacks, body suppression and what follows an upgrade.
- Sockets, acceptors, timers, signals, the event loop's dispatching, server and client set-up.
- Floating-point formatting, locales and wide characters; the cached powers of ten.
- Memory order weaker than sequential consistency, reuse of freed nodes, `front` and `back` of the lock-free queue.
- The service side of RPC beyond framing, and the protobuf runtime.
- Other log sinks, the logger registry, the unfinished queues, the MySQL pool, command-line and logging wrappers.
