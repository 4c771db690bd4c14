# Verification of dodo

A Dafny model of the parts of the dodo library in which correctness rests on more than one function, with proofs of
what holds for every input, every run or every reachable state.

* **TCPListener and TCPServer** (`SockStates`, `Listener*`). The listener thread and its workers share `clients_`,
  `workload_`, `work_q_sz_` and the epoll interest list. The protocol is a state machine whose actions are single
  critical sections, system calls, callbacks and atomic accesses, under every interleaving, with descriptors that the
  operating system reuses. A `fault` flag stands for everything the program would not survive: following a pointer to
  an erased map node, `operator[]` creating an entry, an `epoll_ctl` or `close` that fails. `ListenerPasses` tells
  from the actions of a run what a worker's pass leaves behind, `ListenerConduct` when the listener stops, refuses and
  changes its pool, and `ListenerProgress` that shutdown can complete from every reachable state. `ListenerObject` has the
  same operations as methods that update the object's fields.
* **HTTP/1.x** (`Http*`, `Numbers`). The parsers of versions, request and response lines, header sections, bodies of
  known length and chunked bodies, over a stream of octets and a position; and the printers. The loops of the source
  are methods in `HttpParsers` and `HttpObjects`, each proved to compute a scanning function; the theorems are about
  these functions. `HttpRoundTrip`, `HttpBodies`, `HttpFields` and
  `HttpFailures` say what becomes of printed messages, of any octets after a head, of header lines as clients write
  them, and of malformed and truncated text. `HttpSockets` has the loops of tokens and chunked bodies over a buffered
  socket. `Numbers` has the library's number printing and reading, with `std::stoul` including its sign and
  its exceptions.
* **URI** (`Uri*`, `Ctype`, `Alphabets`). The scanning automaton of `URI::parse` and `URI::asString`, against a grammar
  whose alphabets are spelled out in `UriSyntax`.
* **Read buffers and Bytes** (`ReadBuffers`, `Bytes`). The buffered readers against the flat stream, for every buffer
  size and every split of the stream into receives; the growing array.
* **Cache** (`Cache*`). The map, the time-keyed multimap and the counters, under a clock that does not go back and may
  stand still. Clock readings and the outcomes of `load` are parameters of each call.
* **Ping** (`Ping`). The Internet checksum (section 1 of RFC 1071) on little- and big-endian hosts, and the running
  mean, sum of squared deviations, minimum and maximum over real numbers.
* **The `ENC[...]` envelope** (`Envelope`). `split`, the printer, `decode` and `paddedKey`.

What the environment decides is a parameter of the operation: the descriptor that `accept` returns, the events epoll
reports, how a callback ends, how many octets a receive delivers, the time, what `load` does. Calls that throw return a
distinct result.

Where the code and its documentation differ, the model follows the code:

* The cache's documentation counts loads as misses plus expiries. The code also calls `load` for a reload that fails;
  `CacheRuns.DocumentedLoads` says when the two agree.
* `throttle` counts in an `unsigned int`, so its documented limit holds exactly for limits below 2^32
  (`ListenerObject.ThrottleBound`).
* A reload that fails has already written into the cached entry. `CacheRuns.GetReturnsLastLoad` shows that this stays
  hidden as long as `life_time` is fixed or tightened, and `CacheRuns.LooseningExposes` that any other change can bring
  it out.
* `next` of a read buffer is documented to move to an octet or to fail. On an empty string, and on a socket whose peer
  has closed the connection, it succeeds without an octet (`ReadBuffers.StringReadBuffer.Next`,
  `ReadBuffers.SocketReadBuffer.Next`).
* The minimum and maximum of ping start at zero, and a failure before the first reply keeps them there:
  `Ping.ExtremesExactly` says when they are right.
* Printing a parsed URI, and parsing a printed message, field value or envelope, give the original back only under
  conditions; each is stated as an if-and-only-if over all of them.

## Model

| member | source | states |
|---|---|---|
| `SockStates.OperatorsAreBitwise` | src/include/network/tcplistener.hpp:575-597 | the three-flag record behaves as the enumeration's integers under the three operators |
| `SockStates.XorOnlyClears` | src/include/network/tcplistener.hpp:586-588 | `^=` clears flags and sets none exactly when its right operand is contained in its left one |
| `ListenerTurns.StepKeeps` | src/lib/network/tcplistener.cpp:236-459 | every action of every thread keeps the global ownership invariant: where each connection is, what each structure holds, the counter, the bounds, the callback histories |
| `ListenerSteps.WorkerKeeps` | src/lib/network/tcpserver.cpp:44-181 | the worker's half: wake, pop, three callbacks with any outcome, decrement, re-arm, erase, close, stop check |
| `ListenerTurns.ListenerKeeps` | src/lib/network/tcplistener.cpp:236-394 | the listener's half: start, poll, handle, accept, admit, list, push, reap, retire, drain, join, sweep |
| `ListenerTheorems.RunInv` | src/lib/network/tcplistener.cpp:236-459 | the invariant holds after every possible run |
| `ListenerTheorems.NoFault` | src/lib/network/tcplistener.cpp:396-486 | no run follows a dangling pointer, creates a client entry by lookup, closes a descriptor twice or makes a failing epoll_ctl call |
| `ListenerTheorems.NoStaleReference` | src/lib/network/tcplistener.cpp:396-459 | with descriptor reuse, no queued item, held item or received event refers to a closed connection or to a later one with the same descriptor |
| `ListenerReuse.ReuseHappens` | src/lib/network/tcplistener.cpp:290-316 | for any descriptor and any configuration that admits a connection, whatever minservers, there is a run that serves a connection on it, closes it and accepts the next connection on the same descriptor |
| `ListenerTheorems.ExactlyOnePlace` | src/lib/network/tcplistener.cpp:297-459 | each open connection is reachable from exactly one place: the listener's hand, one queue slot, one worker, epoll or the final sweep |
| `ListenerTheorems.UnlockedReadsAreStable` | src/lib/network/tcpserver.cpp:64-156 | while a worker serves or releases a client, no step of another thread changes or erases the entry it reads without the mutex |
| `ListenerTheorems.ClosedOrSomewhere` | src/lib/network/tcplistener.cpp:297-459 | after every run each connection ever accepted was closed once, or it is open and at exactly one place |
| `ListenerTheorems.StoppedWorkerLosesNothing` | src/lib/network/tcpserver.cpp:157-171 | in every run, each connection that a worker which has stopped or is gone ever held is closed by now, or at exactly one place other than that worker |
| `ListenerTheorems.CallbackOrder` | src/lib/network/tcpserver.cpp:71-156 | the first callback on a connection is handShake; if none throws, the calls are a prefix of handShake, readSocket*, shutDown |
| `ListenerTheorems.ClosedIsFinal` | src/lib/network/tcplistener.cpp:448-459 | after a connection is closed nothing is called on it in any continuation, and it is not closed again |
| `ListenerTheorems.ReleaseOnlyClears` | src/lib/network/tcplistener.cpp:435-446 | the `^=` of releaseWork only clears flags, and together with the completed ones gives the state before |
| `ListenerPasses.PassIsExact` | src/lib/network/tcpserver.cpp:71-156 | in every run and under every interleaving, the completion_state of a worker is decided by how the callbacks of its pass ended: New and Read are complete exactly when their callback returned, and Shut is set exactly when handShake or readSocket returned a failure or shutDown returned |
| `ListenerPasses.RearmedWith` | src/lib/network/tcplistener.cpp:435-446 | a client goes back to epoll only after a pass without failure, armed, with exactly the flags whose callbacks did not return |
| `ListenerPasses.FailureCloses` | src/lib/network/tcpserver.cpp:81-150 | after a callback failed, or shutDown returned, the connection is in no continuation of the run in epoll or in the queue again: it is closed, or with the worker that will close it and cannot re-arm it |
| `ListenerPasses.FirstInFirstOut` | src/lib/network/tcplistener.cpp:396-433 | in every run, what was pushed is what workers took followed by what is still queued, in this order |
| `ListenerTheorems.CounterIsExact` | src/lib/network/tcplistener.cpp:396-446 | `work_q_sz_` is the number of queued items plus items popped whose release has not begun, and is at least one before every decrement |
| `ListenerTheorems.BoundsHold` | src/lib/network/tcplistener.cpp:488-495 | `clients_` never exceeds maxconnections although it is tested outside the mutex; the pool never exceeds max(1, minservers, maxservers) |
| `ListenerConduct.StopsOnlyWhenAsked` | src/lib/network/tcplistener.cpp:270-375 | the listener leaves its loop only in runs in which stop was called or epoll_wait or accept threw |
| `ListenerConduct.LoopGoesOn` | src/lib/network/tcplistener.cpp:358-359 | at the end of a round the listener drains if a stop was requested, and otherwise polls again with nothing else changed |
| `ListenerConduct.RefusesExactlyWhenFull` | src/lib/network/tcplistener.cpp:295-302 | an accepted connection is closed at once if and only if maxconnections are listed, and no callback is made on it |
| `ListenerConduct.GrowsOnlyUnderLoad` | src/lib/network/tcplistener.cpp:488-495 | whatever step adds a server: there were fewer than minservers, or more work than servers and fewer than maxservers, or it replaces the first one |
| `ListenerConduct.GrowsUnderLoad` | src/lib/network/tcplistener.cpp:488-495 | and between polls a server can be added if and only if there is more work than servers and fewer servers than maxservers |
| `ListenerConduct.ShrinksOnlyAboveMinimum` | src/lib/network/tcplistener.cpp:568-620 | whatever step asks a server to stop: there were more than minservers and it is not the first, or the queue is drained at the end |
| `ListenerConduct.ShrinksAboveMinimum` | src/lib/network/tcplistener.cpp:568-620 | a server can be retired if and only if there are more than minservers and it is not the first |
| `ListenerConduct.NoLostWakeUp` | src/lib/network/tcplistener.cpp:224-229 | a waiting server goes for work if and only if there is some or it was asked to stop, and otherwise times out |
| `ListenerConduct.AnyEventMayCome` | src/lib/network/tcplistener.cpp:325-345 | for an armed registration just the three combinations of data and hang-up may be reported, about the connection that is open then |
| `ListenerConduct.AnythingMayCome` | src/lib/network/tcplistener.cpp:286-295 | connections may be reported while the batch has room; epoll_wait and accept may throw, nothing else of the loop may, and the events not yet handled are then dropped |
| `ListenerTheorems.ShutdownIsClean` | src/lib/network/tcplistener.cpp:373-394 | at the end nothing is queued, registered, listed or open, and every accepted connection was closed exactly once |
| `ListenerProgress.ShutdownCompletes` | src/lib/network/tcplistener.cpp:236-394 | from the end of every run, in whatever state the threads are, some continuation with nothing coming from outside reaches the end of the listener: no thread waits for good and no mutex stays held |
| `ListenerProgress.SomethingHelps` | src/lib/network/tcpserver.cpp:44-181 | once a stop is requested, in every state that satisfies the invariants and is not finished, some steps are enabled that bring the end nearer in a well-founded measure |
| `ListenerTheorems.NoDeafConnection` | src/lib/network/tcplistener.cpp:435-486 | a registered connection is armed, or the event that disarmed it is still to be handled |
| `ListenerObject.TCPListener.At` | src/lib/network/tcplistener.cpp:399-403 | `operator[]` on the client map: the entry, inserted when it is missing |
| `ListenerObject.TCPListener.DelPoll` | src/lib/network/tcplistener.cpp:479-486 | the object's pollDel is the protocol's step |
| `ListenerObject.TCPListener.AddPoll` | src/lib/network/tcplistener.cpp:461-468 | the object's pollAdd is the protocol's step |
| `ListenerObject.TCPListener.Push` | src/lib/network/tcplistener.cpp:396-418 | pushWork through `operator[]` is the protocol's atomic push |
| `ListenerObject.TCPListener.Pop` | src/lib/network/tcplistener.cpp:420-433 | popWork is the protocol's atomic pop |
| `ListenerObject.TCPListener.CloseSocket` | src/lib/network/tcplistener.cpp:448-459 | closeSocket is the protocol's erase followed by its close |
| `ListenerObject.TCPListener.Release` | src/lib/network/tcplistener.cpp:435-446 | releaseWork is the decrement followed by close or re-arm |
| `ListenerObject.ServeItem` | src/lib/network/tcpserver.cpp:71-156 | one pass over an item, for every state and every outcome: which callbacks are made, which flags are complete, and that the connection is to be closed exactly after a failed handShake or readSocket or a shutDown that returned |
| `ListenerObject.ServeIsThreeSteps` | src/lib/network/tcpserver.cpp:71-156 | that pass is the protocol's three callback steps without interference |
| `ListenerObject.Throttle` | src/lib/network/tcplistener.cpp:497-509 | the loop sleeps as often as `Sleeps` says, for any values the workers leave in `work_q_sz_` |
| `ListenerObject.SleepsExactly` | src/lib/network/tcplistener.cpp:497-509 | it sleeps once for each load from the first on that is at least the pending work, until one is below or cycle_max_throttles is reached; a limit of 2^32 or more is never reached |
| `ListenerObject.ThrottleBound` | src/lib/network/tcplistener.cpp:497-509 | it sleeps at most cycle_max_throttles times whatever it reads, if and only if that limit is below 2^32 |
| `Uri.StepProgress` | src/lib/network/uri.cpp:109-290 | every iteration of the scan moves the index or goes down in rank, so the loop terminates on every input |
| `Uri.URI.Parse` | src/lib/network/uri.cpp:109-311 | the loop and the final switch compute `Final` and `Store`; the index stays within the string |
| `UriParsePrint.ScanInv` | src/lib/network/uri.cpp:109-290 | in every state of the scan, what is stored accounts for the text before the mark, and the text after it is a beginning of the component being read |
| `UriGrammar.AllowedIs` | src/lib/network/uri.cpp:64-107 | verifyUserInfoHostChar, verifyPathChar and verifyQueryFragmentChar accept exactly the unreserved characters and sub-delims of RFC 3986, and ':', '@', '/' and '?' where the component allows them |
| `UriGrammar.WellformedIs` | src/lib/network/uri.cpp:56-107 | what the predicates of the scanner admit in each component is what the grammar with spelled-out alphabets admits, schemes and TCP6 addresses included |
| `UriRoundTrip.PrintUndoesParse` | src/lib/network/uri.cpp:43-311 | for every accepted input, asString gives the input back if and only if the scan ended in the path, or in authority, query or fragment with something left; and then its components are those of the grammar |
| `UriRoundTrip.ParseUndoesPrint` | src/lib/network/uri.cpp:43-311 | every component tuple of the grammar of `UriSyntax`, printed and parsed, comes back |
| `UriRoundTrip.GrammarIsExact` | src/lib/network/uri.cpp:43-311 | the strings that parse without loss are exactly the printed tuples of the grammar of `UriSyntax` |
| `UriRoundTrip.LossHappens` | src/lib/network/uri.cpp:292-309 | "a" is accepted and printed as ":" |
| `UriRoundTrip.EveryPercentEncoded` | src/lib/network/uri.cpp:270-311 | for every input, accepted or not, every '%' in every stored component is followed by two hexadecimal digits |
| `UriRoundTrip.BadPercentStops` | src/lib/network/uri.cpp:270-290 | a '%' without two hexadecimal digits ends the scan with an error at the first octet that is none |
| `ByteBuffers.Bytes.constructor` | src/lib/common/bytes.cpp:56-63 | an empty buffer has no array |
| `ByteBuffers.Bytes.Reserve` | src/lib/common/bytes.cpp:33-54 | the new size; the octets that remain are unchanged whether or not the array moves |
| `ByteBuffers.Bytes.Free` | src/lib/common/bytes.cpp:56-63 | empty, without an array |
| `ByteBuffers.Bytes.AppendOctet` | src/lib/common/bytes.cpp:84-87 | the contents grow by the octet |
| `ByteBuffers.Bytes.Overwrite` | src/lib/common/bytes.cpp:71-76 | the memcpy after a reserve: the octets from the old size on are the source's, also when source and target are one array |
| `ByteBuffers.Bytes.AppendFrom` | src/lib/common/bytes.cpp:71-76 | the contents grow by the first n octets of another buffer or of the buffer itself, or nothing changes when there are fewer |
| `ReadBuffers.StringReadBuffer.Next` | src/include/network/socketreadbuffer.hpp:192-198 | succeeds exactly when an octet follows, and then moves to it; on an empty string it always succeeds, because the bound underflows |
| `ReadBuffers.SocketReadBuffer.Receive` | src/lib/network/socket.cpp:81-96 | any non-empty delivery that fits the buffer; at the end of the stream a success with no octets if the peer closed the connection, and EAGAIN if not |
| `ReadBuffers.SocketReadBuffer.Underflow` | src/lib/network/socketreadbuffer.cpp:44-52 | refilling keeps the position in the stream, for every way the peer splits it; beyond the stream it succeeds exactly when the peer closed, and leaves the buffer as it was |
| `ReadBuffers.SocketReadBuffer.Get` | src/lib/network/socketreadbuffer.cpp:54-56 | the octet of the stream at the position; beyond a closed stream the first octet of the last delivery |
| `ReadBuffers.SocketReadBuffer.Next` | src/lib/network/socketreadbuffer.cpp:58-61 | succeeds exactly when an octet follows, to which it moves, or the peer has closed the connection |
| `ReadBuffers.SocketReadBuffer.ReadMany` | src/lib/network/socketreadbuffer.cpp:44-61 | n rounds of get and next deliver the stream in order for every buffer size and every split; beyond it they stop, or repeat one octet for ever if the peer closed |
| `ReadBuffers.FileReadBuffer.constructor` | src/lib/network/socketreadbuffer.cpp:63-72 | a file that can be opened starts at its first octet; the constructor throws exactly when it is empty |
| `ReadBuffers.FileReadBuffer.Underflow` | src/lib/network/socketreadbuffer.cpp:79-88 | refilling keeps the position in the file |
| `ReadBuffers.FileReadBuffer.Get` | src/lib/network/socketreadbuffer.cpp:91-93 | the octet of the file at the position |
| `ReadBuffers.FileReadBuffer.Next` | src/lib/network/socketreadbuffer.cpp:95-98 | succeeds exactly when an octet follows, and then moves to it |
| `Numbers.ReadDecimal` | src/lib/network/protocol/http/httpmessage.cpp:64-72 | a printed number is read back in full by stoul |
| `Numbers.StoulReads` | src/lib/network/protocol/http/httpmessage.cpp:64-72 | stoul on any text: white space, a sign and digits are read, a minus negates modulo 2^64, no digits or too large a number throw |
| `Numbers.HexadecimalValue` | src/lib/network/protocol/http/httpmessage.cpp:125-138 | a digit string has the value n in base 16 if and only if it is n in hexadecimal notation by the tables of digits, in either case and with zeros in front |
| `Alphabets.ToLowerIs` | src/lib/network/protocol/http/httpmessage.cpp:91-93 | tolower takes each capital letter to the small one at its place in the alphabet, and leaves everything else |
| `Alphabets.LetterIs` | src/lib/network/uri.cpp:57-57 | isalpha accepts the letters of the alphabet |
| `Alphabets.DigitIs` | src/lib/network/uri.cpp:58-58 | isdigit and isxdigit accept the digits |
| `Alphabets.SpaceIs` | src/lib/network/protocol/http/httprequest.cpp:183-183 | isspace accepts the six white space characters |
| `HttpTables.TokenCharIs` | src/include/network/protocol/http/httpmessage.hpp:164-257 | what is neither a separator nor a control character is a letter, a digit or one of the fifteen marks that section 2.2 of RFC 2616 leaves |
| `HttpTables.MethodsAre` | src/lib/network/protocol/http/httprequest.cpp:32-76 | the nine method names are read as the methods they print, nothing else is a method, and four of them allow a body |
| `HttpTables.VersionTextIs` | src/include/network/protocol/http/httpversion.hpp:56-60 | the text of a version |
| `HttpHeaders.FieldValueReads` | src/lib/network/protocol/http/httpmessage.cpp:141-194 | on any value without CR the automaton returns it with each run of spaces and tabs squeezed to one space |
| `HttpHeaders.FoldedReads` | src/lib/network/protocol/http/httpmessage.cpp:141-194 | a value that goes on after CRLF and blanks is joined with one space |
| `HttpHeaders.FieldValueCut` | src/lib/network/protocol/http/httpmessage.cpp:141-194 | a value that ends in a CR, or whose CR no LF follows, is refused, each with its own error; one whose line end ends the stream is an EAGAIN |
| `HttpHeaders.FieldValueEndless` | src/lib/network/protocol/http/httpmessage.cpp:141-194 | a value without a CR up to the end of the stream is refused |
| `HttpHeaders.FieldValueClean` | src/lib/network/protocol/http/httpmessage.cpp:141-194 | whatever the octets, the value collected has no CR and no tab |
| `HttpHeaders.FieldValueRoundTrip` | src/lib/network/protocol/http/httpmessage.cpp:141-194 | a printed value comes back if and only if it has no CR, tab, leading space or double space |
| `HttpHeaders.HeadersRead` | src/lib/network/protocol/http/httpmessage.cpp:83-113 | printed headers without CR come back under the same keys, each value squeezed |
| `HttpHeaders.HeaderLinesClean` | src/lib/network/protocol/http/httpmessage.cpp:83-113 | whatever the octets, every parsed key is a lower-case token and every value has no CR and no tab |
| `HttpHeaders.HeadersRoundTrip` | src/lib/network/protocol/http/httpmessage.cpp:83-113 | any header map printed in any order of its keys comes back if and only if it is not empty, its keys are lower-case tokens and its values have no CR, tab, leading space or double space |
| `HttpFields.FieldsRead` | src/lib/network/protocol/http/httpmessage.cpp:37-113 | any header lines with token keys and values without CR: each key is stored in lower case with all the values it was given, in whatever case it was written, in order and joined by commas |
| `HttpFields.ColonIsExpected` | src/lib/network/protocol/http/httpmessage.cpp:94-96 | a key that no colon follows is refused there |
| `HttpFields.KeyIsCut` | src/lib/network/protocol/http/httpmessage.cpp:88-101 | a stream that ends in a key or its colon is an EAGAIN, and nothing is stored |
| `HttpFields.BlanksBeforeColon` | src/lib/network/protocol/http/httpmessage.cpp:94-101 | blanks between a key and its colon do not count |
| `HttpFields.ListEndIsExpected` | src/lib/network/protocol/http/httpmessage.cpp:108-112 | after a header line a CR without LF is refused and a CR at the end of the stream is an EAGAIN; the line counts |
| `HttpFields.EmptyLineIsExpected` | src/lib/network/protocol/http/httpmessage.cpp:102-107 | header lines that end the stream: the last one counts, and the parser then misses a colon at its LF |
| `HttpChunks.DecodeUndoesEncode` | src/lib/network/protocol/http/httpmessage.cpp:224-242 | any list of non-empty chunks with their sizes in hexadecimal notation, then a zero-size line: exactly their concatenation is appended, the parser stops just after that line, and it succeeds if and only if one more octet follows |
| `HttpChunks.DecodedIsEncoded` | src/lib/network/protocol/http/httpmessage.cpp:224-242 | every successful chunked parse consumed such an encoding of what it appended |
| `HttpChunks.ChunksShrink` | src/lib/network/protocol/http/httpmessage.cpp:224-242 | a chunked body carries fewer octets than it takes |
| `HttpChunks.TakeLastReads` | src/lib/network/protocol/http/httprequest.cpp:142-149 | a body of known length succeeds exactly when that many octets are there, is the first of them and ends at the last; otherwise it is an EAGAIN with all that is there |
| `HttpRoundTrip.VersionReads` | src/lib/network/protocol/http/httpversion.cpp:32-114 | a printed version is parsed back, each number clipped to an unsigned int |
| `HttpRoundTrip.RequestWordsRead` | src/lib/network/protocol/http/httprequest.cpp:162-247 | any words in the place of method and uri, a version and a line end: the line is read, and its method is one of the nine or refused |
| `HttpRoundTrip.RequestLineReads` | src/lib/network/protocol/http/httprequest.cpp:162-247 | a printed request line with a real method and a non-empty uri without white space is parsed back |
| `HttpRoundTrip.ResponseLineReads` | src/lib/network/protocol/http/httpresponse.cpp:99-141 | a printed response line is parsed back, whatever its reason phrase |
| `HttpRoundTrip.RequestBodyReads` | src/lib/network/protocol/http/httprequest.cpp:139-160 | the rest of the stream comes back as the body if and only if content-length is its size |
| `HttpRoundTrip.ResponseBodyReads` | src/lib/network/protocol/http/httpresponse.cpp:143-174 | likewise, or the body is read to the end of a closing connection |
| `HttpRoundTrip.RequestRoundTrip` | src/lib/network/protocol/http/httprequest.cpp:99-247 | for every request and every order of its headers: parsing what send writes into a fresh request gives it back if and only if the method is real, the uri not empty and without white space, the version in range, the headers as in HeadersRoundTrip, and the body empty, or allowed by the method with content-length its size |
| `HttpRoundTrip.ResponseRoundTrip` | src/lib/network/protocol/http/httpresponse.cpp:32-174 | the same for every response: with a body, content-length is its size or it is read to the end; without, content-length does not make stoul throw |
| `HttpRoundTrip.DoubleSpaceIsLost` | src/lib/network/protocol/http/httpmessage.cpp:141-194 | a request with a header value that holds two spaces in a row does not come back |
| `HttpRoundTrip.RequestLineDelivers` | src/lib/network/protocol/http/httprequest.cpp:162-247 | whatever the octets, a parsed request line has a real method, a uri without white space and a version in range |
| `HttpRoundTrip.SetBodyRoundTrip` | src/lib/network/protocol/http/httpmessage.cpp:244-251 | after setBody a request comes back if and only if its line and headers do, and the body is empty or the method allows one |
| `HttpBodies.RequestKeepsHead` | src/lib/network/protocol/http/httprequest.cpp:114-137 | whatever octets follow the empty line, the line and the headers are those sent; none is a success without a body |
| `HttpBodies.LengthDecides` | src/lib/network/protocol/http/httpmessage.cpp:64-72 | any content-length: no digits or too large a number throw, and a number with more text after it does not count |
| `HttpBodies.RequestTakesLength` | src/lib/network/protocol/http/httprequest.cpp:139-149 | with a content-length of n the body is the first n octets and the parse ends at the last of them; fewer are an EAGAIN |
| `HttpBodies.RequestDecodesChunks` | src/lib/network/protocol/http/httprequest.cpp:150-155 | with transfer-encoding chunked and no content-length that counts, any chunks and a zero-size line are decoded to their payload, with success if and only if an octet follows |
| `HttpBodies.RequestThrows` | src/lib/network/protocol/http/httprequest.cpp:139-141 | a content-length that makes stoul throw ends the parse in its exception |
| `HttpBodies.RequestRefusesBody` | src/lib/network/protocol/http/httprequest.cpp:150-160 | any other transfer-encoding is an invalid one, and a body that nothing announces is unexpected |
| `HttpBodies.ResponseTakesLength` | src/lib/network/protocol/http/httpresponse.cpp:143-152 | the same for responses with a positive content-length |
| `HttpBodies.ResponseTakesNothing` | src/lib/network/protocol/http/httpresponse.cpp:46-66 | a content-length of zero ends the parse at the empty line, unless the headers announce a body otherwise |
| `HttpBodies.ResponseDecodesChunks` | src/lib/network/protocol/http/httpresponse.cpp:153-160 | a chunked response is decoded to its payload |
| `HttpBodies.ResponseThrows` | src/lib/network/protocol/http/httpresponse.cpp:58-66 | a content-length that makes stoul throw ends the parse in its exception |
| `HttpBodies.ResponseReadsRest` | src/lib/network/protocol/http/httpresponse.cpp:143-174 | without a length the body is all that follows if the connection closes and nothing if not; another encoding is refused only where a body is read |
| `HttpBodies.RequestWithoutHeaders` | src/lib/network/protocol/http/httprequest.cpp:114-160 | a request line, an empty line and any octets, into any request: what it held before decides, and its body grows |
| `HttpBodies.ResponseWithoutHeaders` | src/lib/network/protocol/http/httpresponse.cpp:32-174 | the same for responses |
| `HttpBodies.RequestStopsAtCR` | src/lib/network/protocol/http/httprequest.cpp:114-137 | a CR after the line that no LF follows ends the parse there without an error |
| `HttpBodies.ResponseStopsAtCR` | src/lib/network/protocol/http/httpresponse.cpp:32-56 | the same for responses |
| `HttpFailures.NewlineExactly` | src/lib/network/protocol/http/httpmessage.cpp:115-123 | exactly when a line end succeeds, is an EAGAIN or is refused, and where |
| `HttpFailures.UIntReads` | src/lib/network/protocol/http/httpmessage.cpp:211-222 | a number of any size is read as itself or as the largest unsigned int |
| `HttpFailures.UIntIsExpected` | src/lib/network/protocol/http/httpmessage.cpp:211-222 | what does not begin with a digit is refused |
| `HttpFailures.UIntIsCut` | src/lib/network/protocol/http/httpmessage.cpp:211-222 | digits up to the end of the stream are an EAGAIN |
| `HttpFailures.VersionIsExpected` | src/lib/network/protocol/http/httpversion.cpp:52-85 | the first octet that differs from HTTP/ is where a version is refused, and the version stays what it was |
| `HttpFailures.DotIsExpected` | src/lib/network/protocol/http/httpversion.cpp:86-100 | a major number that no dot follows is refused there |
| `HttpFailures.VersionWithoutDigits` | src/lib/network/protocol/http/httpversion.cpp:86-114 | a version without digits is accepted and leaves the numbers as they were |
| `HttpFailures.MethodIsCut` | src/lib/network/protocol/http/httprequest.cpp:180-192 | a stream that ends in the method is an EAGAIN, and the uri is empty then |
| `HttpFailures.UriIsCut` | src/lib/network/protocol/http/httprequest.cpp:193-197 | a stream that ends in the blanks after the method is an EAGAIN |
| `HttpFailures.RequestVersionFails` | src/lib/network/protocol/http/httprequest.cpp:207-215 | whatever is wrong with the version, the line fails in the same way, with its uri read |
| `HttpFailures.LineEndIsExpected` | src/lib/network/protocol/http/httprequest.cpp:216-240 | after the version, blanks to the end of the stream are an invalid line, and anything but a line end is refused |
| `HttpFailures.CodeIsExpected` | src/lib/network/protocol/http/httpresponse.cpp:111-125 | after the version of a response, blanks to the end of the stream are an EAGAIN and anything but a number is refused |
| `HttpFailures.ReasonIsCut` | src/lib/network/protocol/http/httpresponse.cpp:126-141 | a reason phrase that the stream ends in is an EAGAIN, with version and code read |
| `HttpFailures.RequestHeadersFail` | src/lib/network/protocol/http/httprequest.cpp:114-137 | a header section without a colon ends the parse of a request there, with its line read |
| `HttpFailures.HeadersKept` | src/lib/network/protocol/http/httpmessage.cpp:83-113 | what a failing header section has read before is kept in the message |
| `HttpFailures.BlanksBeforeHeaders` | src/lib/network/protocol/http/httpmessage.cpp:83-86 | blanks before the first header do not count |
| `HttpFailures.NoChunkSize` | src/lib/network/protocol/http/httpmessage.cpp:125-138 | a chunk without a size is refused |
| `HttpFailures.ChunkIsCut` | src/lib/network/protocol/http/httpmessage.cpp:224-242 | a chunk that the stream ends in is an EAGAIN, with what was there of it appended |
| `HttpFailures.ChunkIsLonger` | src/lib/network/protocol/http/httpmessage.cpp:224-242 | a chunk that is longer than its size is refused, with the octets of the size appended |
| `HttpParsers.ReadSpace` | src/lib/network/protocol/http/httpmessage.cpp:56-62 | the loop computes `EatSpace` |
| `HttpParsers.ReadNewline` | src/lib/network/protocol/http/httpmessage.cpp:115-123 | computes `Newline` |
| `HttpParsers.ReadToken` | src/lib/network/protocol/http/httpmessage.cpp:196-209 | the loop computes `Token`, and an unfinished token is only ever an EAGAIN |
| `HttpParsers.ReadUInt` | src/lib/network/protocol/http/httpmessage.cpp:211-222 | the loop computes `UInt`, saturating at the largest unsigned int |
| `HttpParsers.ReadChunkSize` | src/lib/network/protocol/http/httpmessage.cpp:125-138 | the loop computes `ChunkSize` |
| `HttpParsers.ReadFieldValue` | src/lib/network/protocol/http/httpmessage.cpp:141-194 | the automaton's loop computes `FieldValue` |
| `HttpParsers.HTTPVersion.constructor` | src/include/network/protocol/http/httpversion.hpp:43-43 | HTTP/1.0 |
| `HttpParsers.HTTPVersion.Parse` | src/lib/network/protocol/http/httpversion.cpp:32-114 | the automaton's loop computes `ParseVersion`, and the fields change only on success |
| `HttpObjects.HTTPMessage.constructor` | src/include/network/protocol/http/httpmessage.hpp:67-67 | no headers, an empty body |
| `HttpObjects.HTTPMessage.AddHeader` | src/lib/network/protocol/http/httpmessage.cpp:37-44 | a repeated key joins its values with a comma |
| `HttpObjects.HTTPMessage.SetBody` | src/lib/network/protocol/http/httpmessage.cpp:248-251 | the body is the text and content-length its size |
| `HttpObjects.HTTPMessage.ParseHeaders` | src/lib/network/protocol/http/httpmessage.cpp:83-113 | the loop computes `HeaderLines` |
| `HttpObjects.HTTPMessage.ParseField` | src/lib/network/protocol/http/httpmessage.cpp:89-107 | one round of that loop; its second eatSpace never finds a space |
| `HttpObjects.HTTPMessage.PrintHeaders` | src/lib/network/protocol/http/httprequest.cpp:102-104 | the loop of send prints `HeaderText` |
| `HttpObjects.HTTPMessage.GetLength` | src/lib/network/protocol/http/httpmessage.cpp:64-72 | absent or partly numeric, an exception, or the number |
| `HttpObjects.HTTPMessage.ParseLength` | src/lib/network/protocol/http/httprequest.cpp:142-149 | the loop computes `TakeLast` through append |
| `HttpObjects.HTTPMessage.ParseOctets` | src/lib/network/protocol/http/httpmessage.cpp:231-235 | the loop computes `Take` through append |
| `HttpObjects.HTTPMessage.ParseChunkedBody` | src/lib/network/protocol/http/httpmessage.cpp:224-242 | the loop computes `Chunks` through append; the checks after the loop are never taken |
| `HttpObjects.HTTPRequestLine.constructor` | src/include/network/protocol/http/httprequest.hpp:73-76 | GET, the uri `"*"` with its quotes, HTTP/1.0 |
| `HttpObjects.HTTPRequestLine.ReadWord` | src/lib/network/protocol/http/httprequest.cpp:182-206 | the loops of psMethodStart and psRequestURIStart compute `Word` |
| `HttpObjects.HTTPRequestLine.Parse` | src/lib/network/protocol/http/httprequest.cpp:162-247 | computes `ParseRequestLine`, with the fields as they are left on every error |
| `HttpObjects.HTTPRequest.ParseBody` | src/lib/network/protocol/http/httprequest.cpp:139-160 | computes `RequestBody` |
| `HttpObjects.HTTPRequest.Parse` | src/lib/network/protocol/http/httprequest.cpp:114-137 | computes `ParseRequest`, with line, headers and body as they are left on every error |
| `HttpObjects.HTTPRequest.Send` | src/lib/network/protocol/http/httprequest.cpp:99-112 | writes `RequestText` |
| `HttpObjects.HTTPResponseLine.constructor` | src/include/network/protocol/http/httpresponse.hpp:167-167 | HTTP/1.0 and 200 |
| `HttpObjects.HTTPResponseLine.Parse` | src/lib/network/protocol/http/httpresponse.cpp:111-141 | computes `ParseResponseLine` |
| `HttpObjects.HTTPResponse.ParseBody` | src/lib/network/protocol/http/httpresponse.cpp:143-174 | computes `ResponseBody` |
| `HttpObjects.HTTPResponse.ParseRest` | src/lib/network/protocol/http/httpresponse.cpp:162-168 | the body grows by everything up to the end of the stream |
| `HttpObjects.HTTPResponse.Parse` | src/lib/network/protocol/http/httpresponse.cpp:32-56 | computes `ParseResponse` |
| `HttpObjects.HTTPResponse.Send` | src/lib/network/protocol/http/httpresponse.cpp:84-97 | writes `ResponseText` |
| `HttpObjects.RelayRequest` | src/lib/network/protocol/http/httprequest.cpp:99-247 | any request sent by one object and parsed by another arrives unchanged if and only if `RequestOk` and `RequestSurvives` |
| `HttpSockets.ReadToken` | src/lib/network/protocol/http/httpmessage.cpp:196-209 | parseToken through a socket computes `Token` of the flat stream, for every buffer size and every split, and leaves the reader where it ended |
| `HttpSockets.ReadNewline` | src/lib/network/protocol/http/httpmessage.cpp:115-123 | parseCRLF through a socket computes `Newline` |
| `HttpSockets.ReadChunkSize` | src/lib/network/protocol/http/httpmessage.cpp:125-138 | parseChunkHex through a socket computes `ChunkSize` |
| `HttpSockets.ReadOctets` | src/lib/network/protocol/http/httpmessage.cpp:231-235 | the octets of a chunk, received in any pieces, are appended as `Take` says |
| `HttpSockets.ReadChunkedBody` | src/lib/network/protocol/http/httpmessage.cpp:224-242 | parseChunkedBody through a socket computes `Chunks` of the flat stream, however the peer splits chunks, sizes and line ends |
| `CacheRecency.GetRefinesRecent` | src/include/common/cache.hpp:119-146 | after get the multimap has one pair of hit time and key per cached key, in the order of a plain recency list: a hit moves to the back, a key that does not fit pushes out the front |
| `CacheRecency.EraseRefinesWithout` | src/include/common/cache.hpp:171-188 | erase removes exactly the key from the cache and from the list |
| `CacheRecency.GetKeepsItsKey` | src/include/common/cache.hpp:119-146 | a key just loaded or hit stays when max_size is at least one; at most the front is evicted; the size is at most max(previous size, max_size) |
| `CacheRecency.PositionFound` | src/include/common/cache.hpp:242-255 | the pair of a cached key is the one the search through its equal range finds, ties in time included |
| `CacheRuns.RunSound` | src/include/common/cache.hpp:105-255 | in every run: the invariant, the recency order, hits + misses = gets, loads = misses + expiries + failed reloads |
| `CacheRuns.DocumentedLoads` | src/include/common/cache.hpp:48-48 | loads = misses + expiries if and only if no reload failed |
| `CacheRuns.GetReturnsLastLoad` | src/include/common/cache.hpp:119-134 | with a fixed or tightened life_time, get returns the value of the last successful load of its key, less than life_time + 1 seconds old on a hit |
| `CacheRuns.LoadsExactly` | src/include/common/cache.hpp:119-146 | after every run, get calls load if and only if the key is not cached or its last successful load is life_time + 1 seconds old or more, in nanoseconds; without a load the answer is what is cached whatever load would do, with one it is what load delivers |
| `CacheRuns.LooseningExposes` | src/include/common/cache.hpp:119-134 | for every other change of life_time there is a run in which get returns what a failed reload wrote |
| `CacheRuns.Transparent` | src/include/common/cache.hpp:119-146 | if load is a function of the key, every get of every run answers what a direct load would |
| `CacheObject.Cache.constructor` | src/include/common/cache.hpp:97-100 | empty, with zero counters |
| `CacheObject.Cache.FindLRU` | src/include/common/cache.hpp:243-250 | the loop over equal_range finds the pair's position, or that there is none |
| `CacheObject.Cache.AddLRU` | src/include/common/cache.hpp:223-225 | the pair goes in after its equals |
| `CacheObject.Cache.UpdateLRU` | src/include/common/cache.hpp:242-255 | the old pair is replaced by one under the new hit time |
| `CacheObject.Cache.RemoveLRU` | src/include/common/cache.hpp:230-235 | the first pair and its key go |
| `CacheObject.Cache.Reload` | src/include/common/cache.hpp:124-128 | load writes into the entry; only a success stamps it and is counted |
| `CacheObject.Cache.Get` | src/include/common/cache.hpp:119-146 | the new state and the result of get |
| `CacheObject.Cache.Erase` | src/include/common/cache.hpp:171-188 | the new state of erase |
| `CacheObject.Cache.Clear` | src/include/common/cache.hpp:105-109 | both structures are empty, the counters stay |
| `CacheObject.Cache.SetMaxSize` | src/include/common/cache.hpp:194-194 | only the limit changes |
| `CacheObject.Cache.SetMaxLifeTime` | src/include/common/cache.hpp:200-200 | only the life time changes |
| `Ping.TwoFoldsSuffice` | src/examples/ping/ping.cpp:149-152 | for any 32-bit sum two folds leave a 16-bit number congruent to it modulo 65535, zero only for zero |
| `Ping.FoldZero` | src/examples/ping/ping.cpp:149-152 | the checksum is zero if and only if the sum is a positive multiple of 65535 |
| `Ping.OverflowExactly` | src/examples/ping/ping.cpp:144-148 | the 32-bit sum of every packet of n octets is exact if and only if n is at most 131074 |
| `Ping.SumWords` | src/examples/ping/ping.cpp:147-148 | the loop sums the words, odd lengths included, and loses nothing |
| `Ping.ComputeChecksum` | src/examples/ping/ping.cpp:142-153 | the result is the checksum of the packet |
| `Ping.ChecksumVerifies` | src/examples/ping/ping.cpp:163-167 | any packet with its checksum stored in the zeroed field, at any even offset, has checksum zero |
| `Ping.WordOrder` | src/examples/ping/ping.cpp:147-148 | the two octets of a word on hosts of either byte order |
| `Ping.EitherOrder` | src/examples/ping/ping.cpp:142-153 | a packet of even size verifies on a little-endian host if and only if it verifies on a big-endian one |
| `Ping.OddOrderMatters` | src/examples/ping/ping.cpp:148-148 | a packet of odd size for which this fails |
| `Ping.NextPacket` | src/examples/ping/ping.cpp:163-167 | the packet verifies, carries the sequence number, and is otherwise unchanged |
| `Ping.SuccessAccurate` | src/examples/ping/ping.cpp:67-75 | the recurrence turns the mean and the sum of squared deviations of the samples into those with one more |
| `Ping.MeanIsQuotient` | src/examples/ping/ping.cpp:65-65 | the mean kept by the recurrence is the sum divided by the number of samples, and nothing else is |
| `Ping.ExtremesExactly` | src/examples/ping/ping.cpp:68-69 | the minimum kept is the least sample if and only if no failure came before the first reply or some sample is not above zero; the maximum likewise |
| `Ping.PingStats.constructor` | src/examples/ping/ping.cpp:56-61 | no samples, no requests |
| `Ping.PingStats.Success` | src/examples/ping/ping.cpp:67-75 | the samples grow by v, and mean, squared deviations, minimum and maximum are again those of all samples, up to the zero a failure before the first reply leaves |
| `Ping.PingStats.Fail` | src/examples/ping/ping.cpp:76-78 | a failure leaves the samples and their statistics alone |
| `Envelope.SplitText` | src/include/common/util.hpp:136-144 | the getline loop computes `Split`: nothing follows a delimiter at the end |
| `Envelope.Decode` | src/lib/common/datacrypt.cpp:101-127 | the loops compute `Decoded` |
| `Envelope.EnvelopeRoundTrip` | src/lib/common/datacrypt.cpp:90-127 | a printed envelope with any white space after it decodes to its parts if and only if all are non-empty and free of ',' and ':' |
| `Envelope.InnerExactly` | src/lib/common/datacrypt.cpp:101-113 | decode looks into a text if and only if it is ENC[, that text, a bracket and white space |
| `Envelope.DecodedIsPlain` | src/lib/common/datacrypt.cpp:101-127 | whatever decode delivers is non-empty and free of both delimiters |
| `Envelope.DecodedSections` | src/lib/common/datacrypt.cpp:101-127 | a successful decode saw four sections, each label on exactly one of them |
| `Envelope.AnyOrderDecodes` | src/lib/common/datacrypt.cpp:101-127 | conversely, four sections with the four labels decode to their values in any order |
| `Envelope.PaddedKey` | src/lib/common/datacrypt.cpp:201-210 | an empty key throws; otherwise octet i of the result is octet i modulo the length of the key, for the cipher's key size |
| `Envelope.KeySizes` | src/include/common/datacrypt.hpp:94-102 | the key sizes are the bits in the names of the ciphers |

## Left out

- OpenSSL, SQLite, yaml-cpp, DNS, sockets and their options, KVStore, Config and X.509 loading: foreign code or thin wrappers; base64 and GCM are opaque.
- Logging, statistics and timers of the listener, and the listener's use of its own socket pointer after pushing it.
- A lower bound on the pool: `cleanStoppedServers` counts servers that were already asked to stop.
- The error codes of `TCPConnectionData::readBuffer`: a read ends in any way.
- HttpSockets.ReadToken: with a peer that has closed the connection, a scan that would run past the end of the stream is a precondition; the source goes on over the octet of the last delivery there, without end if it fits. The same holds for HttpSockets.ReadNewline, HttpSockets.ReadChunkSize, HttpSockets.ReadOctets and HttpSockets.ReadChunkedBody.
- HttpSockets: the request and response parsers as a whole are modelled over a string only.
- Values folded over more than two lines are in the parsers but in no theorem; chunk extensions are not accepted by the code.
- HttpRoundTrip.ResponseRoundTrip: the table of reason phrases; the phrase is any text without CR.
- The state variable of `HTTPRequestLine::parse`: its states follow one another without going back, so the method runs them in sequence.
- HttpObjects.HTTPMessage.PrintHeaders: the order in which `std::map` iterates is not fixed; every order of the keys is covered.
- ReadBuffers.SocketReadBuffer.Receive: a receive that throws or ends in another error than EAGAIN.
- ReadBuffers.FileReadBuffer.constructor: a file that cannot be opened.
- Ping.PingStats.Success: floating-point rounding, and the square root of `stddev`.
- `Bytes::match`, the `append` without a count, base64 and random filling, STOMP, `escapedSplit`.
- Re-entrant calls of `load` into the same cache, and memory exhaustion.
- Bracketed IPv6 text is checked for its characters only, as in the source.
