# CarfLib in Dafny

CarfLib is a Reactor network library with an HTTP server on top. This project models the parts of it that hold state
and decisions, and proves what they promise over every input, every run and every interleaving:

- **HTTP parsing** (`Text`, `Buffers`, `HttpRequests`, `HttpContexts`, `RequestLines`, `ChunkSplits`, `Framing`): the
  byte buffer, the resumable parser that is re-entered after every read, the exact language it accepts, and exactly
  which streams parse the same however they are divided into reads. The grammar is the code's, which is looser than
  sections 3.1.1, 3.2 and 3.3.2 of RFC 7230.
- **The two printers** (`HttpResponses`, `CStrings`, `Webbench`): the response header block and the load generator's
  request, each read back by that parser.
- **The connection's output and input** (`TcpConnections`): partial writes, write interest, and reads into the buffer.
- **Hand-off between threads** (`Counting`, `EventLoops`, `BlockQueues`, `ConnectionPools`): step relations over any
  number of threads, with the points between a push and its wakeup, waiting, and woken but without the mutex.
- **Idle connections** (`TimerQueues`, `IdleTimers`, `IdleHistory`, `IdleCoverage`, `IdleServers`): the timer map,
  deferred re-arming, activity stamps and weak references as one protocol, its results told by the events of a run.
- **Supporting machines** (`LogFiles`, `Epolls`, `LoopPools`): log rolling behind the blocking queue, channel
  registration against the kernel's interest set, round-robin dispatch.

An object of the program that updates its fields is a class here. Each of its methods is proved equal to a step of the
specification (a function such as `Run`, `Apply` or `Next` on the abstract state), and the properties are lemmas about
that specification. The concurrent parts are step relations whose steps are the atomic regions; the class methods are
those regions.

## Where the code and its promise differ

The code is modelled as it is. Where a promise does not hold for all inputs, the exact condition is proved:

- Growing a `Buffer` keeps the readable bytes only when they start at index 0 or are all NUL (`ResizeExact`,
  `AppendExact`); `OutputLoses` is a run of a fresh connection that loses a byte this way, and `StepConserves` says that
  no other defined step can.
- Growing a `Buffer` from which more bytes were read than are pending is undefined: the copied range ends before it
  starts. handleWrite advances the read index without ever resetting it, so a fresh connection gets there without losing
  anything first (`SafeRunToUndefined`); `SendDefinedExact` says exactly when a send is defined. Runs of the model stop
  in front of an undefined step.
- A read that fills the buffer exactly is overwritten with NULs (`ReadExact`).
- A POST body is independent of the reads exactly when it is free of CRLF and no longer than declared, or no body is
  asked for (`ChunkIndependence`, `PostIndependence`).
- `CONNECT` is misspelt in the parser, so printing a method and reading it back fails for it alone (`MethodRoundTrip`).
- The blocking queue can deadlock exactly when its capacity is 0 (`DeadlockOnlyAtZero`).
- The asynchronous log never counts messages, so its day test works exactly when `checkEveryN` is not positive
  (`AsyncDayRolls`), against the comment at `base/LogFile.h:28`.
- The timer map is keyed by expiration alone, so live connections can lose their timers: two accepted in one microsecond
  (`EqualExpirationsLoseTimer`), any two that are both silent at a check (`SilentClientsLoseTimer`), and one whose key
  equals that of a connection being removed (`RemovalTakesTimer`). `CoverageStep`, `CoverageOnRuns` and `TimerCoverage`
  say exactly which steps and runs keep every timer; a lost one never comes back (`LostForever`).
- With a hold time of 0 seconds a connection checked before its first read gets the largest time as its next
  expiration; live timers stay within an interval of the last read exactly when the hold time is positive
  (`KeysBoundedExact`).
- A connection that never sends anything is never shut down by its timer, because its activity stamp starts at the
  largest time (`NeverEarly`); `Timer.md:2` reads as if it were.
- webbench copies host and port into arrays of 64 and 10 without a bound; an accepted URL fits exactly when
  `ArraysFitExact` says so, and `HostOverruns` gives one that does not.
- `disableAll` on a channel that is not registered registers it (`DisableAllExact`).

## Model

| member | source | states |
|---|---|---|
| `Text.StoiDecimal` | http/HttpResponse.cc:17-18 | the length printed with %zd is read back by std::stoi (http/HttpContext.cc:103) up to INT_MAX, and makes it throw beyond |
| `Text.TrimSplits` | http/HttpRequest.h:131-139 | the two trimming loops strip white space only, and all of it at both ends |
| `Text.StoiExact` | http/HttpContext.cc:103 | std::stoi returns v if and only if the text is white space, a sign, digits with that value, and something that is no digit, and v is an int; otherwise it throws |
| `Buffers.ResizeExact` | net/Buffer.cc:14-18 | resize keeps the readable bytes if and only if they start at index 0 or are all NUL |
| `Buffers.ResizeLoses` | net/Buffer.cc:14-18 | what resize leaves at a read index r > 0: the first r readable bytes are gone, the last r are NULs |
| `Buffers.AppendExact` | net/Buffer.cc:2-6 | append adds the bytes after the readable ones if and only if no growth is needed, or the read index is 0, or there are only NULs to lose |
| `Buffers.AppendLosesBytes` | net/Buffer.cc:2-18 | a concrete append that turns "bc" into NULs |
| `Buffers.GrownSize` | net/Buffer.cc:3 | the growth loop stops at the smallest power-of-two multiple of the old size with enough room |
| `Buffers.OpExact` | net/Buffer.cc:2-13 | one append, retrieveLen or reset does what it does on a queue, except exactly the unsafe appends |
| `Buffers.BufferIsQueue` | net/Buffer.cc:2-13 | every sequence of operations that grows safely is a first-in first-out queue of bytes |
| `Buffers.Buffer.Append` | net/Buffer.cc:2-6 | the loop and the copy give the specified buffer; contents are kept exactly when safe |
| `Buffers.Buffer.Resize` | net/Buffer.cc:14-18 | a vector of twice the size with the source's copy range and unmoved indices |
| `Buffers.Buffer.RetrieveLen` | net/Buffer.cc:7-13 | the bytes returned followed by what is left are what was readable; the length is capped; a drained buffer restarts at 0 |
| `Buffers.Buffer.RetrieveAll` | net/Buffer.h:27 | returns exactly the readable bytes and leaves none |
| `Buffers.Buffer.FindCRLF` | net/Buffer.cc:19-22 | the first CRLF of the readable bytes, none if and only if they hold none |
| `Buffers.Buffer.AddReadIndex` | net/Buffer.h:29 | drops exactly that many bytes from the front |
| `HttpRequests.MethodRoundTrip` | http/HttpRequest.h:26-108 | printing a method and setting it from the text is the identity if and only if the method is not CONNECT |
| `HttpRequests.MethodExact` | http/HttpRequest.h:26-67 | each method other than PATH is selected by exactly one token, so any other token selects PATH |
| `HttpRequests.HeaderReadBack` | http/HttpRequest.h:127-141 | "key: value" is read back as key and value for a key without ':' and a trimmed value |
| `HttpRequests.HeaderLineIs` | http/HttpRequest.h:127-141 | any header line gives the text before its first ':' and the text after it without the white space around it, if there is any |
| `HttpRequests.HttpRequest.SetMethod` | http/HttpRequest.h:26-67 | every token is accepted; unknown ones select PATH |
| `HttpRequests.HttpRequest.AddHeader` | http/HttpRequest.h:127-141 | the two loops record the trimmed value under the field and change nothing else |
| `HttpRequests.HttpRequest.Swap` | http/HttpRequest.h:157-165 | the two requests are exchanged completely |
| `HttpContexts.StepEffect` | http/HttpContext.cc:53-120 | every iteration that continues lowers (state, unread bytes) and keeps the outcome; one that stops leaves the state and the unread bytes alone |
| `HttpContexts.RunStarves` | http/HttpContext.cc:47-121 | a true return before kGotAll leaves no complete line (line states) or an empty buffer (body state); false stands at a complete refused line with nothing consumed; an exception only at a Content-Length that is no int |
| `HttpContexts.HttpContext.ParseRequest` | http/HttpContext.cc:47-121 | the loop over the buffer terminates in the state, request, unread bytes and verdict of the specification |
| `HttpContexts.HttpContext.ProcessRequestLine` | http/HttpContext.cc:5-46 | verdict and every field set, including those left set by a refused line |
| `HttpContexts.HttpContext.Reset` | http/HttpContext.h:20-25 | the parser is as new |
| `RequestLines.RequestLineLanguage` | http/HttpContext.cc:5-46 | a line is accepted if and only if it is m SP t SP "HTTP/1.0" or "HTTP/1.1" with no space in m and t |
| `RequestLines.SpelledLine` | http/HttpContext.cc:5-46 | what an accepted line records, whatever the request held |
| `RequestLines.SpellingUnique` | http/HttpContext.cc:5-46 | an accepted line has one reading only |
| `RequestLines.FreshLine` | http/HttpContext.cc:10-43 | from a fresh request path ++ query is the target, the path is free of '?', and nothing else is recorded |
| `RequestLines.RefusedAgain` | http/HttpContext.cc:5-46 | re-reading a refused line changes nothing more |
| `RequestLines.RefusedRecords` | http/HttpContext.cc:9-43 | what a refused line leaves set: nothing, the method, or the method and the target |
| `ChunkSplits.HeadResume` | http/HttpContext.cc:53-99 | the request line and headers can be interrupted after any byte and resumed, for every stream |
| `ChunkSplits.RunResume` | http/HttpContext.cc:47-121 | on a tame stream so can the whole parse, and the rest is tame again |
| `ChunkSplits.RunStops` | http/HttpContext.cc:47-121 | calling the parser again without new bytes changes nothing |
| `ChunkSplits.ChunkIndependence` | http/HttpContext.cc:47-121 | state, request, unread bytes and verdict are the same for every division of the stream into reads if and only if the stream is tame |
| `ChunkSplits.NotPostIsTame` | http/HttpContext.cc:89-90 | every stream whose method is not POST is tame |
| `ChunkSplits.BadCutSplits` | http/HttpContext.cc:100-117 | a body that is not tame gives another result when cut inside its first CRLF or at the declared length |
| `ChunkSplits.WildReads` | http/HttpContext.cc:47-121 | every stream that is not tame has a division into two reads with another result |
| `Framing.AcceptedStreams` | http/HttpContext.cc:47-99 | a stream yields a complete non-POST request and leaves a given rest if and only if it is the encoding of a valid message for that request followed by that rest |
| `Framing.ParseMsg` | http/HttpContext.cc:47-99 | a valid message is parsed into its request, leaving exactly the tail |
| `Framing.MsgOfHead` | http/HttpContext.cc:53-99 | whatever gets past the headers begins with a valid message |
| `Framing.PostBody` | http/HttpContext.cc:105-115 | of body bytes x CRLF y with x free of CRLF the parser keeps y, of bytes without CRLF all of them; the request is complete exactly when that has the declared length; nothing stays unread |
| `Framing.PostWithoutBody` | http/HttpContext.cc:103-104 | without a length that is an int the parser throws, with length 0 the request is complete and the bytes stay unread |
| `Framing.PostIndependence` | http/HttpContext.cc:100-117 | a POST message and its body bytes give the same result for every division into reads if and only if Content-Length is no int or 0, or the bytes are free of CRLF and do not run past it |
| `Framing.PipelinedRequests` | http/HttpContext.cc:76-98 | parsing and resetting k times on k valid non-POST messages and any tail gives those requests in order and leaves exactly the tail (reset: http/HttpContext.h:20-25) |
| `HttpResponses.LinesReadBack` | http/HttpResponse.cc:22-28 | printed header lines are read back as their keys and values, later ones overriding |
| `HttpResponses.ResponseRoundTrip` | http/HttpResponse.cc:11-31 | read after the status line, the header loop records the stored headers laid over the generated ones and leaves exactly the body |
| `HttpResponses.StatusLineReadBack` | http/HttpResponse.cc:5-9 | the printed response, cut at its first CRLF, is "HTTP/1.1 ", digits whose value is the code, a space and the message; what follows is the text of ResponseRoundTrip |
| `HttpResponses.OneHeaderBytes` | http/HttpResponse.cc:11-31 | the bytes after the status line for one stored header: generated lines, "key: value", empty line, body |
| `HttpResponses.SortedKeysSorted` | http/HttpResponse.cc:22-28 | the stored headers are printed once each, in ascending order of their keys |
| `HttpResponses.DeclaredLength` | http/HttpResponse.cc:15-20 | unless a stored header overrides it, a kept-alive response declares exactly the length of what is left unread; reading it throws exactly when that is no int |
| `HttpResponses.HttpResponse.AppendToBuffer` | http/HttpResponse.cc:3-32 | appends status line, generated headers, stored headers in map order, empty line and body to the output, growth included |
| `Webbench.BuildRequestRoundTrip` | test_presure/webbench-1.5/webbench.c:199-291 | for an accepted URL scheme://authority/target that fits the arrays and is clean of spaces and CRLF: printed for 1.0 or 1.1 it is parsed completely into the method, the version, path ++ query == the target (the URL for a proxy), and exactly the headers User-Agent, Host (the authority up to its first ':'), Pragma and Connection that apply; nothing is left. For any other level it is refused at the request line |
| `Webbench.UrlParts` | test_presure/webbench-1.5/webbench.c:236-263 | host, port text and printed target in terms of the URL's parts |
| `Webbench.CheckUrlExact` | test_presure/webbench-1.5/webbench.c:223-244 | a URL is accepted if and only if it has at most 1500 characters, begins with http:// or goes to a proxy, and splits into scheme, authority and target |
| `Webbench.IsHttpExact` | test_presure/webbench-1.5/webbench.c:234-235 | the prefix http:// is recognised in any mixture of cases |
| `Webbench.RequestBytes` | test_presure/webbench-1.5/webbench.c:212-290 | the bytes printed for 1.0 and 1.1, line by line |
| `Webbench.PortExact` | test_presure/webbench-1.5/webbench.c:248-258 | the port connected to is the number the port text begins with, 80 if that is 0 or missing, unchanged without a ':' or with a proxy |
| `Webbench.LevelExact` | test_presure/webbench-1.5/webbench.c:207-210 | the HTTP level is the least one, not below the one asked for, that the options need |
| `Webbench.ArraysFitExact` | test_presure/webbench-1.5/webbench.c:49-51 | for an accepted URL all three arrays suffice (host[64], tmp[10] at line 201, request[2048]) if and only if there is a proxy, or the host has at most 63 characters and the port at most 9 |
| `Webbench.HostOverruns` | test_presure/webbench-1.5/webbench.c:250-262 | an accepted URL whose host overruns its array |
| `Webbench.PlainUrlSendable` | test_presure/webbench-1.5/webbench.c:223-262 | every host name below 64 characters without spaces, '/', ':' makes a URL the round trip applies to |
| `Webbench.Bench.BuildRequest` | test_presure/webbench-1.5/webbench.c:199-291 | the strcat and strncpy calls on the three arrays stay in bounds and leave that request, host and port, or the URL is refused for the first of the source's four reasons |
| `TcpConnections.SendDefinedExact` | net/TcpConnection.cc:115-132 | a send is defined whatever the kernel answers if and only if the data fits behind the write index or no more bytes were read from the buffer than are pending in it |
| `TcpConnections.SafeRunToUndefined` | net/TcpConnection.cc:63-73 | a run of a new connection that loses nothing, after which a send is undefined, because handleWrite drains the buffer without resetting its indices |
| `TcpConnections.StepConserves` | net/TcpConnection.cc:61-91 | a defined step keeps wire ++ pending == sent if and only if it is not a send that grows the buffer unsafely (send: lines 115-132) |
| `TcpConnections.OutputConserved` | net/TcpConnection.cc:61-132 | over every defined run with arbitrary partial writes that grows safely, wire ++ pending bytes is everything sent, in order |
| `TcpConnections.OutputExact` | net/TcpConnection.cc:61-132 | over every such run the wire is the first bytes of everything sent, exactly as many as the kernel took, and the rest is pending |
| `TcpConnections.EdgeInterest` | net/TcpConnection.cc:74-132 | edge-triggered, EPOLLOUT is enabled exactly from the first time bytes were queued or a write was stopped by EAGAIN |
| `TcpConnections.OutputLoses` | net/TcpConnection.cc:115-132 | a run of a new connection after which it is not |
| `TcpConnections.InterestOnRuns` | net/TcpConnection.cc:61-132 | on every defined run, safe or not: level-triggered, EPOLLOUT is enabled exactly while bytes are pending; edge-triggered, whenever bytes are pending |
| `TcpConnections.ReadExact` | net/TcpConnection.cc:37-43 | a read is appended to the unread bytes if and only if it leaves room, or only NULs could be lost |
| `TcpConnections.FullRead` | net/TcpConnection.cc:42-43 | what a read that fills the buffer leaves: the resized old bytes, and NULs in place of the new ones |
| `TcpConnections.TcpConnection.SendData` | net/TcpConnection.cc:115-132 | is the Send step for some answer of the kernel |
| `TcpConnections.TcpConnection.HandleWriteLevel` | net/TcpConnection.cc:63-73 | is the level-triggered step |
| `TcpConnections.TcpConnection.HandleWriteEdge` | net/TcpConnection.cc:74-90 | the write loop terminates and is the edge-triggered step |
| `TcpConnections.ReadsAppend` | net/TcpConnection.cc:45-58 | edge-triggered reads that together leave room are all appended, in order |
| `TcpConnections.TcpConnection.HandleReadLevel` | net/TcpConnection.cc:34-44 | closes on an empty read, changes nothing on a failed one, otherwise the bytes land as ReadExact describes |
| `TcpConnections.TcpConnection.HandleReadEdge` | net/TcpConnection.cc:45-58 | the read loop lands every read behind the one before, until end of stream or EAGAIN |
| `TcpConnections.TcpConnection.Receive` | http/HttpServer.cc:8-11 | a read that leaves room, followed by the parser, is the parser on the unread bytes followed by the new ones |
| `TcpConnections.TcpConnection.ReceiveAll` | http/HttpServer.cc:8-11 | a new connection's reads that leave room end where the chunked feed does, and on a tame stream where one call on all the bytes does |
| `EventLoops.InvStep` | net/EventLoop.cc:22-56 | pending functions are covered by a readable eventfd, a caller about to write it, or the loop before its swap; executed ++ batch ++ queued is what was submitted |
| `EventLoops.NoLostWakeup` | net/EventLoop.cc:22-78 | in every interleaving, when the loop sleeps on an unreadable eventfd with no call under way, what was executed is what the run's pushes submitted, once and in order |
| `EventLoops.ExecutedInOrder` | net/EventLoop.cc:34-41 | at every moment the executed functions are a prefix of the submitted ones |
| `EventLoops.RoundExecutesAll` | net/EventLoop.cc:34-41 | one round of the loop executes everything submitted before its swap |
| `EventLoops.SleepsAgain` | net/EventLoop.cc:26-42 | after the wakeup handler and an uninterrupted round the eventfd is unreadable again and everything submitted was executed |
| `EventLoops.EventLoop.QueueInLoop` | net/EventLoop.cc:48-56 | is the push followed by the wakeup |
| `EventLoops.EventLoop.Wakeup` | net/EventLoop.cc:61-69 | adds one to the eventfd unless it is saturated |
| `EventLoops.EventLoop.HandleRead` | net/EventLoop.cc:70-78 | empties the eventfd |
| `EventLoops.EventLoop.RunTasks` | net/EventLoop.cc:34-41 | swaps and executes all that was queued |
| `BlockQueues.InvStep` | base/BlockQueue.h:18-38 | waiting consumers leave at most as many items as consumers are woken, and symmetrically; kept by every step, barging and spurious wakeups included |
| `BlockQueues.QueueFifo` | base/BlockQueue.h:18-38 | in every run the arguments of the completed push_back calls, in order, are what was popped followed by what is queued; as many were popped as pop_front calls completed; used is the length, within the capacity |
| `BlockQueues.NoLostSignal` | base/BlockQueue.h:18-38 | an item in front of a waiting consumer has a woken consumer coming, a free slot in front of a waiting producer a woken producer |
| `BlockQueues.WaitersHaveCause` | base/BlockQueue.h:18-38 | when nobody can move, consumers wait only on an empty queue and producers only on a full one |
| `BlockQueues.DeadlockOnlyAtZero` | base/BlockQueue.h:18-38 | some interleaving ends with producers and consumers all waiting if and only if the capacity is 0 |
| `BlockQueues.BlockQueue.PushBack` | base/BlockQueue.h:18-26 | one pass of the critical section: waits, or pushes and signals |
| `BlockQueues.BlockQueue.PopFront` | base/BlockQueue.h:28-38 | one pass: waits, or returns the front and signals |
| `ConnectionPools.InvStep` | http/sql_connection_pool.cc:65-100 | ownership, counters and signal coverage are kept by every step |
| `ConnectionPools.ExclusiveOwnership` | http/sql_connection_pool.cc:65-142 | in every interleaving each connection is in the list once or held by exactly one user, and the counters match and add up |
| `ConnectionPools.PoolFifo` | http/sql_connection_pool.cc:75-94 | in every run the handles given out followed by the list are the initial list followed by the handles returned |
| `ConnectionPools.WaitersHaveCause` | http/sql_connection_pool.cc:65-100 | although the signal follows the unlock: when a user waits and nobody is woken or about to signal, every connection is held |
| `ConnectionPools.ConnectionPool.Open` | http/sql_connection_pool.cc:36-60 | the loop leaves every opened connection in the list and the counters set |
| `ConnectionPools.ConnectionPool.TestEmpty` | http/sql_connection_pool.cc:69-70 | the unlocked test |
| `ConnectionPools.ConnectionPool.GetPass` | http/sql_connection_pool.cc:72-81 | one locked pass: waits, or hands out the front |
| `ConnectionPools.ConnectionPool.ReleaseLocked` | http/sql_connection_pool.cc:90-96 | the handle goes back to the end of the list |
| `LogFiles.WriteKeeps` | base/LogFile.cc:38-72 | a handled message is written once, after all before it; with a positive rollSize writenBytes ends below it |
| `LogFiles.RollExact` | base/LogFile.cc:40-51 | exactly when a message ends the segment, in both modes (asyWrite: lines 61-71), and that the next one is empty and has the day of the roll |
| `LogFiles.SegmentSize` | base/LogFile.cc:44 | a segment between two rolls ended by its size is at least rollSize and less than rollSize plus its last message |
| `LogFiles.AsyncLogRefines` | base/LogFile.cc:31-74 | in every interleaving the segments, then the message in flight, then the queue are the messages of the completed pushes, in order; with a positive rollSize segments are bounded |
| `LogFiles.SyncNoticesDay` | base/LogFile.cc:45-51 | after a direct append the open segment has the day read, or fewer than checkEveryN messages |
| `LogFiles.AsyncDayRolls` | base/LogFile.cc:65-71 | in asynchronous mode a new day ends a segment in some run if and only if checkEveryN is not positive |
| `LogFiles.LogFile.AppendFile` | base/LogFile.cc:38-52 | is WriteSync |
| `LogFiles.LogFile.AsyWriteOne` | base/LogFile.cc:57-72 | is WriteAsync |
| `LogFiles.LogFile.RollFile` | base/LogFile.cc:84-97 | ends the segment and clears the counters |
| `TimerQueues.DelayExact` | net/TimerQueue.cc:26-37 | the pair handed to the timer descriptor is proper and is the distance to the expiration, at least 100 microseconds |
| `TimerQueues.DueUnique` | net/TimerQueue.cc:76-86 | there is only one list of the due entries in key order |
| `TimerQueues.TimerQueue.HandleRead` | net/TimerQueue.cc:72-89 | every entry with key at most now fires once, in key order, exactly the later keys stay, and the pass ends whatever is re-armed because re-insertion is deferred |
| `TimerQueues.InsertErase` | net/TimerQueue.cc:94-106 | deleting by expiration undoes an insertion if and only if the expiration was free; otherwise it deletes the timer that was there |
| `TimerQueues.InsertOrder` | net/TimerQueue.cc:94-100 | two insertions commute if and only if they do not compete for a free key |
| `IdleTimers.InvStep` | net/TcpServer.cc:61-125 | map, queue, keys, never two tokens, none once shut: kept by every step of every thread, without any assumption on expirations |
| `IdleTimers.InMapAfter` | net/TimerQueue.cc:72-106 | for each connection, exactly when it has a map entry after a step |
| `IdleCoverage.TokenStep` | net/TimerQueue.cc:94-106 | a connection live after a step has a token if and only if it had one (or was just accepted) and the step did not take it |
| `IdleCoverage.CoverageStep` | net/TcpServer.cc:114-125 | a step keeps every live connection covered if and only if it neither runs an insertion into a key another connection uses, nor a removal whose key belongs to another live connection |
| `IdleCoverage.CoverageOnRuns` | net/TcpServer.cc:61-125 | every live connection is covered throughout a run if and only if no step of it loses a token |
| `IdleCoverage.TimerCoverage` | net/TcpServer.cc:75-93 | in every run a connection neither removed nor shut has exactly one token, in the map or queued, if and only if no step took it; a shut one has none; with a positive hold time its key is at most its last read plus the interval |
| `IdleCoverage.DistinctKeepsTokens` | net/TimerQueue.cc:94-106 | while expirations are pairwise distinct no step loses a token |
| `IdleCoverage.LostForever` | net/TcpConnection.cc:142-160 | a live connection without a token is never shut down and never gets one again |
| `IdleHistory.StampIsLastRead` | net/TcpConnection.cc:35 | in every run the activity stamp is the time of the connection's last read event, the largest time if there is none (line 19) |
| `IdleHistory.ExpirationIsDeadline` | net/TcpConnection.cc:148-152 | in every run a timer's expiration is one interval after the accept, or after the last read as of the last re-arming |
| `IdleHistory.NeverEarly` | net/TcpConnection.cc:142-160 | in every run a connection is shut only by a firing of its timer at which its last read event was an interval ago or more and its last output event had left nothing pending |
| `IdleCoverage.IdleBound` | net/TimerQueue.cc:72-89 | told by the events of the run: when a tick ends, a connection whose last read was an interval before the tick began was found idle by a firing of its timer, closed, accepted in this round, had bytes pending when its timer fired in this round, or had its token taken |
| `IdleTimers.ShutsOnlyIdle` | net/TcpConnection.cc:148-157 | only firing its timer with nothing pending and the interval past shuts a connection |
| `IdleCoverage.Excuses` | net/TcpConnection.cc:148-152 | the state's record of both excuses of the round is genuine and lasts one round |
| `IdleTimers.DeadNeverActs` | net/TimerQueue.h:29-32 | the timer of a removed or destroyed connection never acts again, in any step |
| `IdleCoverage.KeysBoundedExact` | net/TcpServer.cc:75-79 | live timers stay due within an interval of the last read in every run if and only if the hold time is positive |
| `IdleCoverage.SilentClientsLoseTimer` | net/TcpConnection.cc:149-152 | two clients accepted at any two different times and both silent at a check are re-armed to one expiration, and the second loses its timer (the activity stamp starts at the largest time, net/TcpConnection.cc:19) |
| `IdleCoverage.RemovalTakesTimer` | net/TcpServer.cc:114-125 | a run in which the removal of a shut connection erases the map entry of a live one |
| `IdleCoverage.EqualExpirationsLoseTimer` | net/TimerQueue.cc:94-100 | two connections accepted in one microsecond: the second ends without any token |
| `IdleServers.Server.NewConnection` | net/TcpServer.cc:75-93 | is the Accept step |
| `IdleServers.Server.RunTimer` | net/TcpConnection.cc:142-160 | Timer::run, handleTimer and the erasure are the Fire step |
| `IdleServers.Server.HandleRead` | net/TimerQueue.cc:72-89 | an undisturbed pass is a run of Fire steps over exactly the due timers, in key order, between the two ends of the tick; exactly the later keys stay |
| `IdleServers.Server.RunNextTask` | net/TcpServer.cc:114-125 | removal and deferred insertion are the RunTask step |
| `Epolls.MirrorStep` | net/Epoll.cc:30-55 | one registration call keeps the mirror |
| `Epolls.MirrorAlways` | net/Epoll.cc:30-55 | after any sequence of calls, with channels created on and destroyed off reused descriptors, the channel map is the kernel's interest set, masks included, residents have index kAdded, and ADD, MOD and DEL were never refused |
| `Epolls.DestroyExact` | net/TcpConnection.cc:26-31 | closing the descriptor and deleting the channel keeps the mirror if and only if disableAll has unregistered it |
| `Epolls.DisableAllExact` | net/Channel.h:25 | disableAll ends unregistered if and only if the channel was registered |
| `Epolls.KernelHistory` | net/Channel.h:19-25 | over every sequence of calls: a channel is in the interest set exactly when the calls since its creation registered it, and a bit is then in its kernel mask exactly when the last enable or disable naming the bit was an enable |
| `Epolls.EnableRegisters` | net/Channel.h:19-21 | enabling registers the whole mask, also after disableAll |
| `Epolls.Epoll.UpdateChannel` | net/Epoll.cc:30-55 | the branches and epoll_ctl calls of updateChannel |
| `Epolls.Epoll.EnableEvents` | net/Channel.h:19-21 | enableReading, enableWriting, enableET keep the mirror |
| `Epolls.Epoll.DisableEvents` | net/Channel.h:22-24 | so do disableReading, disableWriting, diableET |
| `Epolls.Epoll.DisableAllEvents` | net/Channel.h:25 | and disableAll |
| `LoopPools.PicksShare` | net/EventLoopThreadPool.cc:25-30 | how many of m picks from any position fall on a slot |
| `LoopPools.BalancedDispatch` | net/EventLoopThreadPool.cc:25-30 | of m calls after start each of n slots gets the quotient, the first m mod n one more |
| `LoopPools.EventLoopThreadPool.Start` | net/EventLoopThreadPool.cc:31-39 | every slot is filled, in order |
| `LoopPools.EventLoopThreadPool.GetNextLoop` | net/EventLoopThreadPool.cc:25-30 | the own loop for an empty pool, else the next slot; never NULL |
| `LoopPools.EventLoopThreadPool.GetLoops` | net/EventLoopThreadPool.cc:25-30 | m calls in a row pick the slots counted by BalancedDispatch |

## Left out

- Bytes: a C `char` is a Dafny `char`, a larger alphabet; every theorem holds for bytes.
- Buffer sizes beyond 2^31 - 1: int overflow of the indices is not modelled.
- Buffers.Buffer.Resize: when more bytes were read than are left the source copies a range whose end precedes its start, which is undefined; excluded by `CanResize`.
- Buffers.Buffer.Append: a buffer of size 0 would never finish growing; a positive size is required.
- HttpResponses.HttpResponse.AppendToBuffer: the caller's buffer is read from index 0, as in `HttpServer::onRequest`.
- HttpResponses.ResponseRoundTrip: keys with ':' or CRLF and values with CRLF or outer white space cannot be read back; the parser's method is not POST, and a printed length has at most 13 digits (snprintf truncates longer ones).
- HttpResponses.StatusLineReadBack: a status code of more than 21 digits is truncated by snprintf; a message with CRLF ends the line early.
- Webbench.PortExact: a port text whose number is no int (possible only where the array would overrun) is read without overflow.
- TcpConnections.TcpConnection.SendData: a send that must grow a buffer with more bytes read than pending is undefined and excluded (`SendDefinedExact`).
- TcpConnections.TcpConnection.HandleWriteEdge: write() fails only with EAGAIN; after any other error the source moves the indices by -1.
- TcpConnections.TcpConnection.HandleReadEdge: read() fails only with EAGAIN or EWOULDBLOCK, for the same reason.
- TcpConnections.TcpConnection.Receive: what onMessage does after the parser (400 response, onRequest, reset) is not part of it.
- Webbench.Bench.BuildRequest: URLs that overrun the arrays for host and port are excluded (`ArraysFitExact`); the arrays are those of Linux, where MAXHOSTNAMELEN is 64.
- IdleHistory.NeverEarly: the clock is monotone and below the largest time, the reads of handleTimer are one atomic step, shutdowns asked for by the HTTP layer and a negative hold time (no timers at all) are not modelled.
- IdleCoverage.IdleBound: that ticks keep coming is the timer descriptor's promise and is not modelled.
- IdleServers.Server.HandleRead: the clock and the I/O threads stand still during the pass; the step relation of IdleTimers lets them move.
- EventLoops: which events epollWait reports, the handlers' own work and the exit through `_quit` are not modelled; a callee pushing from the loop's own thread is.
- BlockQueues and ConnectionPools: mutexes are modelled by atomic critical sections, and the unlocked test of GetConnection as an atomic read.
- ConnectionPools: opening MySQL connections and DestroyPool.
- LogFiles.SegmentSize: the bound is on segments; files are named by the second and opened for appending, so segments begun in one second share a file. Flushing and the shutdown through setOver and join are not modelled.
- LoopPools.EventLoopThreadPool.Start: a thread's start and registration are one atomic step; the handshake in base/Thread.cc is not modelled.
- Epolls: channel objects are values in a map by identity, so aliasing of two pointers to one channel is not captured.
- HttpServer: one parse for each read event, routing, file serving and SQL.
- Sockets, timerfd, eventfd and epoll themselves: their answers are choices of the environment.
- Logger, Timestamp formatting, the Thread class, and webbench outside build_request.
