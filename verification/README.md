# Chatroom verification

A Dafny model of the chat server's byte-level, scheduling and delivery machinery, with
proofs over all inputs and all interleavings. `dafny verify dfyconfig.toml` checks it.

## What is modelled

| file | subject |
|---|---|
| `Framing.dfy` | wire format, linear decoder, and `Parse`, the meaning of a byte stream |
| `SendLoop.dfy` | the send loop with its retries |
| `Ring.dfy` | the receive ring: on values, and in place with the circular decoder and the append |
| `ParserPool.dfy` | receive loop, drain loop and the shared descriptor sets, in place |
| `ParserProtocol.dfy` | reactor, parser threads and task queue as one transition system |
| `ParserShape.dfy`, `ParserScheduling.dfy`, `ParserStream.dfy` | what every step of it keeps, and the theorems over whole runs |
| `ParserSteps.dfy` | what its single steps are for: connections stay, close only for a reason, and threads move on |
| `ParserOverfill.dfy` | a run that fills a ring to its last byte |
| `Decoders.dfy` | the console client's and the web proxy's decoders |
| `WorkerPool.dfy`, `ConnectionPool.dfy` | the elastic worker pool and the database-connection pool |
| `Timeouts.dfy` | idle timeouts with a lazily cleaned heap |
| `Routing.dfy`, `Replay.dfy`, `Delivery.dfy` | texts on the direct and on the Redis way; the list of unread messages at sign-in; the delivered flag across servers |
| `Subscription.dfy` | the Redis subscription queue |
| `QuietDelivery.dfy` | routing and client together: nothing delivered is taken for an answer |
| `ChatClient.dfy` | the console client's state machine, alone and with a server |

The ring and the parser pool are layered: `Parse` is the specification; the circular
decoder and the append are proved against it in place; the transition system uses the
ring's value functions and lemmas step by step, with the append split into size reading, two
copies and tail update and the decoding split into tail reading and decoding; its whole-run
theorems speak about `Parse` of all bytes received. The delivery system sends the
actual texts of the routing layer and relies on its transparency theorem.

Each concurrent component is a state, a set of steps (`Enabled`, `Apply`), an invariant that
every step keeps, and theorems about all reachable states. A step is one critical section,
or one access to an unprotected shared variable where the code accesses it outside a lock.
Steps are sequentially consistent. Clock, socket results, database and ping answers, thread
choice and spurious wake-ups are free inputs. Fields called history in the comments record
what happened and decide nothing.

## Where the code does not do what one would expect

- The append guard accepts a chunk that fills the ring exactly; the ring then reads as empty
  (`Ring.PublishContents` has the exact condition). The stream theorems therefore speak of
  connections whose ring was never filled, and `ParserStream.OnlyTightReadsFill` gives the
  condition on the guard that a caller can watch. `ParserOverfill.FullRingLosesEverything` is
  such a run: four reads without a drain, and four whole messages are gone. The client's flat
  buffer has no such case.
- The comment in the client promises to clear four bytes after an invalid length; the code
  drops one, as the server does. The model follows the code.
- The proxy does not check the length field; `Decoders.ProxyAgrees` says exactly when that
  makes a difference.
- A row can be flagged although its whole text was never queued, in exactly four ways
  (`Delivery.FlagSafety`), each of which happens in some run: it arrived between the SELECT
  and the UPDATE of a sign-in (`Delivery.GapLosesAMessage`), its line was cut off the list of
  unread messages, which is clipped at 65534 bytes before all unread rows are flagged
  (`Delivery.CutListLosesAMessage`), its number was published as the conversation number of an
  invitation (`Delivery.InvitationFlagsARow`), or its text was queued for him clipped
  (`Delivery.ClippedTextIsFlagged`).
- `notify_all` after a drain is not needed for `ParserStream.NoLostWakeup`: the thread that
  finishes looks again itself (`ParserScheduling.NotifyAllIsNotNeeded`).
- When opening a connection fails, `get_conn` locks a lock it already holds. The model has
  this as a crash after which nothing happens.
- Client and server both go on as if a message had been sent when `sendMessage` fails. The client
  then waits for an answer that cannot come; the same happens when the request is in a ring that
  is filled to the last byte, when the history is asked for before signing in (the handler is
  silent), and when the server stops serving the connection. `ChatClient.StuckExactly` shows that
  these are all the ways, for runs in which no frame is cut short in the middle, and
  `ChatClient.StuckIsReachable` has a run through each. A frame that is cut short takes the bytes
  it lacks from whatever follows (`Framing.TornFrame`), so that a reply given up can still let
  the client go (`ChatClient.TornReplyReleases`). The error text for want of a connection is
  queued only after the event loop has ended and never sent (`ChatClient.OneOutstandingRequest`).
- Input that fills the client's buffer of 65535 bytes ends the client. Text typed at two prompts
  without a line feed, and names and passwords longer than their arrays, are undefined behaviour;
  the model ends there with `Crash`.

## Model

| member | source | states |
|---|---|---|
| `Framing.LengthRoundTrip` | include/Protocol.h:29-45 | reading the four big-endian length bytes gives back the 32-bit length that was written, whatever follows |
| `Framing.LengthOrder` | include/Protocol.h:29-36 | big-endian: the four bytes are ordered as the lengths are, from the first byte on |
| `Framing.Extract` | include/Protocol.h:38-54 | a decided frame lies inside the buffer, its size is header plus body, and its body has 1 to 65536 bytes; a length is called invalid only when four bytes are there |
| `Framing.Codes` | include/Protocol.h:38-54 | -1 for an incomplete frame, -2 for an invalid length, the number of bytes for a message |
| `Framing.ExtractStable` | include/Protocol.h:38-54 | once the decoder has decided on a frame or an invalid length, later bytes do not change the decision |
| `Framing.ParseAppend` | src/server/ParserPool.cpp:90-128 | parsing a, keeping the residue and parsing it with b behind it equals parsing a followed by b: same messages, residue and number of dropped bytes, also through resynchronisation |
| `Framing.ChunkingIndependence` | src/server/ParserPool.cpp:90-128 | the same for every way of cutting a stream into reads |
| `Framing.ParseAccounting` | src/server/ParserPool.cpp:90-128 | every byte is in a header, a message, dropped, or in the residue, which is an undecided suffix of at most 65539 bytes; every message is legal |
| `Framing.StreamRoundTrip` | include/Protocol.h:29-54 | a list of messages survives encoding, concatenation and decoding with nothing left over if and only if every length is in 1..65536 |
| `Framing.TornFrame` | include/Protocol.h:38-89 | a frame cut short in its body takes the missing bytes from what follows, and nothing is decoded before they are there |
| `Framing.EncodeMessage` | include/Protocol.h:29-36 | the copied header and body are the encoding of the message, with the length taken modulo 32 bits |
| `Framing.ExtractMessage` | include/Protocol.h:38-54 | the linear decoder returns the code and the message of the specification for the first bufferLen bytes |
| `SendLoop.SendMessage` | include/Protocol.h:56-89 | the wire carries the bytes the kernel took and no more, all of the encoding exactly on success; success and failure are decided by where the first fatal answer of the kernel lies; every EAGAIN pauses except the one that ends the call, at most 5 times per encoded byte |
| `SendLoop.FatalMeans` | include/Protocol.h:65-85 | an error or a zero is fatal, and an EAGAIN exactly when a stretch up to it without a byte taken has more than five of them |
| `SendLoop.TakenAdds` | include/Protocol.h:62-66 | the bytes taken are the sum of what the single calls took |
| `SendLoop.NotCompleted` | include/Protocol.h:62-88 | a fatal answer before enough bytes were taken rules completion out for good |
| `Ring.CircularSizeExpression` | include/server/epoll_ser.h:57-59 | the size expression is the distance between the indices although its unsigned difference may wrap around |
| `Ring.AdvanceIsModulo` | include/Protocol.h:156-157 | the index update with the remainder operator is one conditional subtraction |
| `Ring.CopyKeepsUnread` | src/server/epoll_ser.cpp:511-515 | neither copy of an append touches the unread bytes when the chunk fits |
| `Ring.CopyStores` | src/server/epoll_ser.cpp:511-515 | after the first copy the part up to the array end, after the second the whole chunk lies where the tail update exposes it |
| `Ring.PublishContents` | src/server/epoll_ser.cpp:505-516 | the tail update appends the chunk if and only if a byte is left over; a chunk that fills the ring exactly makes it read as empty |
| `Ring.ConsumeContents` | include/Protocol.h:156-157 | moving the head over k bytes removes exactly the first k unread bytes |
| `Ring.ClientBuffer.SizeUpTo` | include/Protocol.h:115-115 | the computed size is the number of bytes between head and the given tail |
| `Ring.ClientBuffer.ReadHeader` | include/Protocol.h:121-132 | the header read in one or two pieces is the first four unread bytes |
| `Ring.ClientBuffer.ReadBody` | include/Protocol.h:146-154 | the body read in one or two pieces is the unread bytes behind the header |
| `Ring.ClientBuffer.ExtractMessageCircular` | include/Protocol.h:114-161 | for every head, tail and wrap-around the circular decoder returns the code and message of the linear one on the straightened bytes, consumes exactly those, and moves nothing on -1 and -2 |
| `Ring.ClientBuffer.SkipByte` | src/server/ParserPool.cpp:108-112 | exactly the first unread byte is dropped |
| `Ring.ClientBuffer.Store` | src/server/epoll_ser.cpp:511-515 | the two copies leave the unread bytes alone and put the chunk behind the tail |
| `Ring.ClientBuffer.Append` | src/server/epoll_ser.cpp:505-516 | accepted exactly when the chunk fits; contents become old followed by chunk with room to spare and empty when it fills the ring; unchanged on refusal |
| `ParserPool.DecodeOrSkip` | src/server/ParserPool.cpp:91-118 | one turn of the drain loop keeps extracted messages and unread bytes in account with everything received and shrinks the ring unless it stops |
| `ParserPool.ProcessBuffer` | src/server/ParserPool.cpp:90-128 | the drain loop ends; it queues the messages of the ring in order under its descriptor, leaves the residue of at most 65539 bytes, and bytes before equal framed, dropped and left |
| `ParserPool.HandleClintData` | src/server/epoll_ser.cpp:481-522 | the descriptor is announced if and only if every chunk fits when it comes and the peer did not hang up; the ring then holds the bytes since it was last filled to the last byte, with room to spare all of them; without room some byte is always missing afterwards |
| `ParserPool.ReceiveLoopMeans` | src/server/epoll_ser.cpp:481-504 | what arrives is the chunks up to the first result without one; a closed or failed socket there is a hangup |
| `ParserPool.RoomAfterDrain` | include/Protocol.h:21-25 | whatever was received before, after a drain k further bytes are sure to fit with a byte to spare if and only if k is at most 196604 |
| `ParserPool.GoodRoundsNeverOverflow` | include/Protocol.h:21-25 | rounds of reads that bring no more than a drain leaves free never overflow the ring or fill it |
| `ParserPool.Serve` | src/server/epoll_ser.cpp:472-522 | alternating receive and drain rounds queue the messages of the whole stream, however it is cut, as long as no read overflows the ring or fills it to the last byte |
| `ParserPool.FdSets.AddFd` | src/server/ParserPool.cpp:35-43 | always pending afterwards; a wake-up is asked for exactly when the set changed; in every state with these sets it is the announcing step of the transition system |
| `ParserPool.FdSets.TakeFd` | src/server/ParserPool.cpp:66-74 | moves one pending descriptor nobody works on, and finds none exactly when there is none; it is the choosing or the blocking step of the transition system |
| `ParserPool.FdSets.ClearFd` | src/server/ParserPool.cpp:45-48 | the descriptor is no longer pending; it is the clearing step |
| `ParserPool.FdSets.Release` | src/server/ParserPool.cpp:80-84 | the descriptor is no longer being processed; it is the releasing step |
| `ParserShape.KeepsShape` | src/server/epoll_ser.cpp:472-522 | every step of every thread keeps the indices in range and an append in progress inside the free part of its ring, although its room was measured before the parser moved on |
| `ParserScheduling.KeepsExclusive` | src/server/ParserPool.cpp:50-88 | processing holds exactly the descriptors some thread works on, each for one thread, after every step |
| `ParserScheduling.KeepsNothingStranded` | src/server/ParserPool.cpp:50-128 | after every step a decidable ring is pending, attended by a thread that will look again, or between tail update and announcement |
| `ParserScheduling.KeepsWorkConserving` | src/server/ParserPool.cpp:35-85 | after every step, while a thread is blocked, there are at least as many free threads as waiting descriptors |
| `ParserScheduling.NotifyAllIsNotNeeded` | src/server/ParserPool.cpp:80-85 | the same holds if the finishing thread wakes nobody and only looks for the next descriptor |
| `ParserSteps.ConnectionStays` | src/server/epoll_ser.cpp:472-480 | no step but a new accept or the closing of this descriptor replaces a connection or takes back received bytes |
| `ParserSteps.ConnectionStartsAnew` | src/server/epoll_ser.cpp:474-476 | a new connection starts with an empty ring and nothing received |
| `ParserSteps.GuardIsExact` | src/server/epoll_ser.cpp:505-510 | the guard closes if and only if the chunk does not fit, and otherwise goes on with this chunk |
| `ParserSteps.EventEnds` | src/server/epoll_ser.cpp:484-504 | an empty socket announces, a failed one closes, a chunk goes to the guard |
| `ParserSteps.ClosingIsComplete` | src/server/epoll_ser.cpp:407-427 | closing removes the ring, then the announcement, and nothing when the ring is gone already |
| `ParserSteps.LookingMovesOn` | src/server/ParserPool.cpp:90-128 | one look at a ring takes the first message and its bytes out, or drops one byte, or lets go |
| `ParserSteps.ThreadGoesOn` | src/server/ParserPool.cpp:76-128 | the task goes behind the others and the thread back to the ring; letting go frees the descriptor |
| `ParserSteps.TakingATask` | include/server/ThreadAndConnectionPool.h:208-209 | the worker pool takes the oldest task |
| `ParserStream.KeepsAccounted` | src/server/ParserPool.cpp:90-128 | every step keeps extracted messages plus parseable unread bytes equal to the parse of all received bytes, also when the tail was read before more bytes arrived |
| `ParserStream.KeepsHandedOver` | src/server/ParserPool.cpp:113-126 | every step keeps extracted tasks equal to dequeued, queued and the one in hand |
| `ParserStream.Conservation` | src/server/ParserPool.cpp:50-128 | in every reachable state, for a live connection whose ring was never filled: dequeued, queued, in hand and still in the ring are together the messages of all bytes received, in order |
| `ParserStream.DeliveredIsPrefix` | src/server/epoll_ser.cpp:407-427 | for every connection lifetime, also a closed one, what was handed on is an initial part of the messages received |
| `ParserStream.RingSafety` | src/server/epoll_ser.cpp:505-516 | the unread bytes are the last ones received, an old tail shows an initial part of them, and a chunk being copied fits behind them |
| `ParserStream.OnlyTightReadsFill` | src/server/epoll_ser.cpp:505-510 | a ring is only filled to the last byte after a guard reading that left no byte to spare |
| `ParserOverfill.FullRingLosesEverything` | src/server/epoll_ser.cpp:505-516 | for any four messages whose frames have 65536 bytes, a run in which four reads bring them, the guard admits all, and the connection is at rest with nothing queued and an empty ring |
| `ParserOverfill.TakeChunk` | src/server/epoll_ser.cpp:505-516 | the steps of one admitted read, with no parser thread in between, append the chunk to what was received and move the tail over it |
| `ParserStream.NoStrandedFrame` | src/server/ParserPool.cpp:35-88 | in every reachable state an intact ring with a complete frame or an invalid length is pending, being processed, or in the reactor's window |
| `ParserStream.RestIsComplete` | src/server/ParserPool.cpp:50-128 | in every reachable state, an intact connection that is neither pending nor processed nor in the reactor's window has all messages of its received bytes dequeued or queued, in order, and the undecided rest in its ring |
| `ParserStream.SentIsQueued` | include/Protocol.h:29-54 | end to end: if the bytes received are the encodings of legal messages, exactly these messages have been queued once the connection is at rest |
| `ParserStream.MutualExclusion` | src/server/ParserPool.cpp:66-84 | no two threads work on one descriptor |
| `ParserStream.NoLostWakeup` | src/server/ParserPool.cpp:39-41 | while a parser thread is blocked each waiting descriptor has a free thread of its own; a waiting descriptor never faces only blocked threads |
| `Decoders.ClientReceiver.Fill` | src/client/epoll_client.cpp:121-146 | true exactly when nothing hung up and everything fits, then all bytes are appended; an exact fit is accepted |
| `Decoders.ClientReceiver.ExtractOrDrop` | src/client/epoll_client.cpp:150-182 | one turn of the client's loop; the branch that empties a buffer of at most one byte is unreachable |
| `Decoders.ClientReceiver.RecvMessage` | src/client/epoll_client.cpp:116-186 | the client handles exactly the messages the server's decoder finds in the same bytes and keeps the same residue |
| `Decoders.ClientReceiver.Session` | src/client/epoll_client.cpp:116-186 | over any number of reads that do not overflow the buffer the client handles the messages of the whole stream and keeps its rest |
| `Decoders.BothEnds` | src/client/epoll_client.cpp:148-183 | a server ring and a client buffer that get one stream, cut in any two ways that overflow neither, hand on the same messages |
| `Decoders.ProxyConnection.OnData` | web_proxy/proxy.js:49-80 | the proxy forwards the messages of its parse while the socket is open and keeps the residue |
| `Decoders.BuildPacket` | web_proxy/proxy.js:99-107 | the packet is the encoding the server decodes; beyond 32 bits there is none |
| `Decoders.ProxyParseAppend` | web_proxy/proxy.js:49-80 | the proxy's parse does not depend on how the stream is cut |
| `Decoders.ProxyRoundTrip` | web_proxy/proxy.js:53-79 | messages of any length below 4 GiB, empty ones included, come through the proxy unchanged |
| `Decoders.NothingDropped` | src/server/ParserPool.cpp:108-112 | no byte is dropped if and only if the stream is the encodings of legal messages and an undecided rest |
| `Decoders.ProxyAgrees` | web_proxy/proxy.js:53-79 | proxy and server agree on messages and residue if and only if the stream is of that form |
| `Decoders.AllDecodersRoundTrip` | web_proxy/proxy.js:53-79 | a list of legal messages comes through all three decoders unchanged |
| `WorkerPool.ScalingRule` | include/server/ThreadAndConnectionPool.h:230-236 | nobody is added without an excess backlog or room; otherwise the smallest sufficient number, capped by the maximum |
| `WorkerPool.WorkerStepCounts` | include/server/ThreadAndConnectionPool.h:183-215 | each exit path decrements the thread count once and each wait is counted in and out |
| `WorkerPool.KeepsCounting` | include/server/ThreadAndConnectionPool.h:178-215 | every step keeps both counters equal to the number of live and of waiting workers |
| `WorkerPool.WorkerAccounting` | include/server/ThreadAndConnectionPool.h:178-215 | in every reachable state, shutdown included, the counters are those numbers, the thread being started counted |
| `WorkerPool.WorkerBounds` | include/server/ThreadAndConnectionPool.h:199-236 | never above the maximum despite the manager's old reading; never below the minimum while running and set up |
| `WorkerPool.QueueDiscipline` | include/server/ThreadAndConnectionPool.h:187-210 | the front of an empty queue is never taken, and tasks leave in the order they came |
| `WorkerPool.StartsTheNextJob` | include/server/ThreadAndConnectionPool.h:208-214 | in every reachable state the job a worker starts is the first submitted one not yet taken |
| `WorkerPool.LookingTakesAJob` | include/server/ThreadAndConnectionPool.h:189-214 | with a job in the queue, a worker that looks or wakes up works on the front of the queue three steps later |
| `WorkerPool.TimeoutShrinks` | include/server/ThreadAndConnectionPool.h:199-206 | a worker that has waited in vain leaves if and only if there are more than the minimum |
| `WorkerPool.WorkerGoesOn` | include/server/ThreadAndConnectionPool.h:183-215 | after a job the worker looks again; it leaves when the pool has stopped |
| `WorkerPool.OutsideSteps` | include/server/ThreadAndConnectionPool.h:51-83 | a job goes behind the others; stopping clears the flag and ends the manager's rounds |
| `WorkerPool.ManagerDecides` | include/server/ThreadAndConnectionPool.h:218-236 | the three readings lead to the number the scaling rule gives |
| `WorkerPool.ManagerGrows` | include/server/ThreadAndConnectionPool.h:178-181 | so many workers are started and counted, and nobody else changes |
| `ConnectionPool.KeepsConserved` | include/server/ThreadAndConnectionPool.h:85-163 | every step keeps the count equal to idle, lent and being created |
| `ConnectionPool.KeepsUnshared` | include/server/DbConnectionGuard.h:12-32 | every step keeps each connection in one place |
| `ConnectionPool.ConnectionConservation` | include/server/ThreadAndConnectionPool.h:85-163 | in every reachable state before the final clearing the count is idle plus lent plus being created, and never above the maximum |
| `ConnectionPool.ConnectionsUnshared` | include/server/DbConnectionGuard.h:12-32 | no connection is held twice or held and idle at once |
| `ConnectionPool.WaitingMeansExhausted` | include/server/ThreadAndConnectionPool.h:113-131 | a thread of the running pool waits only when the maximum number of connections is lent or being created |
| `ConnectionPool.OnlyStoppedPoolsRefuse` | include/server/ThreadAndConnectionPool.h:113-134 | in every reachable state a thread that was turned away met a stopped pool |
| `ConnectionPool.StoppedPoolRefuses` | include/server/ThreadAndConnectionPool.h:88-134 | a thread that looks or wakes up is turned away if and only if the pool has stopped |
| `ConnectionPool.OnlyDeadConnectionsGoBelowMinimum` | include/server/ThreadAndConnectionPool.h:95-108 | shrinking never takes the count below the minimum; only a connection that cannot be revived or opened does |
| `ConnectionPool.ConnectionQueue.GetConn` | include/server/ThreadAndConnectionPool.h:85-127 | dead connections leave queue and count together, the first one alive is lent, otherwise one is opened below the maximum; a failure to open is the double lock; lent grows by one exactly when a connection is returned |
| `ConnectionPool.GetConnIsARun` | include/server/ThreadAndConnectionPool.h:85-127 | that outcome is the one the steps of the transition system lead to when no other thread comes between |
| `ConnectionPool.ConnectionQueue.EnConn` | include/server/ThreadAndConnectionPool.h:136-141 | a returned connection goes to the end of the queue and is no longer lent; it is that step of the transition system |
| `ConnectionPool.ConnectionQueue.Shrink` | include/server/ThreadAndConnectionPool.h:238-250 | the oldest idle connection goes if and only if idle and counted connections exceed the minimum and more than half are idle; nothing lent is touched and the minimum stays |
| `Timeouts.TimerTable.UpdateExpire` | src/server/epoll_ser.cpp:267-278 | the new deadline, 60 seconds from now, is recorded and its timer is in the heap, so the table stays covered; in place it is a run of the transition system |
| `Timeouts.TimerTable.CloseClint` | src/server/epoll_ser.cpp:407-419 | the descriptor and its deadline go together; an unknown descriptor changes nothing; in place it is a run of the transition system |
| `Timeouts.RefreshLastsAMinute` | src/server/epoll_ser.cpp:267-278 | a refresh or a new connection sets the deadline to 60 seconds from then |
| `Timeouts.TimerTable.CheckTimeout` | src/server/epoll_ser.cpp:1728-1752 | exactly the live descriptors whose latest deadline has passed are closed, whatever stale or duplicate timers the heap holds; in place it is a run of the transition system |
| `Timeouts.KeepsInv` | src/server/epoll_ser.cpp:1720-1752 | every step of refreshing threads and of the check keeps each live deadline in the heap, on its way into it, or in the checker's hand |
| `Timeouts.OnlyExpiredAreChosen` | src/server/epoll_ser.cpp:1720-1750 | with refreshes interleaved, a descriptor is chosen only while its recorded deadline has passed |
| `Timeouts.NobodyExpiredIsMissed` | src/server/epoll_ser.cpp:1728-1752 | when a check ends, a live descriptor with a passed deadline has an update still on its way into the heap |
| `Timeouts.DeadlinesAreKept` | src/server/epoll_ser.cpp:267-278 | between checks every live deadline is in the heap or in an unfinished update |
| `Routing.DecimalRoundTrip` | src/server/epoll_ser.cpp:571-577 | a printed row number parses back to itself |
| `Routing.DigitsAreCanonical` | src/server/epoll_ser.cpp:908-908 | numbers are printed without leading zeros |
| `Routing.SplitFields` | src/server/epoll_ser.cpp:561-577 | cutting at three bars undoes the formatting, whatever bars the payload contains and whatever the third field holds; an empty payload is refused |
| `Routing.SplitInverse` | src/server/epoll_ser.cpp:561-577 | nothing else is taken in: a text that is cut is what its parts give together, none of command, number and payload being empty |
| `Routing.SplitFormatted` | src/server/epoll_ser.cpp:561-577 | the same for a printed row number, which comes back as the number |
| `Routing.Transparency` | src/server/epoll_ser.cpp:560-597 | publishing, cutting and formatting again yields the local text if and only if the published text fits the buffer |
| `Routing.ChatTransparency` | src/server/epoll_ser.cpp:893-914 | the same for single, multi, broadcast and group chat in the formats of their handlers, with the right row number |
| `Routing.WholeTexts` | src/server/epoll_ser.cpp:896-1500 | the texts of the four kinds of chat, letter by letter |
| `Routing.ChatNamesItsRow` | src/server/epoll_ser.cpp:571-577 | also a clipped chat text is taken in and names the right row |
| `Routing.ForwardedWhole` | src/server/epoll_ser.cpp:585-592 | what is forwarded is the whole unclipped text if and only if the published text fits the buffer |
| `Routing.NoticeTransparency` | src/server/epoll_ser.cpp:1155-1214 | the same for friend requests and acceptances, which carry row number 0 |
| `Routing.InviteIsMisread` | src/server/epoll_ser.cpp:1438-1447 | a published group invitation is never forwarded as its local text; the number its conversation text begins with is taken for the row number |
| `Replay.InsideIsReadable` | src/server/epoll_ser.cpp:757-773 | a row's line is in the clipped reply, at its place and whole, if and only if it ends inside the buffer |
| `Replay.ReplyShowsTheChat` | src/server/epoll_ser.cpp:761-773 | where such a line lies the bytes of the reply are the sender, the time, the kind and conversation, and the text of the message |
| `Replay.BodyGrows` | src/server/MyDb.cpp:156-169 | the whole list, row by row and letter by letter |
| `Replay.AllInside` | src/server/epoll_ser.cpp:770-772 | all lines are whole if and only if the length of the unclipped reply, without the blank at its end, fits the buffer |
| `Delivery.KeepsInv` | src/server/epoll_ser.cpp:539-599 | every handler on every server keeps flags, queued updates, texts in flight and unfinished sign-ins justified |
| `Delivery.FlagSafety` | src/server/epoll_ser.cpp:757-778 | in every run the whole text of a flagged row was queued for a descriptor its receiver had at lookup, or the row fell into the gap of a sign-in, or its line was cut off the unread list, or a published invitation named its number, or its text was queued for its receiver clipped |
| `Delivery.PendingUpdateSafety` | src/server/Dbhandle.cpp:23-59 | for updates still in the asynchronous queue: sent whole, or one of the last two exceptions |
| `Delivery.LocalDelivery` | src/server/epoll_ser.cpp:876-902 | a receiver on the sender's server: exactly one text is queued, for his descriptor, and it is the whole one if and only if it fits; the row is stored flagged, its update queued behind the others except for a group chat, and no other server changes |
| `Delivery.RemoteDelivery` | src/server/epoll_ser.cpp:560-597 | a receiver on another subscribed server: the row is stored unflagged, every listening server gets the published text once; handling it queues the update of this very row in any case, and one text for him, the whole one if and only if the published text fits |
| `Delivery.AbsentIsDropped` | src/server/epoll_ser.cpp:560-597 | a text for a user who is not here, or that cannot be cut, only leaves the queue |
| `Delivery.NoticeDelivery` | src/server/epoll_ser.cpp:1155-1214 | friend notices: one text for a receiver who is here, otherwise one published text for every listening server; rows stay |
| `Delivery.InviteDelivery` | src/server/epoll_ser.cpp:1427-1448 | the same for invitations, with the same text on both ways |
| `Delivery.OnlineFollows` | src/server/epoll_ser.cpp:728-737 | signing in makes the descriptor the one that is looked up, going away removes it |
| `Delivery.UpdatesAreApplied` | src/server/Dbhandle.cpp:23-59 | once the queue is worked off exactly the rows queued are flagged besides those that were |
| `Delivery.ReplayDelivery` | src/server/epoll_ser.cpp:757-773 | a receiver who signs in: exactly the unread rows whose lines end inside the reply are queued for him, sender and text standing in its bytes; all of them if and only if the list fits the buffer |
| `Delivery.ReplayFlags` | src/server/epoll_ser.cpp:774-778 | without interference exactly the rows that were unread are flagged then, those cut off included; a failed update flags none |
| `Delivery.GapLosesAMessage` | src/server/epoll_ser.cpp:757-778 | a concrete run in which a row is flagged between SELECT and UPDATE and never sent |
| `Delivery.CutListLosesAMessage` | src/server/epoll_ser.cpp:770-777 | for any two texts that fit every other buffer but not the reply together, a run in which the second is selected, cut off and flagged |
| `Delivery.InvitationFlagsARow` | src/server/epoll_ser.cpp:1443-1447 | for any conversation text that begins with 1, a run in which forwarding an invitation flags an unread chat of another user, which is row 1 |
| `Delivery.ClippedTextIsFlagged` | src/server/epoll_ser.cpp:904-913 | for any chat whose published text does not fit, a run in which it is forwarded short and flagged |
| `QuietDelivery.DeliveryNeverAnswers` | src/client/epoll_client.cpp:330-423 | in every run over any number of servers no text that is queued for a user, read as his client reads it, lets a waiting client go or changes its state |
| `Subscription.KeepsInv` | src/server/redis.cpp:183-234 | every step keeps taken and queued commands leading from the actual to the wanted subscriptions, and commands per channel alternating |
| `Subscription.SubscriptionMirror` | src/server/redis.cpp:183-234 | in every reachable state taken commands then queued ones turn the actual subscriptions into the recorded ones; per channel SUB and UNSUB alternate |
| `Subscription.Subscriber.Subscribe` | src/server/epoll_ser.cpp:747-756 | recorded set and command queue change together, and only while the subscriber runs |
| `Subscription.Subscriber.Unsubscribe` | src/server/epoll_ser.cpp:460-467 | the inverse, under the same condition |
| `Subscription.BlockSteps` | src/server/epoll_ser.cpp:747-756 | the steps of both blocks do the same when nobody comes between |
| `Subscription.DrainSteps` | src/server/redis.cpp:207-253 | swapping the queue and sending all of it makes the actual subscriptions the recorded ones |
| `Subscription.Subscriber.ProcessPendingCommands` | src/server/redis.cpp:207-253 | afterwards the actual subscriptions are the recorded ones |
| `ChatClient.Client.HandlePipeInput` | src/client/epoll_client.cpp:193-329 | the loop ends exactly on a quit line or a full buffer; a request other than quit is handed to `send_message` exactly when the client starts waiting, and nothing but quit while it waits; undefined behaviour exactly on input without a line feed or too long for its array |
| `ChatClient.DialogueSends` | src/client/epoll_client.cpp:219-328 | choosing from the menu and answering the prompts within their limits hands exactly the chosen request to `send_message`, with the last answer and not before |
| `ChatClient.MenuLines` | src/client/epoll_client.cpp:226-253 | the seven choices and how many answers each asks for |
| `ChatClient.OtherLinesDoNothing` | src/client/epoll_client.cpp:225-329 | any other line at the menu, while waiting or before the connection changes and sends nothing |
| `ChatClient.Client.HandleServerMessage` | src/client/epoll_client.cpp:373-423 | a waiting client is let go exactly by a releasing message, other messages leave every state alone, and where a releasing one leads does not depend on the state |
| `ChatClient.ReleasesExactly` | src/client/epoll_client.cpp:330-423 | which types and codes these are |
| `ChatClient.AfterRelease` | src/client/epoll_client.cpp:37-84 | what the user can do next: after a successful sign-up two lines sign him in, after any other answer he is at the menu, after a goodbye only quit is sent |
| `ChatClient.PushesDoNotRelease` | src/client/epoll_client.cpp:330-372 | no unsolicited message changes the client's state |
| `ChatClient.AnswersRelease` | src/server/epoll_ser.cpp:525-538 | an answer lets the client go if and only if the handler had a connection; a handler that has one is silent exactly for the history of a client that has not signed in |
| `ChatClient.AnswerTable` | src/server/epoll_ser.cpp:612-1122 | which outcomes each handler can report, with and without a signed-in name |
| `ChatClient.SignInIsRemembered` | src/server/epoll_ser.cpp:728-730 | a successful sign-in, and nothing else, makes the server know the client |
| `ChatClient.KeepsInv` | src/client/epoll_client.cpp:193-423 | every step keeps answers that can come plus those lost at one exactly while the client waits, and at most one request or answer on its way |
| `ChatClient.OneOutstandingRequest` | src/client/epoll_client.cpp:193-423 | in every run in which no frame is cut short at most one request is unanswered, while one is the client waits, and the error text never reaches it |
| `ChatClient.StuckExactly` | src/client/epoll_client.cpp:235-320 | in every such run the client waits with nothing on its way that can let it go if and only if its send gave up, its request was in a filled ring, a stranger's history was met with silence, the server's send gave up, or the server stopped before the reply was sent; it happens at most once |
| `ChatClient.StuckForever` | src/client/epoll_client.cpp:304-306 | a client so stuck stays so whatever is typed or pushed, short of a quit line, a full input buffer or the end of the connection |
| `ChatClient.StuckIsReachable` | src/server/epoll_ser.cpp:1676-1703 | a run from the start through each of the five ways |
| `ChatClient.TornReplyReleases` | include/Protocol.h:62-88 | a run in which a reply is given up inside its frame and the client goes on all the same |

## Left out

- Thread objects: the reactor, parser, worker, manager, timeout and delivery protocols are transition systems on values, because their theorems range over interleavings of atomic steps; what is not captured is the update in place of the shared objects, except where a class shows it (`ParserPool.FdSets`, `ConnectionPool.ConnectionQueue`, `Timeouts.TimerTable`, `Subscription.Subscriber`).
- Weak-memory effects and unsynchronised access to the hash maps: steps are sequentially consistent.
- Stopping the parser pool: its theorems are about the running pool; stopping neither drains the queue nor is it proved to end. Stopping the worker pool is modelled, joining its threads is not.
- Liveness of any kind beyond the termination of single loops: no fairness of threads, locks or kernel is assumed.
- The order of responses after tasks are dequeued: workers run concurrently, so only the order of dequeuing is fixed.
- ChatClient.StuckExactly: says nothing once a frame has been cut short by a send that gave up in the middle or was mixed with a heartbeat sent by the other thread, because the bytes that follow are then read as the rest of that frame; runs cover one connection, so replies left over from an earlier connection of the same descriptor do not occur.
- Delivery.FlagSafety: handlers are atomic except a sign-in's SELECT and UPDATE, inserts succeed, and users are identified with their names, because the queries themselves are foreign calls; the printed send times are free inputs.
- History, friend-list and group-management handlers: the database reads and writes they consist of are foreign calls.
- A buffer re-created by a readiness event for a descriptor just closed in the same batch is part of `ParserProtocol`, but `Timeouts` creates live descriptors only by accepting them.
- The clearing of `online_users`, friend and group caches and the symmetry of friendship: no agreement holds in the code.
- Reconnection to Redis and hiredis errors: after them subscriptions are lost.
- UTF-8 decoding in the proxy and the text shown to users: messages are byte strings.
- Texts with NUL bytes: the handlers work on C strings, which end there; `Routing` takes strings without them.
- Password hashing, SQL texts, logging, configuration, process start-up, `receiveMessage` and the four-argument circular decoder, which no server path uses.
- std::priority_queue and the standard containers: the heap is a multiset with a least element, queues are sequences.
