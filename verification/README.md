# BeastWebsocket: a verified model

BeastWebsocket is a small C++ library of WebSocket sessions over Boost.Beast, with an HTTPS server
session and a chat server built on top. This project models its four stateful parts in Dafny and
proves what they guarantee over all inputs and all runs.

**Chat wire format** (`Numerals`, `ChatMessage`, `ChatRejections`, `ChatCodec`, `ChatObjects`). A batch is a header
`inv:N:` and N records `message:length:nickname:payload`. `ChatMessage` specifies what is written
and what is read back, including the byte counts returned, the error codes and the
`std::out_of_range` that the batch parser throws when a record declares more payload than is left.
`ChatCodec` proves the format's laws. `ChatObjects` holds the objects themselves, in place. One
`char` stands for one byte. A number outside `int` makes `std::atoi` undefined; every result is
proved for every function `wild` that may stand for what it then yields.

**WebSocket sessions** (`ServerSession`, `ServerCalls`, `ServerDelivery`, `ServerLoss`, `ServerTimer`,
`DefaultTimeout`, `ClientSession`, `ClientCalls`, `ClientReads`). A session is driven by completions
in any order. A user callback is the sequence of calls it makes on its session, so a result about
every sequence is a result about every callback; a run is a sequence of events each of which was
possible at its turn. `State` and its functions say what each member function does to the session, its
connection and its timer; the classes do the same in place and are proved against them. The `log`
records what is started, and when.

**HTTPS session** (`HttpsSession`, `HttpsFlow`). The two routing tables, the bounded response queue and
the driver that reads requests while the queue has room.

**Chat server** (`ChatRoom`, `ChatEffects`, `ChatView`, `ChatExact`, `Watchdog`, `ChatServer`,
`ChatWatch`, `ChatDelivery`). The client table, the append-only log, the broadcasts and the texts they
carry, what the chat client makes of each chunk, and the two-stage ping-then-close timer. `ChatServer`
runs the room's handlers on the sessions, so that results about the room and about a single session
meet; `ChatWatch` and `ChatDelivery` say what follows for whom the server closes and for the bytes it
delivers.

`Drivers` feeds whole runs to the objects and carries the run theorems over to their fields.
`Traces` holds what the run modules share. `dafny verify dfyconfig.toml` checks everything.

Where the code and its documentation or names disagree, the model follows the code:

- The message constructor takes the payload first, so a join is logged with the client's name as the
  payload and the fixed text as the nickname, and a leave the other way round
  (examples/ex3_chat_server/ex3_chat_server.cpp:80, 179).
- A batch parse can succeed with its last payload cut short, even to nothing
  (examples/chat_message.hpp:128-130). `ChatView.CutRecordSpoilsGreetings` shows the consequence;
  `ChatView.GreetingShowsLogExactlyWhen` gives the exact condition under which a greeting shows the log.
- README.MD promises a timer with a default timeout of ten seconds and closing as its default action,
  but a session waits on its timer only once user code launches it. A session that is accepted and
  stays idle is never closed (`DefaultTimeout.SilentSessionStaysOpen`); the default close comes exactly
  when launches outnumber failed waits and the deadline has passed
  (`DefaultTimeout.DefaultCloseExactlyWhen`). In the chat server, where only message and pong handlers
  launch it, a client of which neither was ever handled is never timed out
  (`Watchdog.SilentClientIsNeverTimedOut`).
- A completed write discards the whole output buffer (include/session.hpp:365), so text appended behind
  a pending write can be lost (`ServerLoss.LostAppend`). With one write pending at a time, everything
  appended is delivered or still in the buffer exactly when nothing was appended while a write was
  pending that then succeeded (`ServerLoss.NothingLostExactlyWhen`). Leaving reading and writing to the
  handlers and accepting once is enough for one write at a time (`ServerLoss.HandsOffIsOneWriteAtATime`).
  A chat broadcast does neither: it keeps one write at a time exactly when it finds none pending
  (`ChatDelivery.BroadcastOverlapsExactlyWhen`).
- A client's name may be anything, and a leave logs it in the nickname field, where the format allows no
  ':' (`ChatExact.ColonNameSpoilsViews`, and `ChatExact.ColonRun` for such a run). `ChatExact.ClientSeesLogExactlyWhen` gives the exact condition
  under which a client sees the log.

## Model

| member | source | states |
|---|---|---|
| Numerals.AtoiStopsAtColon | examples/chat_message.hpp:104 | `atoi` on a view not terminated at its end reads just the bounded view, because a ':' follows |
| Numerals.AtoiExactly | examples/chat_message.hpp:104 | `atoi` of any text is v if and only if the text is white space, a sign or none, decimal digits denoting v up to the sign, and a rest that does not go on |
| Numerals.ReadUint32Exactly | examples/chat_message.hpp:104 | the cast keeps 0 to 2^31 - 1, wraps -2^31 to -1 around, and anything else is undefined |
| Numerals.AtoiReadsThrough | examples/chat_message.hpp:104 | white space, signs and leading zeros in front of a number and whatever follows it do not keep it from being read |
| Numerals.NegativeWraps | examples/chat_message.hpp:104 | a length or count written "-n" is read as 2^32 - n |
| Numerals.ReadToString | examples/chat_message.hpp:49-50 | a length written with `to_string` is read back by `atoi` and the cast, for every value of `int` |
| Numerals.ToStringShortest | examples/chat_message.hpp:104 | no text shorter than `to_string(n)` is read as n, whatever an overflow yields |
| ChatMessage.ParserMatchesGrammar | examples/chat_message.hpp:67-137 | a record is accepted exactly when it is the prefix, ':', a colon-free numeral not read as zero, ':', a colon-free nickname, ':' and any body; and then with which message and byte count |
| ChatRejections.RecordRejections | examples/chat_message.hpp:67-137 | the error code and byte count of every rejected record, by its shape |
| ChatRejections.HeaderExactly | examples/chat_message.hpp:181-230 | the error code and byte count of every rejected header, by its shape, and what an accepted one yields |
| ChatRejections.StaleErrorStopsParse | examples/chat_message.hpp:248-257 | an error the caller's error code already holds ends the batch parse behind the header with nothing stored |
| ChatRejections.SignedLengthAccepted | examples/chat_message.hpp:104 | `message:+5:bob:hello` and `message: 005:bob:hello` are accepted with payload "hello" |
| ChatObjects.MessageObject.Serialize | examples/chat_message.hpp:40-65 | appends the record; the count returned is the output's growth and `get_serial_size` |
| ChatObjects.MessageObject.Parse | examples/chat_message.hpp:67-137 | the byte count, error code and message of every branch; a failed parse leaves the fields alone |
| ChatObjects.InvObject.Serialize | examples/chat_message.hpp:163-179 | appends the header; the count returned is the output's growth and `get_serial_size` |
| ChatObjects.InvObject.Parse | examples/chat_message.hpp:181-230 | the byte count, error code and count of every branch; success keeps the error code the caller passed |
| ChatObjects.Parser.Advance | examples/chat_message.hpp:248-267 | outcome and message list of the batch parse, including the list left behind by an error or a throw |
| ChatObjects.Serializer.Advance | examples/chat_message.hpp:285-299 | appends the batch, or throws exactly from UINT32_MAX messages on; bytes returned = growth = sum of the serial sizes |
| ChatCodec.BatchSize | examples/chat_message.hpp:36-38 | the length of a batch's text is the sum of the header's and the records' serial sizes |
| ChatCodec.MessageRoundTrip | examples/chat_message.hpp:40-137 | a record with a non-empty payload is read back whatever follows, if and only if its nickname has no ':' |
| ChatCodec.BatchRoundTrip | examples/chat_message.hpp:248-299 | for every batch of the domain and whatever bytes follow, parsing its text gives just that batch and uses just its bytes |
| ChatCodec.RoundTripExactlyOnDomain | examples/chat_message.hpp:248-299 | the round trip holds if and only if the batch is not empty, no payload is empty and no nickname has a ':' |
| ChatCodec.UniquelyDecodable | examples/chat_message.hpp:248-299 | no valid batch's text is another's, or a prefix of another's |
| ChatCodec.TruncationSafety | examples/chat_message.hpp:248-267 | for every prefix of a valid batch: success with all messages, the last perhaps cut; bad_message with whole messages; out_of_range behind a cut payload; never invalid_argument |
| ChatCodec.TruncationExactly | examples/chat_message.hpp:248-267 | outcome and messages as a function of where a valid batch's text is cut: header, front of record i, payload of record i, last payload; byte counts included |
| ChatCodec.BoundedWork | examples/chat_message.hpp:248-267 | storing k >= 1 messages takes at least 12k+5 bytes of input, on every input and outcome, whatever count is declared |
| ChatCodec.ThrowsExactlyWhen | examples/chat_message.hpp:259-264 | out_of_range if and only if the header and fewer records than declared parse and the last runs past the end; errors never claim more bytes than the input |
| ChatCodec.Canonicalisation | examples/chat_message.hpp:248-299 | a successful untruncated parse stored only valid messages, and serializing them gives text no longer that parses to the same messages |
| ServerSession.Session.Accept | include/session.hpp:72-102 | starts an accept and moves the deadline, unless already accepted |
| ServerSession.Session.Ping | include/session.hpp:127-139 | moves the deadline and pings, once accepted |
| ServerSession.Session.Pong | include/session.hpp:141-153 | moves the deadline and pongs, once accepted |
| ServerSession.Session.Close | include/session.hpp:155-167 | moves the deadline and closes, once accepted |
| ServerSession.Session.Launch | include/session.hpp:169-176 | adds one pending wait and nothing else |
| ServerSession.Session.LaunchWith | include/session.hpp:178-188 | sets the timer callback and adds one pending wait |
| ServerSession.Session.Read | include/session.hpp:190-206 | starts a read only when accepted and readable, and takes `readable` away |
| ServerSession.Session.Write | include/session.hpp:208-220 | starts a write of the whole output buffer in the current frame type, once accepted |
| ServerSession.Session.OnAccept | include/session.hpp:224-243 | every branch of the accept handler around an arbitrary callback |
| ServerSession.Session.OnTimer | include/session.hpp:292-317 | every branch of the timer handler: error, moved deadline, callback, default close |
| ServerSession.Session.OnRead | include/session.hpp:319-350 | every branch of the read handler around an arbitrary callback |
| ServerSession.Session.OnWrite | include/session.hpp:353-370 | every branch of the write handler |
| ServerSession.Session.Handle | include/session.hpp:224-370 | one turn of the event loop is one step of a run |
| ServerCalls.EveryCallIsAnswered | include/session.hpp:72-188 | in every run each accept, ping, pong, close and armed timer callback in the log answers one call that asked for it when it could, and each report one failed completion; nothing else starts or reports any |
| ServerCalls.FrameTypeAsAsked | include/session.hpp:113-125 | in every run the frame type is the one asked for last, or with detection that of the message just read |
| ServerDelivery.SingleOutstandingRead | include/session.hpp:127-206 | in every run at most one read is pending, `readable` holds exactly when none is pending and none failed, and nothing that needs an accept precedes one |
| ServerDelivery.NoReadAfterFailure | include/session.hpp:319-334 | once a read has failed no read is ever started again |
| ServerDelivery.CallbacksSeeTheirMessage | include/session.hpp:319-350 | in every run the input buffer is empty between handlers and the k-th message callback is handed exactly the k-th message |
| ServerDelivery.ExactlyOnce | include/session.hpp:190-370 | messages written = non-empty callback outputs, in order; exactly one accept, read or write is outstanding until one fails, none after |
| ServerDelivery.EchoFidelity | examples/ex1_echo_server/ex1_echo_server.cpp:35-42 | the echo server sends back the non-empty messages received, in order, with the same bytes and frame type |
| ServerLoss.AppendedIsSentKeptOrLost | include/session.hpp:190-370 | with one write pending at a time, whoever appends, reads and writes: what was appended is, in order, the message of each successful write followed by what was discarded behind it, then the buffer; bytes delivered + bytes in the buffer + bytes lost = bytes appended |
| ServerLoss.NothingLostExactlyWhen | include/session.hpp:353-370 | with one write pending at a time, all that was appended is delivered or in the buffer, once and in order, if and only if nothing was appended while a write was pending that then succeeded |
| ServerLoss.HandsOffIsOneWriteAtATime | include/session.hpp:190-370 | if user code leaves reading and writing to the handlers and starts at most one accept, one write is pending at a time |
| ServerLoss.AppendBehindAWriteIsLost | include/session.hpp:353-370 | a run in which text is appended behind a pending write that succeeds ends like the run without the append |
| ServerLoss.LostAppend | include/session.hpp:353-370 | a run that appends "ab", sends "a", keeps nothing and meets no failure |
| ServerTimer.IdleTimeoutSound | include/session.hpp:292-317 | the deadline is ten seconds after the latest start that moves it; every timer act, default closes included, comes ten seconds or more after every such start |
| ServerTimer.WaitsConserved | include/session.hpp:169-188 | pending waits = launches by user code - timer-callback firings - timer errors |
| DefaultTimeout.NeverLaunchedNeverActs | include/session.hpp:292-317 | whatever else happens to a session, its timer never closes it nor invokes a callback unless user code launches it |
| DefaultTimeout.SilentSessionStaysOpen | include/session.hpp:224-243 | an accepted session whose client stays silent has its deadline ten seconds ahead, and however much time passes no wait can complete |
| DefaultTimeout.DefaultCloseExactlyWhen | include/session.hpp:292-317 | where nobody sets a timer callback, letting time pass and completing a wait closes the session if and only if launches outnumber failed waits and the deadline of the latest start has passed; ten seconds always suffice once anything was started |
| ClientSession.Session.Handshake | include/session.hpp:435-461 | starts a handshake, unless one has succeeded |
| ClientSession.Session.Control | include/session.hpp:486-520 | ping, pong and close only after the handshake |
| ClientSession.Session.Read | include/session.hpp:522-535 | starts a read only after the handshake and when readable |
| ClientSession.Session.Write | include/session.hpp:537-549 | starts a write of the whole output buffer that carries the wish to read on |
| ClientSession.Session.OnHandshake | include/session.hpp:553-569 | both branches of the handshake handler around an arbitrary callback |
| ClientSession.Session.OnRead | include/session.hpp:627-650 | both branches of the read handler around an arbitrary callback |
| ClientSession.Session.OnWrite | include/session.hpp:611-625 | both branches of the write handler |
| ClientSession.Session.Handle | include/session.hpp:553-650 | one turn of the event loop is one step of a run |
| ClientCalls.EveryCallIsAnswered | include/session.hpp:435-520 | as for the server, for handshakes, pings, pongs, closes and reports |
| ClientCalls.FrameTypeAsAsked | include/session.hpp:472-484 | as for the server |
| ClientReads.CallbacksSeeTheirMessage | include/session.hpp:627-650 | in every run the input buffer is empty between handlers and the k-th message callback is handed exactly the k-th message |
| ClientReads.SingleOutstandingRead | include/session.hpp:486-569 | as for the server: at most one read pending, `readable` exactly when none is pending and none failed, nothing before the handshake |
| ClientReads.NoReadAfterFailure | include/session.hpp:627-633 | after a failed read no event starts a read |
| ClientReads.HandlerLeavesOneExactlyWhen | include/session.hpp:627-650 | a handler leaves exactly one operation outstanding if and only if its callback did exactly one of writing output and reading |
| ClientReads.OneOutstandingUntilFailure | include/session.hpp:522-650 | with one handshake and such callbacks exactly one handshake, read or write is outstanding until one fails, none after |
| ClientReads.NeverReadsUnasked | include/session.hpp:611-650 | if nobody calls do_read and every write leaves next_read false, no read is ever started |
| ClientReads.ReplyInKind | include/session.hpp:644-649 | with frame detection on, a reply is one write of all the output in the type of the message just read |
| HttpsSession.Queue.OnWrite | include/ssl.hpp:121-129 | removes the head, starts the next, and tells whether the queue was full; or the assertion fails |
| HttpsSession.Queue.Push | include/ssl.hpp:132-162 | appends a response and starts it if it is alone |
| HttpsSession.Session.Handshake | include/ssl.hpp:195-204 | starts a handshake, unless one has succeeded |
| HttpsSession.Session.Read | include/ssl.hpp:206-220 | starts a read after the handshake, without further guard |
| HttpsSession.Session.Write | include/ssl.hpp:222-228 | hands a response to the queue after the handshake |
| HttpsSession.Session.OnHandshake | include/ssl.hpp:247-258 | reads on after a successful handshake |
| HttpsSession.Session.OnRead | include/ssl.hpp:266-277 | end of stream, error and request |
| HttpsSession.Session.OnWrite | include/ssl.hpp:279-299 | error, close, and reading on when the queue was full |
| HttpsSession.Session.ProcessRequest | include/ssl.hpp:301-343 | the two routing loops make the calls of the matching handlers in order, the general table only if the method's ran none; then reads on if there is room |
| HttpsSession.Session.Handle | include/ssl.hpp:247-299 | one turn of the event loop is one step of a run |
| HttpsFlow.OneMatchOneHandler | include/ssl.hpp:307-337 | if the table that serves a request has at most one match, the request runs exactly that handler's calls, and none only if there is no match |
| HttpsFlow.RequestIsAnswered | include/ssl.hpp:301-343 | a request on an open session is answered by every matching handler of its method's table, in order, and only if there is none by those of the general table |
| HttpsFlow.OneRouteAnswers | include/ssl.hpp:301-343 | a single matching handler of the method's table answers alone whatever the general one holds; else a single one of the general table; else nothing is pushed |
| HttpsFlow.NothingBeforeHandshake | include/ssl.hpp:195-258 | in every run nothing is read or queued before a handshake succeeded, and each do_handshake from outside that finds none done starts one, and nothing else does |
| HttpsFlow.ShutdownsCounted | include/ssl.hpp:266-299 | in every run the stream is shut down once for each end of stream, each completed need_eof response and each do_close call |
| HttpsFlow.QueueRefinesPushes | include/ssl.hpp:121-163 | for any pushes and completions: writes started are a prefix of the pushes, pushes = removed + queued, at most the head is in flight, the assertion never fails |
| HttpsFlow.HaltingIsForGood | include/ssl.hpp:279-299 | after a failed write or a completed need_eof response no further write begins, though pushes continue |
| HttpsFlow.FlowControl | include/ssl.hpp:206-343 | a read is outstanding after the handshake exactly when the queue holds fewer than eight and no read has ended the stream; never two reads, never more than eight queued |
| HttpsFlow.NoReadAfterStop | include/ssl.hpp:266-277 | no read starts after end of stream or a read error |
| HttpsFlow.ResponsesAnswerInOrder | include/ssl.hpp:113-343 | the k-th response written answers the k-th request read (section 6.3.2 of RFC 7230); requests read = responses removed + queued |
| ChatRoom.ChatRoom.OnAccept | examples/ex3_chat_server/ex3_chat_server.cpp:62-65 | an accepted session is sent the prompt |
| ChatRoom.ChatRoom.OnName | examples/ex3_chat_server/ex3_chat_server.cpp:72-111 | a join: log entry, greeting with the whole log, broadcast of the entry, registration once, timer |
| ChatRoom.ChatRoom.OnText | examples/ex3_chat_server/ex3_chat_server.cpp:113-152 | a message: throw, ignore and read on, or log it and send it to its sender and to every other open client |
| ChatRoom.ChatRoom.OnMessage | examples/ex3_chat_server/ex3_chat_server.cpp:67-152 | which of the two a message is |
| ChatRoom.ChatRoom.OnClose | examples/ex3_chat_server/ex3_chat_server.cpp:174-191 | a leave is logged and broadcast to the other open clients; a session that never joined makes it throw |
| ChatRoom.ChatRoom.Broadcast | examples/ex3_chat_server/ex3_chat_server.cpp:135-140 | in whatever order the table is walked, each recipient gets the chunk once and nobody else does |
| ChatEffects.PromptExactly | examples/ex3_chat_server/ex3_chat_server.cpp:62-65 | an accepted session, and no other, is sent "What is your name?" |
| ChatEffects.JoinExactly | examples/ex3_chat_server/ex3_chat_server.cpp:72-111 | the log entry, calls and texts of a join, in literals: payload the name, nickname "Input to chat room!", the entry's text to everybody in the table; it throws exactly when the log is too long |
| ChatEffects.TextExactly | examples/ex3_chat_server/ex3_chat_server.cpp:113-152 | a text handler throws if and only if fewer records than declared parse and the last runs past the end, changing nothing; it ignores an invalid text; it logs a valid one and sends it to its sender and every other open client |
| ChatEffects.LeaveExactly | examples/ex3_chat_server/ex3_chat_server.cpp:174-191 | the log entry and text of a leave, in literals, and who is told; it throws exactly for an open session that never joined |
| ChatEffects.SocketsExactly | examples/ex3_chat_server/ex3_chat_server.cpp:174-181 | a socket's opening and closing change nothing but which sessions count as open |
| ChatEffects.FirstJoin | examples/ex3_chat_server/ex3_chat_server.cpp:72-111 | the join of "bob" in an empty room, byte for byte |
| ChatView.ClientsSeeTheLog | examples/ex3_chat_server/ex3_chat_server.cpp:67-191 | in every polite run each joined, open client that has not left sees exactly the log; every logged message is in the round-trip domain |
| ChatView.StepKeepsViews | examples/ex3_chat_server/ex3_chat_server.cpp:67-191 | each polite event keeps all views equal to the log, and its handler does not throw |
| ChatView.GreetingShowsLogExactlyWhen | examples/ex4_chat_client/ex4_chat_client.cpp:78-99 | a greeting, stripped as the client strips it, shows the log if and only if the log is in the codec's round-trip domain |
| ChatView.CutRecordAccepted | examples/chat_message.hpp:126-136 | a record that ends right behind its nickname is accepted with an empty payload |
| ChatView.CutRecordSpoilsGreetings | examples/ex3_chat_server/ex3_chat_server.cpp:117-130 | once such a record is logged no later greeting shows the log |
| ChatExact.ClientSeesLogExactlyWhen | examples/ex3_chat_server/ex3_chat_server.cpp:67-191 | in every run in which each session joins once, whatever names and records are sent, a joined, open client that has not left sees the log if and only if the log at its join was a valid batch and every join or leave entry made since is a valid message |
| ChatExact.ColonNameSpoilsViews | examples/ex3_chat_server/ex3_chat_server.cpp:174-191 | once a client whose name holds a ':' has left, no joined, open client ever sees the log again, those who join later included |
| ChatExact.ColonRun | examples/ex3_chat_server/ex3_chat_server.cpp:67-191 | a run of five events in which that happens |
| ChatExact.CountIsRead | examples/chat_message.hpp:248-267 | a successful parse of a serialized batch finds as many messages as were serialized, valid or not |
| Watchdog.WatchdogEscalation | examples/ex3_chat_server/ex3_chat_server.cpp:100-171 | if an event fires the watchdog's close, an earlier one fired its ping at least ten seconds before and no event between handled a message or pong; a timer callback is set exactly when a message or pong has been handled; from then on a wait is pending unless a close has fired since the last |
| Watchdog.SilentClientIsNeverTimedOut | examples/ex3_chat_server/ex3_chat_server.cpp:62-172 | as long as no message or pong was handled no wait is pending and the timer has done nothing; the default close never happens in the chat server |
| Watchdog.IdleClientIsClosed | examples/ex3_chat_server/ex3_chat_server.cpp:100-171 | wherever a message or pong was handled and no close fired since, one or two idle stretches of ten seconds, by the stage reached, end with a close |
| ChatServer.SessionsRunAlone | examples/ex3_chat_server/ex3_chat_server.cpp:62-191 | in every run of the server what happens at each session is a run of that session making the chat server's calls, it ends in the state the server holds for it, and what was appended to its output, by its own handlers and by broadcasts, is exactly the chunks the room recorded for it |
| ChatServer.RoomRunsAlone | examples/ex3_chat_server/ex3_chat_server.cpp:62-191 | the server's room goes through a run of the room alone |
| ChatServer.OwnTextIsAppended | examples/ex3_chat_server/ex3_chat_server.cpp:62-191 | what a handler's calls append to its own session is exactly what the room records for it, a second join's broadcast to itself included |
| ChatServer.MessageHandlersRearm | examples/ex3_chat_server/ex3_chat_server.cpp:100-151 | every message handler that does not throw ends by launching the watchdog's ping stage and appends nothing behind a write it starts |
| ChatServer.RoomFollows | examples/ex3_chat_server/ex3_chat_server.cpp:62-191 | in every run an accept, a message read and a close frame reach the room's handlers, the message as it was read; nothing else at a session changes the room |
| ChatWatch.MessagesAndPongsRearm | examples/ex3_chat_server/ex3_chat_server.cpp:143-172 | in every run a message read or a pong at a session sets its timer callback to the ping stage and adds one wait |
| ChatWatch.AnsweringClientIsKept | examples/ex3_chat_server/ex3_chat_server.cpp:100-172 | in every run every watchdog close of a session comes ten seconds or more after a watchdog ping of it, with no message read and no pong at it in between |
| ChatServer.FirstContact | examples/ex3_chat_server/ex3_chat_server.cpp:62-65 | a new session accepts, and once accepted sends the prompt as a text message |
| ChatWatch.EverySessionIsWatched | examples/ex3_chat_server/ex3_chat_server.cpp:100-171 | the watchdog of every session of the server escalates as stated for a single one |
| ChatDelivery.ChunksAreDelivered | examples/ex3_chat_server/ex3_chat_server.cpp:62-191 | if no write starts on a session while another is pending there, its chunks are what its successful writes delivered followed by what its buffer holds: nothing is lost |
| ChatDelivery.BroadcastOverlapsExactlyWhen | examples/ex3_chat_server/ex3_chat_server.cpp:92-93 | a broadcast keeps one write at a time on a session if and only if it finds none pending |
| ChatRoom.ChatRoom.Handle | examples/ex3_chat_server/ex3_chat_server.cpp:67-191 | one turn of the event loop is one step of a run |
| Drivers.Serve | include/session.hpp:72-370 | a server session's fields after any run: read discipline, deadline, waits, exactly-once delivery, conservation of appended output |
| Drivers.Talk | include/session.hpp:435-650 | a client session's fields after any run: read discipline, one outstanding operation, no unasked read |
| Drivers.Answer | include/ssl.hpp:113-343 | an HTTPS session's and its queue's fields after any run: queue order, flow control, responses in order |
| Drivers.Host | examples/ex3_chat_server/ex3_chat_server.cpp:67-191 | the chat room's fields after any run: whose view equals the log |

## Left out

- Boost.Asio and Beast internals, sockets, TLS, strands and threads: operations start and complete, handlers are atomic; bytes exist only when a read completes.
- include/base.hpp, include/client.hpp and include/server.hpp: forwarding wrappers, represented by pending operations and their outcomes.
- What the stream does with overlapping writes, which a broadcast starts on a busy session: delivery is stated for sessions with one write pending at a time.
- The consumption of the input buffer while a read started by the callback itself is pending (include/session.hpp:339).
- The handlers of completed pings, pongs and closes, which only print; which control-frame callback is chosen (include/session.hpp:245-253).
- HttpsSession.Session.Read: does not model the deadline it moves and the request object it resets, because the HTTPS timer is not modelled and a request is known by its number.
- HttpsSession.Session.OnHandshake: does not model the handshake's bytes it consumes and the failure it prints, because this model has no bytes before a request is read.
- The rest of an HTTPS session: its timer, shutdown completion, registration methods, the client session; regular-expression matching is a flag of each routing entry.
- Printing of failures, except that the WebSocket sessions record what they would report.
- Object lifetimes, and the timer callback replacing itself while it runs: a callback is a stage number.
- The console, signal and start-up code of the examples.
- An exception leaving a handler: the chat model says when a handler throws and what it has changed by then; the session model assumes that none does, and a run of the whole server ends there.
- The chat server and its clients are taken to share one behaviour of an overflowing `atoi`.
- `std::size_t` is taken to be wide enough for every byte count; lengths and counts cast to `uint32_t` are modelled at that width.
