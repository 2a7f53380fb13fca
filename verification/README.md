# A model of the network application's protocols

The application is a TCP server and client that exchange JSON messages in frames. This
project models three connected parts of it in Dafny and proves what they promise.

1. **The worker** (`WorkerProtocol.dfy`, `Worker.dfy`): a one-thread task queue. The protocol
   is a function `Step` over its atomic sections; the class `Worker` performs each section on
   its fields and is proved to do what `Step` says. Proved over every run: conservation and
   order of tasks, what is true whenever the mutex is free, that a call of `stop` or `flush`
   returns, and exactly when `flush` does not.
2. **The server's sessions and shutdown** (`ServerProtocol.dfy`, `Shutdown.dfy`,
   `StopReturns.dfy`, `StartRace.dfy`, `ReaderEnds.dfy`, `SingleClient.dfy`, `StopCrash.dfy`,
   `Lockout.dfy`, `SessionIds.dfy`): the calling thread, the accept loop and one reader per
   session as interleaved steps. Proved over every interleaving: no reader is left behind an open
   socket, `stop` returns, the single-client rule, from which states the accept loop can
   disconnect through a null session, and from which the server can still serve somebody new.
   `SessionSteps.dfy` ties these steps to the sessions of part 3.
3. **The wire** (`Json.dfy`, `JsonLaw.dfy`, `JsonPrefix.dfy`, `Errors.dfy`, `Messages.dfy`,
   `MessageHandler.dfy`, `Transport.dfy`, `Stream.dfy`, `Chunking.dfy`, `Sessions.dfy`,
   `Exchange.dfy`, `Sizes.dfy`, `Client.dfy`, `WireText.dfy`, `SegmentServer.dfy`): a JSON
   printer and parser with their law, the message classes, the frame format, one session with its
   errors, and the whole conversation.

## Reading the model

- A *run* is a list of steps or events from the initial state; a step that cannot be taken
  makes the run undefined, so every theorem about runs is about all schedules.
- "Returns" is stated without a clock: each step taken while a call is under way lowers a
  rank, and until the call has returned some step that needs no client is possible. Time-outs of
  `wait_for` are steps that change nothing.
- Hypotheses of the worker: `start`, `flush` and `stop` come from one thread (`addTask` from
  any); tasks end, throw only what the worker catches, and do not call their own worker.
- Hypotheses of the server: `start` (once), `write`, `disconnect` and `stop` come from one
  thread; a session once accepted is closed by `close`, whatever error `close` reports.
- Errors of the operating system are parameters (`Fault`, `Faults`): any code at any stage of a
  read or write, with any part of the transfer done. `CALM` is their absence.
- The loops of server and client take one `Round` for each test of `isWork` that finds it true.
- Both peers have called `setMagicNumber`, and share a byte order.
- Ids: sessions of the server protocol are numbered in the order they enter the map. That a
  server's ids name them apart is `SessionIds.OneServersIdsAreFresh`.

## Where the code differs from its documentation

- `README.md` of the repository (line 129) says that with `multiConnect` false a new client
  disconnects the previous one. The code disconnects the new one: `NewcomerIsTurnedAway`.
- A payload that is not JSON costs one message only if the parser reports `syntax`, as it does
  of a spoilt character anywhere (`SpoiltMessageIsTolerated`). A text cut
  short anywhere (`incomplete`) or followed by more (`extra_data`) is a critical error and ends
  the session: `PayloadSurvives`, `CutMessageEnds`, `UnfinishedTextEnds`.
- `flush` leaves the worker unusable until it is stopped and started (`AcceptedIffOpen`,
  `OnlyRestartAccepts`). `SegmentServer::stop` flushes the main worker and nothing stops it, so the
  accept loop of a second `start` is refused.
- A server can be started and never accept: `StartedServerAccepts` says when.
- With `multiConnect` false, the accept loop can crash, by a failing accept or during `stop`:
  `CrashCondition` says from which states, `StopWhileAccepting` what a caller of `stop` can
  check: whether the map is empty.
- With `multiConnect` false, the server can come to serve nobody new, even when its client has
  left: `ServiceCondition` says exactly when, `OnlyCauses` what brings it about: a client turned
  away, a client whose message lacks a header field, or a clean disconnect between two reads.
- A transaction is not always in its final form after one trip: `SecondTrip` has the exception.

## Model

| member | source | states |
|---|---|---|
| WorkerProtocol.ConservationFifo | core/worker/lib/worker.cpp:34-159 | In every run, with callers and worker interleaved, the k-th task accepted is the k-th to leave the queue; finished tasks, the task in hand and the queue make up the accepted tasks, across stop and start; without `stop(true)` none is thrown away. |
| WorkerProtocol.LockHeldExecution | core/worker/lib/worker.cpp:97-159 | Whenever the mutex is free no task is in hand, `Work` means a non-empty queue, and `getSizeQueue` is the number of accepted tasks not yet started; no task ever ends under `Stop`, so the test after a task never succeeds. |
| WorkerProtocol.CallReturns | core/worker/lib/worker.cpp:45-89 | From inside any `flush` or `stop`, every run has passed its return or is bounded by a rank and can go on, whatever `addTask` calls other threads make. |
| WorkerProtocol.FlushDrains | core/worker/lib/worker.cpp:67-89 | `flush` returns if and only if the thread exists or the queue is empty when it is called; on return the queue is empty, the thread gone, and every accepted task has been run, none discarded. |
| WorkerProtocol.FlushHangs | core/worker/lib/worker.cpp:76-81 | A flush of a stopped worker with tasks left waits forever: no section changes anything. |
| WorkerProtocol.FlushedIsSpent | core/worker/lib/worker.cpp:34-43 | After a flush, until the next `stop`, no sequence of `addTask`, `start` and `flush` has any effect. |
| WorkerProtocol.AcceptedIffOpen | core/worker/lib/worker.cpp:108-116 | After any run from any state, a task is let in if and only if the calls of `flush`, `stop` and `start`, in their order, have left the worker open: `flush` and `stop` always close it, `start` opens it only after a stop. |
| WorkerProtocol.OnlyRestartAccepts | core/worker/lib/worker.cpp:34-43 | A flushed worker has accepted a task only if there was a `stop` and after it a `start`. |
| WorkerProtocol.RestartAccepts | core/worker/lib/worker.cpp:34-65 | And after these two it accepts, with a thread to run the task. |
| WorkerProtocol.StopClears | core/worker/lib/worker.cpp:45-57 | `stop(true)` throws away exactly the tasks still waiting, in order, and leaves the queue empty. |
| WorkerProtocol.ClearedTasksNeverRun | core/worker/lib/worker.cpp:52-55 | In no later run is a task in hand that had been accepted before such a stop. |
| WorkerProtocol.TaskEnds | core/worker/lib/worker.cpp:143-157 | However a task ends and whatever the status, the record of it says what it did, and `Work` gives way to `Wait` exactly on an empty queue. |
| WorkerProtocol.OldestRuns | core/worker/lib/worker.cpp:133-142 | The thread takes the oldest task not yet run, and reports `Work` unless the queue is being flushed. |
| WorkerProtocol.IdleGoesRound | core/worker/lib/worker.cpp:120-132 | A time-out takes an idle worker round its loop and changes nothing. |
| WorkerObject.Worker.AddTask | core/worker/lib/worker.cpp:108-116 | The section on the object's fields is the protocol's step: queued and accepted, or refused under `Stop` and `Flush`. |
| WorkerObject.Worker.Start | core/worker/lib/worker.cpp:34-43 | A new thread only from `Stop`. |
| WorkerObject.Worker.StopBegin | core/worker/lib/worker.cpp:45-57 | The locked part of `stop`, with the discarded tasks recorded. |
| WorkerObject.Worker.FlushBegin | core/worker/lib/worker.cpp:67-74 | The locked part of `flush`. |
| WorkerObject.Worker.FlushEmpty | core/worker/lib/worker.cpp:76-81 | The end of the wait for an empty queue. |
| WorkerObject.Worker.JoinThread | core/worker/lib/worker.cpp:58-61 | The join, possible once the thread has left its loop or does not exist. |
| WorkerObject.Worker.GetSizeQueue | core/worker/lib/worker.cpp:97-101 | With the mutex held, the number of accepted tasks neither run nor discarded, which are the last so many accepted. |
| WorkerObject.Worker.TestLoop | core/worker/lib/worker.cpp:120 | The loop test, outside the mutex. |
| WorkerObject.Worker.TakeTask | core/worker/lib/worker.cpp:121-142 | From the end of the wait to the start of the oldest task, or out of the loop. |
| WorkerObject.Worker.FinishTask | core/worker/lib/worker.cpp:143-157 | From the end of the task to the loop test, with `Wait` restored on an empty queue. |
| WorkerObject.Worker.RunThreadTask | core/worker/lib/worker.cpp:118-159 | Under `Flush` the loop runs every queued task in order, records for each whether it threw, and exits with an empty queue. |
| Shutdown.NoReaderIsHeld | server/lib/segment_server.cpp:45-87 | In every interleaving, once the disconnect loop of `stop` is over, each reader launched or about to be launched has a closed socket or is itself closing it. |
| Shutdown.NoReaderAfterStop | server/lib/segment_server.cpp:46-61 | Every reader there will ever be was decided on before `isWork` became false, when its session was in the map. |
| Shutdown.FlagListSocket | core/session/lib/session.cpp:120-129 | In every interleaving a session with the error flag is off the list and closed or being closed, and a session leaves the list only by being closed. |
| Shutdown.ManyClientsNeverCrash | server/lib/segment_server.cpp:49-51 | With `multiConnect` the accept loop never disconnects through a null session. |
| Shutdown.RunKeepsInv | server/lib/segment_server.cpp:27-161 | Any run of all the threads' steps keeps the shutdown invariant: who is on the map, who is in the copy `stop` made, who is being closed. |
| StopReturns.StopEnds | server/lib/segment_server.cpp:68-87 | Every run after `isWork` was cleared is at most as long as a rank; until `stop` has returned or the accept loop has crashed a step without any client is possible; the readers are joined only after the accept loop has ended, and on return all have ended. |
| StopReturns.StopOfManyClientsReturns | server/lib/segment_server.cpp:68-87 | With `multiConnect`, `stop` called after any run returns. |
| StopReturns.StopIsNotStuck | server/lib/segment_server.cpp:68-87 | While `stop` is under way some step is possible that waits for no client, because what a thread waits on has been closed. |
| SingleClient.AtMostOneClient | server/lib/segment_server.cpp:45-62 | With `multiConnect` false, in every run, whenever no newcomer is being judged at most one session of the map has an open socket, although closed sessions stay in it and readers remove entries meanwhile. |
| SingleClient.NewcomerIsTurnedAway | server/lib/segment_server.cpp:48-51 | The accept loop closes or unlists nobody but the newest session, which has no reader yet. |
| StopCrash.CrashCondition | server/lib/segment_server.cpp:45-51 | With `multiConnect` false, in every state: some continuation makes the accept loop disconnect through a null session if and only if, before `stop` is called, the loop has not ended, and after it, `MayCrash` holds: by the place of the accept loop, the size of the map, and whether the newcomer is off the list or can still be taken off it. |
| StopCrash.StopWhileAccepting | server/lib/segment_server.cpp:68-80 | At the call of `stop`, while the accept loop waits for a client: such a continuation exists if and only if the map is not empty. |
| StopCrash.StopOfOneClientReturns | server/lib/segment_server.cpp:68-87 | From every state of `stop` where the condition fails, `stop` returns. |
| StopCrash.OneClientIsEnough | server/lib/segment_server.cpp:106-110 | A run to such a call of `stop` with one client in the map. |
| StopCrash.StopCanCrash | server/lib/segment_server.cpp:49-51 | A run with one client served and one turned away, after which the failing accept itself is enough. |
| Lockout.ServiceCondition | server/lib/segment_server.cpp:46-61 | In every state of a working server: left to its clients, it can still read from somebody who connects later if and only if, with `multiConnect`, the accept loop has not ended, and without, it goes on and no session `Stays` in the map, closed or without a reader that will ever find an error. |
| Lockout.ManyClientsService | server/lib/segment_server.cpp:46-61 | With `multiConnect` it can do so whoever is in the map, and without any step of theirs. |
| Lockout.NobodyElseIsServed | server/lib/segment_server.cpp:48-60 | Once a session stays, in every run, whatever else the user calls, it does so and no later session is ever read, unless the user writes to it or disconnects it with a socket error. |
| Lockout.OnlyCauses | server/lib/segment_server.cpp:49-60 | While the server works a session comes to stay only by a rejection, an exception out of `read`, or the user's own clean disconnect. |
| Lockout.TurnedAwayStays | server/lib/segment_server.cpp:49-51 | A rejection without a socket error does so to every session still in the map. |
| Lockout.ThrownStays | core/transport_handler/lib/transport_handler.cpp:101-102 | So does an exception in the reader of a session in the map. |
| Lockout.DisconnectedStays | core/session/lib/session.cpp:130-131 | So does a clean disconnect while the reader is not in the middle of a read. |
| Lockout.RejectionLocksOut | server/lib/segment_server.cpp:49-51 | A run to a working server that can serve nobody new: one client served, another turned away. |
| Lockout.ExceptionLocksOut | core/transport_handler/lib/transport_handler.cpp:101-102 | Another: the only client sends an object without `type`. |
| Lockout.DisconnectLocksOut | server/lib/segment_server.cpp:141-159 | Another: the only client is disconnected by the server's user between two reads. |
| StartRace.StartedServerAccepts | server/lib/segment_server.cpp:45-63 | A serving server has lost its accept loop if and only if the main worker made the first loop test before `start` set `isWork`; then nobody has been accepted. |
| StartRace.EndedAcceptsNobody | server/lib/segment_server.cpp:45-63 | Nor will anybody ever be. |
| StartRace.StartCanFail | server/lib/segment_server.cpp:45-63 | A run in which it happens. |
| ReaderEnds.FailedReaderEnds | server/lib/segment_server.cpp:141-159 | In every run a reader whose read has failed moves at most five times more, server working or not, and until it has ended it can move. |
| ReaderEnds.SpinnerNeverEnds | core/session/lib/session.cpp:130-131 | In every run that leaves the server working, the reader of a session closed without an error does not end, unless the user writes to it. |
| ReaderEnds.BlockedReader | core/transport_handler/lib/transport_handler.cpp:67-107 | A blocked read can fail at any time, and bring a message or throw only from an open socket. |
| ReaderEnds.UserCalls | server/lib/segment_server.cpp:68-110 | Between two calls the user of a server in service can write to and disconnect exactly the listed sessions, and stop the server. |
| SessionSteps.FailedReadIsEvent | core/session/lib/session.cpp:120-129 | The steps of a failed read in the server protocol, taken together, do to flag, list and socket what the two layers do in one call. |
| SessionSteps.HarmlessReadIsEvent | core/session/lib/session.cpp:109-118 | A read without a critical code changes none of them in either model. |
| SessionSteps.WriteIsEvent | core/session/lib/session.cpp:134-150 | The same for the steps of a failed write. |
| SessionSteps.DisconnectIsEvent | core/connection/lib/connect_handler.cpp:77-99 | The same for the steps of a disconnect, clean or faulty, of an open or a closed session. |
| SessionSteps.RejectionIsEvent | server/lib/segment_server.cpp:106-110 | The same for a rejection by the accept loop. |
| SessionIds.OneServersIdsAreFresh | server/lib/segment_server.cpp:12-17 | Under any interleaving of several servers' `fetch_add` and `load` the ids of one server increase, and two of its 32-bit keys agree only if the counter went round in between. |
| SessionIds.TwoServersCanAgree | server/lib/segment_server.cpp:12-17 | Two servers can draw the same id. |
| SessionIds.RemovalIsOneDelete | core/session/lib/session_manager.cpp:65-102 | With fresh ids, for any interleaving of the two locked parts of removals with inserts and other removals, the map is the inserted entries without the erased ones. |
| SessionIds.ReusedIdIsLost | core/session/lib/session_manager.cpp:82-90 | Without fresh ids it is not: of two overlapping removals the slower erases a session inserted after both. |
| SessionIds.EntryIsKept | core/session/lib/session_manager.cpp:45-50 | A session in the map keeps its place until its removal is called, whatever is added under its id. |
| SessionIds.NoSessionIsRefused | core/session/lib/session_manager.cpp:45-50 | A server that adds sessions under the ids it has drawn, in their order, with any removals between, never meets an id that is in the map while the counter is below 2^32, and its removals are single deletes. |
| Sessions.LayersMustAgree | core/utils/lib/error_handler.cpp:17-74 | Let the transport layer and the session layer classify codes by any two functions: flag, list and socket agree after every sequence of reads, writes and disconnects if and only if the two judge every error code alike. |
| Sessions.MarkIffRaised | core/session/lib/session.cpp:107-150 | With like verdicts, at every point of any such sequence the flag the session layer sets is set if and only if an earlier call made the transport layer call `onError`. |
| Sessions.LossIsFinal | core/session/lib/session_manager.cpp:61-90 | Whatever the two classifications, a flag once set stays, and a session once closed or off the list never comes back. |
| Sessions.CodesDecide | core/transport_handler/lib/transport_handler.cpp:22-39 | A critical code sets the flag, closes the socket and takes the session off the list; any other code changes none of them. |
| Sessions.ToleratedCodes | core/utils/lib/error_handler.cpp:17-74 | A session outlives exactly success, address in use, connection refused and a syntax error; any other code of a read or write ends it. |
| Sessions.CallbackIsTold | core/session/lib/session.cpp:107-129 | The read callback hears of every read but one that throws, is told its code, and gets a message only with success. |
| Sessions.Session.Read | core/session/lib/session.cpp:107-132 | One read under any faults: nothing in a closed session; else the frame at the head of the inbox, or the part of it moved before a fault, is consumed, the callback gets its message or its error, and the session fails exactly on a critical code. |
| Sessions.Session.Write | core/session/lib/session.cpp:134-150 | One write under any fault: the message's frame is appended, or a part of it, and the session fails exactly on a critical code; a closed socket takes nothing. |
| Sessions.Session.Disconnect | core/connection/lib/connect_handler.cpp:77-99 | A clean disconnect keeps the session on the list; an error of shutdown or close takes it off; a closed session is left alone. |
| Sessions.SessionManager.AddSession | core/session/lib/session_manager.cpp:45-80 | A new open, unflagged session is listed exactly if the id was unused and the accept succeeded. |
| Sessions.SessionManager.RemoveSession | core/session/lib/session_manager.cpp:82-90 | The map without that id, whether or not it was there. |
| Sessions.SessionManager.GetSession | core/session/lib/session_manager.cpp:92-102 | The session of that id, null exactly if there is none. |
| Sessions.SessionManager.GetSessionCount | core/session/lib/session_manager.cpp:130-134 | The number of sessions; zero exactly for an empty map. |
| Transport.TransportHandler.ReadSync | core/transport_handler/lib/transport_handler.cpp:67-107 | The read as performed stage by stage on the socket, with a fault of each stage, is `FaultyRead`; `onError` is called exactly for a critical code. |
| Transport.TransportHandler.WriteSync | core/transport_handler/lib/transport_handler.cpp:166-189 | One frame with magic number, size modulo 2^32 and payload is appended on success, a proper part of it on a fault; `onError` exactly for a critical code. |
| Transport.ReadOne | core/transport_handler/lib/transport_handler.cpp:74-107 | A read that lets the session live has consumed at least a header. |
| Stream.FrameIsRead | core/transport_handler/lib/transport_handler.cpp:86-87 | A frame of any size read back: its payload up to the size modulo 2^32 is judged and the rest is left in the stream. |
| Stream.FrameFits | core/transport_handler/lib/transport_handler.cpp:169-175 | A frame is judged whole with nothing left over if and only if its payload has fewer than 2^32 bytes. |
| Stream.HeaderFaultIsReported | core/transport_handler/lib/transport_handler.cpp:74-77 | Of any bytes: an error in the header stage is what the read reports; part of the header is lost. |
| Stream.PayloadFaultIsReported | core/transport_handler/lib/transport_handler.cpp:86-90 | An error in the payload stage is what the read reports, whatever the payload says, and part of the payload is lost; an empty payload is beyond its reach. |
| Stream.DeliveredIsWhole | core/transport_handler/lib/transport_handler.cpp:67-107 | Of any bytes: what is delivered came through both stages without an error. |
| Stream.FramesAreRead | core/transport_handler/lib/transport_handler.cpp:67-107 | Any frames, then part of one more, read as one outcome per frame up to the first that ends the session, else the loss of the connection: a rejected text costs its own frame only. |
| Stream.Truncation | core/transport_handler/lib/transport_handler.cpp:74-90 | A stream cut anywhere reads as its whole frames and then the loss of the connection; no message is made up. |
| Stream.UniqueDecoding | core/transport_handler/lib/transport_handler.cpp:168-175 | Different lists of payloads never make the same bytes. |
| Stream.WrongMagic | core/transport_handler/lib/transport_handler.cpp:79-84 | Frames of a peer with another magic number: the first read ends the session. |
| Stream.PayloadSurvives | core/utils/lib/error_handler.cpp:38-68 | Of any printed object: every proper part from its start is `incomplete` and ends the session; followed by anything but space it is `extra_data` and ends it; whole, it leaves the session alive if and only if it has a string type and an integer transaction that fits. |
| Stream.CutMessageEnds | core/transport_handler/lib/transport_handler.cpp:86-96 | Every message whose text is cut short inside its frame ends the session. |
| Stream.SpoiltMessageIsTolerated | core/utils/lib/error_handler.cpp:38-52 | A message (its type string free of control characters) of which any byte is replaced by a control character, whatever follows, is a syntax error and leaves the session alive. |
| JsonPrefix.ObjectText | core/transport_handler/lib/transport_handler.cpp:92-94 | Wherever the text of an object is cut, and whatever follows it, what the parser reports. |
| JsonPrefix.SpoiltObject | core/transport_handler/lib/transport_handler.cpp:92-94 | Wherever the text of an object is spoilt by a control character, the parser reports `syntax`. |
| JsonLaw.ParseSurrounded | core/transport_handler/lib/transport_handler.cpp:92-93 | Space around a text changes nothing. |
| JsonLaw.EscapeIsRead | core/transport_handler/lib/transport_handler.cpp:92-93 | An escape of four digits is its character, and a second half alone is an error of its own. |
| JsonLaw.PairIsRead | core/transport_handler/lib/transport_handler.cpp:92-93 | Two escaped halves are one character, or another error of its own. |
| Stream.UnfinishedTextEnds | core/utils/lib/error_handler.cpp:38-68 | Two texts that show it: a wrong character is tolerated, a missing one is not. |
| Stream.MessageIsJudged | core/transport_handler/lib/transport_handler.cpp:101-106 | The type and transaction read from the text are those of the message written, Tests becoming Error on all but InformationMessage. |
| Stream.MessagesAreRead | core/transport_handler/lib/transport_handler.cpp:67-107 | A stream of written messages is delivered as these messages, in order, and then ends. |
| Chunking.AsyncAgreesWithSync | core/transport_handler/lib/transport_handler.cpp:109-154 | However the bytes are cut into pieces, the two-stage asynchronous reads report what the synchronous reads report of the whole. |
| Chunking.ArriveIsRead | core/transport_handler/lib/transport_handler.cpp:120-153 | What one piece makes the callbacks report, and the bytes it leaves buffered, together account for the synchronous reads of everything. |
| JsonLaw.ParsePrint | core/message_handler/lib/message_handler.cpp:31-46 | Parsing a printed value gives the value back, unsigned integers below 2^63 as signed ones. |
| MessageHandler.MessageRoundTrip | core/message_handler/lib/message_handler.cpp:27-47 | Serialize, print, parse and create, for every message: the class its type string names, its transaction in wire form, and its contents exactly when it is a Response of that class. |
| MessageHandler.SecondTrip | core/message/lib/message.cpp:11-22 | A second trip changes neither the transaction nor the contents, except for an InformationMessage in Tests under the type string of another class. |
| MessageHandler.RawIsRead | core/message/lib/raw_message.cpp:12-29 | Bytes written as unsigned numbers are read back as the same bytes from signed ones. |
| MessageHandler.SignalIsRead | core/message/lib/signal_message.cpp:14-30 | Frequency and samples of a Response come back as written; a Response without them is refused. |
| MessageHandler.InformationIsRead | core/message/lib/information_message.cpp:16-21 | The core count of a Response comes back as written; a Response without it is refused. |
| MessageHandler.CreatedExactly | core/message_handler/lib/creator_message.cpp:10-24 | Of any object from any peer: it becomes a message if and only if its type string is known and, for a Response of signal or information, its fields are there and of the right kind. |
| MessageHandler.BytesAreThePrefix | core/message/lib/raw_message.cpp:12-29 | The bytes kept of any array are those before the first item that is not a signed integer, each modulo 256. |
| MessageHandler.OthersAreSkipped | core/message/lib/signal_message.cpp:14-30 | What is not a pair leaves no trace in a signal. |
| WireText.TextOf | core/message/lib/message.cpp:11-22 | The text of every message, letter by letter: type, number of the transaction, and the fields of its class. |
| WireText.HeaderIsUnderstood | core/message/lib/transaction.cpp:6-18 | Any object with the two header fields is delivered under its type, its number, cut to 32 bits, read as 0 Request, 1 Response, 2 Tests, else Error. |
| WireText.UserText | client/lib/segment_client.cpp:44-57 | The letters each text of the user becomes on the wire, and what is read from them: the two words as requests, numbered 0, any other text as a raw Response, numbered 1. |
| Messages.SerializeRaw | core/message/lib/raw_message.cpp:31-51 | The loop over the bytes builds the object the round trip is about. |
| Messages.SerializeSignal | core/message/lib/signal_message.cpp:41-62 | The loop over the samples builds the object the round trip is about. |
| Messages.ParseRaw | core/message/lib/raw_message.cpp:12-29 | The reading loop keeps the bytes before the first item that is not a signed integer, and never fails. |
| Messages.ParseSignal | core/message/lib/signal_message.cpp:14-30 | The reading loop takes the pairs of doubles, skips what is not a pair, and fails on a pair of anything else. |
| Messages.Int32 | core/message/lib/information_message.cpp:20 | The conversion to `int`: in range, congruent, and the identity on what fits. |
| Exchange.CreateResponse | core/request_response_handler/lib/request_response_handler.cpp:19-59 | A request for signal or information gets a Response of its type, within the ranges of the drawn numbers, that arrives at its reader as it was sent; any other message gets `unknown` in Error, for which its reader has no class. |
| Exchange.RepliesDieOut | core/request_response_handler/lib/request_response_handler.cpp:26-30 | Were a reply answered, nothing would be heard of the answer: no exchange goes on by itself. |
| Exchange.React | server/lib/segment_server.cpp:142-157 | A raw message is logged, any other is answered with one write under any fault, no message with none. |
| Exchange.SessionWork | server/lib/segment_server.cpp:141-159 | The reading loop, under any faults and any number of rounds before `isWork` is cleared, is `ServeAll`. |
| Exchange.ServingAgrees | server/lib/segment_server.cpp:141-159 | Whatever goes wrong in the loop, flag, list and socket agree after it, and nothing written is unwritten. |
| Exchange.OpenWrite | core/transport_handler/lib/transport_handler.cpp:166-189 | A write to an open socket sends the frame, or as much as the fault lets through, and the session outlives only a tolerated code. |
| Exchange.ClosedWrite | core/transport_handler/lib/transport_handler.cpp:178-184 | A write to a closed socket sends nothing, and flags and unlists its session. |
| Exchange.LostReadEndsServing | server/lib/segment_server.cpp:141-159 | A connection lost while a header is read ends the loop, with nothing logged or answered. |
| Exchange.LostWriteEndsServing | server/lib/segment_server.cpp:141-159 | One lost while a message is answered ends it with the message read and part of the answer sent. |
| Exchange.CalmServer | server/lib/segment_server.cpp:141-159 | Without faults, and given rounds enough, the loop logs and answers exactly the outcomes of reading the whole inbox, in order. |
| Client.ClientWrite | client/lib/segment_client.cpp:44-57 | The two words are sent as requests and any other text as raw data, under any fault. |
| Client.ClientWork | client/lib/segment_client.cpp:34-38 | The reading loop, under any faults and any number of rounds, is `HearAll`; it writes nothing. |
| Client.CalmClient | client/lib/segment_client.cpp:24-38 | Without faults, and given rounds enough, it receives exactly the messages in the inbox. |
| Client.LostReadEndsHearing | client/lib/segment_client.cpp:34-38 | A connection lost while a header is read ends the client's loop. |
| Client.StreamRoundTrip | core/session/lib/session.cpp:107-150 | Messages written to a stream and read from it are heard in order, each in its wire form. |
| Client.TextFitsFrame | core/transport_handler/lib/transport_handler.cpp:169-175 | A text's message fits in a frame if and only if a sum over its bytes is below 2^32. |
| Client.EndToEnd | client/lib/segment_client.cpp:25-57 | For any texts that fit in a frame, on one error-free session: the server logs exactly the raw ones and sends exactly one reply to each request, in order; the client receives exactly these replies, Responses of the type asked for. |
| Client.Converse | server/lib/segment_server.cpp:136-159 | The same of the objects: writing all texts, serving them and reading the answers leaves in the log the raw texts and with the client the expected replies. |
| Sizes.SignalReplyFits | core/request_response_handler/lib/request_response_handler.cpp:37-52 | Every signal reply has fewer than 2000 bytes of text. |
| SegmentServer.Server.Write | server/lib/segment_server.cpp:89-105 | A text for a listed session is sent as the client would send it, under any fault; an unknown id is ignored. |
| SegmentServer.Server.Disconnect | server/lib/segment_server.cpp:106-110 | A listed session is disconnected. |

## Left out

- JsonText.Parse: UTF-8 is not decoded: a byte of 0x80 or more counts as a syntax error, and an escaped character outside ASCII is one character; the depth limit of 32, exponent overflow and "-0" as a double are not modelled.
- JsonText.Decimal: a finite double is the token of its shortest decimal text; rounding and non-finite values are not modelled.
- Transport.ReadOne: with `ReadAll` it describes a peer that closes after its last byte; a peer that stays silent leaves the reader blocked, which the server protocol models.
- ServerProtocol.Next: the accept loop, the readers and `stop` are steps over one value rather than methods of an object, because three threads share its fields; the model then does not show which C++ object holds which field.
- ServerProtocol.Accept: turning a session away (disconnect and, on a socket error, removal) is one step, and a worker started after a failed accept, which ends at once for want of a session, is not shown.
- ServerProtocol.Work: removal by the calling thread is not retried after a second error of the same disconnect.
- Chunking.Arrive: the asynchronous stages are functions of the bytes; the shared pointers that keep their buffers alive are not modelled.
- Exchange.SessionWork: the session has been found in the map, and no other thread closes or removes it meanwhile; such interference is in the server protocol.
- Client.EndToEnd: no other thread writes to the session, and each side reads until the other has closed its direction.
- WorkerObject.Worker.RunThreadTask: the loop from its test on under `Flush`, when nobody else can change anything; under other statuses its sections interleave with the callers' and are `TestLoop`, `TakeTask` and `FinishTask`.
- Asynchronous `write` and the asynchronous accept loops: server and client use the synchronous mode.
- `onReadHandler`: the two modes pass sizes that differ by one; only `onAllRead` is compared.
- `SegmentClient::start` and `stop`, and `ConnectHandler::sync_connect`: one reader and one closing thread, a smaller case of the server's shutdown.
- Random numbers: the choice is a parameter, within ranges that are kept for integers; of a drawn coordinate only the length of its text is bounded.
- `MessageHandler::serialize` of a null message: no caller passes one.
- `Logger`, `LogEvent`, `ConfigurationHandler`, `HandlerInvoker`, the consoles, the creators and `clientserveriface`: input, output and plumbing.
