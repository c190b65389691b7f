# Rpress: a verified model

A Dafny model of the protocol cores of the Rpress web framework and its client. Each module stands
for one source file or one protocol; code that updates state in place is a class or a loop, proved
against a function; code shared by interleaved tasks is a transition system with one step per lock or
channel operation, and its theorems are about all runs.

| module | what it models |
|---|---|
| `Rooms`, `Sockets` | the in-memory adapter, sockets, connect and clean-up run to completion, the broadcast builder |
| `Cleanup` | connect, join, leave, registration and clean-up interleaved at lock granularity |
| `CleanupTables`, `SocketLifetime` | what that leaves in each table, and one socket's run from connect to end |
| `Cluster` | broadcasts over any number of nodes joined by publish/subscribe |
| `PollSession`, `Heartbeat` | one Engine.IO session: channel, poll buffer, notification; pings and pongs |
| `EngineIo`, `SocketIo`, `Acks` | the two packet codecs, the polling payload, acknowledged events between client and server |
| `Bytes`, `Head`, `Chunked`, `Http` | the HTTP/1.1 parser over byte strings (RFC 9112) |
| `Connection`, `Framing` | the read loop of an HTTP/1.1 connection and what it makes of requests cut into reads |
| `ChunkedFraming`, `ChunkedReads`, `BodyStream` | the same for chunked requests and for streamed bodies |
| `Routes`, `RouteTree` | the routing trie as a value and as nodes extended in place, and the route table it stands for |
| `RateLimiter` | the in-memory rate limiter over whole call traces |
| `App`, `BodyLimit` | route groups, body limits, and the way from a parsed request to its handler |

Fresh ids, the clock, user callbacks and their results, JSON printing and parsing, and the decoding of
a request target into a path are parameters or arbitrary values of steps. Ghost histories are written
and never read by the steps they accompany.

Where the code does less than one might expect, the model follows the code and a lemma shows it:

- An emit that names several rooms sends a copy per room, where the comment at engine/src/core/socketio/socket.rs:200 speaks of a further restriction (`Sockets.EmitAtMostOnceIff`).
- A disconnect handler registered after clean-up stays in the table for good (`Cleanup.LateRegistrationStays`).
- A last chunk cut before its closing CRLF moves the cursor behind the buffer, where draining panics (`Chunked.OverrunIff`).
- At a chunk front without a whole line, with an unreadable size or with a frame that is not all there, the inner loop spins for ever (`Connection.NoProgress`, `Connection.SpinsForever`).
- A chunked request is framed exactly when the end of its head and all of its body come in one read, and no read before that ends inside its request line (`ChunkedReads.ChunkedWholeIff`); what any other cut leads to is `ChunkedFraming.DrainAnyCut`.
- A read that ends inside a request line is refused as malformed, or makes the loop spin when the text of the chunk marker is in the buffer (`Framing.FeedExactly`). A request without headers is always refused (`Http.HeaderlessRefused`), and an error response overtakes those of earlier requests (`Framing.ErrorOvertakes`).
- Requests pipelined behind a streamed one in the same read are given to its handler as body, in a later read they are dropped (`BodyStream.SurplusIsForwarded`, `BodyStream.LaterSurplusIsDropped`); behind a WebSocket upgrade the batch is dropped (`Connection.UpgradeDropsRest`).
- A binary packet without attachments loses its id in the main namespace (`SocketIo.BinaryIdIsLost`).
- A lost event or acknowledgement leaks its pending entry (`Acks.LostCallLeaksEntry`, `Acks.PendingIff`).
- A limit of zero admits a call when an expired entry is still there (`RateLimiter.SweptEntryShowsIff`). The comment at engine/src/core/rate_limiter.rs:23 speaks of a sliding window; the code resets fixed windows, and lets through up to twice the limit less one in one window length (`RateLimiter.BoundIsReached`).
- Parameters are bound rightly exactly in tables where no pattern repeats a name (`Routes.BindsIffNamesDistinct`); a pattern with a dot segment is unreachable (`Routes.DotPatternUnreachable`), and so is a handler registered for HEAD (`BodyLimit.HeadHandlersAreDead`).
- Aborting every writer that waits for the poll buffer's lock can lose a wakeup; with one writer it cannot (`PollSession.TwoAbortedWritersLose`, `PollSession.OneWriterStaysAwake`).
- A session loop that sends a ping on its own full channel stays there (`PollSession.StuckForever`).

## Model

| member | source | states |
|---|---|---|
| `Cleanup.AtMostOneCall` | engine/src/core/socketio/handler.rs:430-451 | Over every interleaving of connects, joins, registrations and any number of clean-ups, one lock step at a time, no socket has more than one disconnect callback. |
| `Cleanup.HandlerPersists` | engine/src/core/socketio/handler.rs:430-451 | Until it is registered anew, the disconnect handler of a socket whose clean-up has not begun stays the one its first clean-up finds. |
| `Cleanup.ExactlyOneCall` | engine/src/core/socketio/handler.rs:430-451 | A handler present before the first clean-up and not replaced has been called exactly once as soon as clean-up has begun and none of the socket's clean-ups is under way; without a handler there is no call. |
| `Cleanup.GoneForGood` | engine/src/core/socketio/handler.rs:440-451 | Once any one clean-up has ended, the socket is out of the socket and sender tables for good, in exactly the rooms it rejoined since its last `leave_all`, and in the handler table exactly if one was registered since a clean-up last ended. |
| `Cleanup.NotLate` | engine/src/core/socketio/handler.rs:447-451 | The only steps that bring anything back are a join that ends after a `leave_all` and a registration after an end of clean-up; what user code does before, in the disconnect handler say, is swept. |
| `Cleanup.SessionIsEmptied` | engine/src/core/socketio/handler.rs:412-428 | When the disconnect of a session has ended, the sockets of that session still in the table were all published after it began. |
| `Cleanup.NoCleanupStep` | engine/src/core/socketio/handler.rs:412-428 | A socket whose clean-ups are over cannot be picked up by a new one. |
| `Cleanup.LateRegistrationStays` | engine/src/core/socketio/socket.rs:164-172 | A handler registered after the clean-ups are over is never called and never removed. |
| `Cleanup.RunInv` | engine/src/core/socketio/handler.rs:310-451 | The invariant behind these: publication, claim, callback and removal of each socket happen in order, in every reachable state. |
| `CleanupTables.SocketIff` | engine/src/core/socketio/handler.rs:310-450 | In every state of every run: a socket is in the socket table exactly if it was published and not removed since, and in the sender table exactly if its sender was registered and not unregistered since. |
| `CleanupTables.EntryIff` | engine/src/core/socketio/socket.rs:151-172 | It has an entry in the handler table exactly if something was registered since the entry was last dropped. |
| `CleanupTables.HandlerIff` | engine/src/core/socketio/socket.rs:164-172 | Its disconnect handler is the last one registered since then. |
| `CleanupTables.ListedIff` | engine/src/core/socketio/socket.rs:92-105 | The adapter lists it in a room exactly if it was put there, by connect or join, and taken out by no leave or clean-up since. |
| `CleanupTables.RoomSetIff` | engine/src/core/socketio/socket.rs:92-105 | Its own set holds a room exactly if it entered it and has neither left it nor been cleared since. |
| `CleanupTables.RetiredIsCleared` | engine/src/core/socketio/socket.rs:180-188 | Once it is out of the table and its clean-ups are over, its own set holds only rooms entered after it was cleared. |
| `CleanupTables.SessionIff` | engine/src/core/socketio/handler.rs:427-427 | A session is there exactly if it was opened and its disconnect has not ended since. |
| `CleanupTables.InfoIff` | engine/src/core/socketio/handler.rs:310-334 | A socket's session and namespace are for good those of the one connect that created it. |
| `SocketLifetime.ComesAndGoes` | engine/src/core/socketio/handler.rs:310-451 | A run: a socket connects, registers a handler, joins and leaves a room and goes, by itself or with its session; one call, and nothing of it is left in any table. |
| `Rooms.RoomManager.Join` | engine/src/core/socketio/room.rs:70-89 | Creates the room on demand and adds the member: the new table is `Joined` of the old one. |
| `Rooms.RoomManager.Leave` | engine/src/core/socketio/room.rs:91-111 | Removes the member and drops the room if that empties it. |
| `Rooms.RoomManager.LeaveAll` | engine/src/core/socketio/room.rs:113-125 | Visits the rooms in any order; the new table is the old one without the socket and without the rooms this empties. |
| `Rooms.RoomManager.BroadcastRoom` | engine/src/core/socketio/room.rs:127-159 | Appends exactly one delivery, on its own channel, for each registered member except the excluded one, in any order. |
| `Rooms.RoomManager.BroadcastNamespace` | engine/src/core/socketio/room.rs:161-192 | The same over all rooms of the namespace, each socket once however many rooms it shares and whatever the map order. |
| `Rooms.JoinedMembers` | engine/src/core/socketio/room.rs:70-89 | A join adds one membership and changes no other. |
| `Rooms.LeftMembers` | engine/src/core/socketio/room.rs:91-111 | A leave removes one membership, changes no other and leaves no empty room. |
| `Rooms.LeftAllMembers` | engine/src/core/socketio/room.rs:113-125 | `leave_all` removes the socket from every room and nothing else, and leaves no empty room. |
| `Rooms.LeaveUndoesJoin` | engine/src/core/socketio/room.rs:70-111 | Leaving a room just joined restores the table exactly. |
| `Rooms.LeaveAllOfAbsent` | engine/src/core/socketio/room.rs:113-125 | `leave_all` of a socket that no room lists changes nothing. |
| `Sockets.Socket.Join` | engine/src/core/socketio/socket.rs:92-97 | Socket set and adapter gain the room together. |
| `Sockets.Socket.Leave` | engine/src/core/socketio/socket.rs:100-105 | Socket set and adapter lose the room together. |
| `Sockets.Socket.LeaveAllRooms` | engine/src/core/socketio/socket.rs:180-188 | With the mirror in place, leaving the listed rooms one by one equals the adapter's `leave_all`, which afterwards changes nothing. |
| `Sockets.Server.HandleConnect` | engine/src/core/socketio/handler.rs:263-350 | The three refusals leave the tables alone and answer as the source does; success adds exactly one socket, registers its sender, joins its own room, answers and calls back; every other socket and earlier id is kept. |
| `Sockets.Server.SocketJoin` | engine/src/core/socketio/socket.rs:92-97 | A join by any holder of the socket, live or not, is one step of the tables and keeps the mirror. |
| `Sockets.Server.SocketLeave` | engine/src/core/socketio/socket.rs:100-105 | So is a leave. |
| `Sockets.Server.CleanupSocket` | engine/src/core/socketio/handler.rs:430-451 | Removes the socket from all four tables, calls its handler once if it was there, and keeps the mirror. |
| `Sockets.Server.HandleDisconnect` | engine/src/core/socketio/handler.rs:412-428 | In whatever order they come, exactly the session's sockets are out of every table, each live one's handler is called once and nobody else's, and all other entries keep their values. |
| `Sockets.CleanedUpIs` | engine/src/core/socketio/handler.rs:412-451 | Any order of distinct clean-ups comes to the same tables and calls each handler once. |
| `Sockets.MirrorAfterConnect` | engine/src/core/socketio/handler.rs:310-334 | Connect keeps the mirror: each live socket's room set equals the rooms of its namespace that list it, no room is empty, no room lists a foreign socket. |
| `Sockets.MirrorAfterJoin` | engine/src/core/socketio/socket.rs:92-97 | Join keeps the mirror, also on a socket that is no longer live. |
| `Sockets.MirrorAfterLeave` | engine/src/core/socketio/socket.rs:100-105 | Leave keeps the mirror. |
| `Sockets.MirrorAfterCleanup` | engine/src/core/socketio/handler.rs:440-449 | Clean-up keeps the mirror and leaves the socket in no room. |
| `Sockets.MirrorOverAll` | engine/src/core/socketio/socket.rs:92-105 | After any list of connects, joins, leaves and clean-ups the mirror holds, and a clean-up leaves its socket in no room. The methods of `Server` each take one such step. |
| `Sockets.Emit` | engine/src/core/socketio/socket.rs:207-224 | The copies each socket gets from one emit: one per named room that lists it, or one in all when no room is named. |
| `Sockets.EmitAtMostOnceIff` | engine/src/core/socketio/socket.rs:207-224 | Nobody gets a second copy exactly when no registered, unexcluded socket is listed by two entries of the room list. |
| `Sockets.EmitToTwoRoomsDuplicates` | engine/src/core/socketio/socket.rs:200-224 | A socket in two named rooms gets two copies. |
| `Sockets.EmitReachesExactlyTargets` | engine/src/core/socketio/socket.rs:207-224 | Exactly the registered, unexcluded members of the targets get some copy. |
| `Cluster.AtMostOneCopy` | engine/src/core/socketio/redis_adapter.rs:108-155 | With membership changing and messages lost at will, one call gives each socket of the cluster at most one copy, the excluded one none, and the packet unchanged. |
| `Cluster.ExactlyOneCopy` | engine/src/core/socketio/redis_adapter.rs:241-287 | With stable membership, no loss and the call settled, every addressed socket has exactly one copy and nobody else any. |
| `Cluster.PacketSurvives` | engine/src/core/socketio/redis_adapter.rs:129-133 | The packet rebuilt from the message is the packet that was broadcast. |
| `Cluster.FlightsAreReceivable` | engine/src/core/socketio/redis_adapter.rs:135-154 | Every message under way names one room or none, so each can be taken up. |
| `Cluster.StrandedForGood` | engine/src/core/socketio/redis_adapter.rs:160-197 | Nothing is published again, so a node that missed a message never takes the call up. |
| `Cluster.DroppedMeansNoCopy` | engine/src/core/socketio/redis_adapter.rs:160-197 | A socket whose node lost the message never gets a copy of that call. |
| `Cluster.RunInv` | engine/src/core/socketio/redis_adapter.rs:95-158 | The invariant over all runs of any number of nodes, calls and subscribers. |
| `Cluster.ListedIff` | engine/src/core/socketio/redis_adapter.rs:95-158 | Over every run a node's room lists a socket exactly if it joined there and has not left since. |
| `Cluster.SenderIff` | engine/src/core/socketio/redis_adapter.rs:95-158 | A node has a socket's sender exactly if it was registered and not replaced or removed since. |
| `Cluster.HistoryIff` | engine/src/core/socketio/redis_adapter.rs:95-158 | What stable, lost, published and begun mean, by the steps there have been. |
| `Cluster.PublishedWhenDelivered` | engine/src/core/socketio/redis_adapter.rs:241-287 | The message goes out only when the call's own node has sent all its packets. |
| `Cluster.BroadcastCrosses` | engine/src/core/socketio/redis_adapter.rs:108-197 | A run: a broadcast made on one node gives a socket in the room on another its one copy. |
| `PollSession.NoLostWakeup` | engine/src/core/socketio/handler.rs:133-149 | Over every run that loses nothing in the sense below: in a settled session with packets buffered, the permit is stored, nobody sleeps, and whoever comes next is woken at once and takes all of them. |
| `PollSession.RunKeepsAwake` | engine/src/core/socketio/handler.rs:466-514 | Over every such run, a non-empty buffer means a stored permit, a woken consumer, or a producer between push and notification; and a stored permit means nobody is waiting. |
| `PollSession.StepKeepsAwakeIff` | engine/src/core/socketio/handler.rs:638-640 | A step loses a wakeup exactly when it aborts a writer that was woken, waits for the buffer lock and is the only one left to drain. |
| `PollSession.FirstInFirstOut` | engine/src/core/socketio/handler.rs:462-514 | Over every run and for each source: what was given comes out once, unchanged and in order, being what is drained, buffered and held. The sources are the session channel (packets sent, and a ping for each WebSocket tick), the polling ticks (one ping each), each pushing task (its own packets), and late GETs of an empty buffer (one noop each). |
| `PollSession.SentIsGiven` | engine/src/core/socketio/handler.rs:486-489 | What the channel was given is what is recorded as sent. |
| `PollSession.TicksSendPings` | engine/src/core/socketio/handler.rs:486-489 | Each tick over the channel sends one ping before the loop does anything else. |
| `PollSession.LockIsLive` | engine/src/core/socketio/handler.rs:481-512 | In every state of every run at most one request is inside the buffer's lock, the first; each holder of a packet has exactly one request; and whoever is first can go on. |
| `PollSession.PlacesIff` | engine/src/core/socketio/handler.rs:133-149 | From its arrival until it drains or is aborted a consumer waits in exactly one place, and otherwise in none. |
| `PollSession.QueueIsBounded` | engine/src/core/socketio/engine_io.rs:177-180 | The channel never holds more than 64 packets. |
| `PollSession.OneWriterStaysAwake` | engine/src/core/socketio/handler.rs:630-640 | With one writer no step of any run loses a wakeup, aborts included. |
| `PollSession.TwoAbortedWritersLose` | engine/src/core/socketio/handler.rs:638-640 | With two, a run that aborts both while they queue for the lock leaves packets buffered that nobody is told of. |
| `PollSession.StuckForever` | engine/src/core/socketio/handler.rs:486-489 | A loop that waits to send a ping on the full channel only it drains stays so in every later state. |
| `PollSession.ReplyCarries` | engine/src/core/socketio/handler.rs:148-161 | A GET's body decodes to exactly the packets it took, or to one noop. |
| `Heartbeat.Ticks` | engine/src/core/socketio/handler.rs:466-478 | The loop ends the session at the first tick that finds the last pong too old, and at no other. |
| `Heartbeat.PromptClientStays` | engine/src/core/socketio/handler.rs:473-478 | For any interval and time-out, a client that answers each ping within the time-out is never dropped. |
| `Heartbeat.SilentClientIsDropped` | engine/src/core/socketio/handler.rs:473-478 | A client silent since `p` is dropped at the first tick after `p + interval + timeout`, not before, hence by `p + 2 * interval + timeout`. |
| `EngineIo.TypeRoundTrip` | engine/src/core/socketio/engine_io.rs:26-42 | A packet type survives its byte and its character. |
| `EngineIo.TypeDigits` | engine/src/core/socketio/engine_io.rs:26-42 | The digits of the seven types, and that no other byte is a type. |
| `EngineIo.PacketRoundTrip` | engine/src/core/socketio/engine_io.rs:57-79 | Decoding undoes encoding exactly when the data is not the empty string. |
| `EngineIo.DecodeIsCanonical` | engine/src/core/socketio/engine_io.rs:67-79 | Whatever decodes is the encoding of what it decodes to. |
| `EngineIo.PayloadRoundTrip` | engine/src/core/socketio/engine_io.rs:82-96 | A batch, the empty one included, survives the payload exactly when no data is empty or holds the record separator. |
| `EngineIo.PayloadOnWire` | engine/src/core/socketio/engine_io.rs:82-88 | Each packet's digit and data, with U+001E between two packets. |
| `EngineIo.OtherPartsAreSkipped` | engine/src/core/socketio/engine_io.rs:90-96 | A part that is no packet is passed over and loses none of the others. |
| `EngineIo.NoPacketIff` | engine/src/core/socketio/engine_io.rs:67-79 | Exactly an empty text and one that does not begin with a type's digit are no packet. |
| `SocketIo.DecodePacket` | engine/src/core/socketio/socket_io.rs:76-152 | The cursor loop computes `Decode`, part by part. |
| `SocketIo.TakeAttachments` | engine/src/core/socketio/socket_io.rs:86-100 | Digits are consumed even when no dash follows. |
| `SocketIo.TakeNamespace` | engine/src/core/socketio/socket_io.rs:102-115 | A namespace runs from its slash to the comma. |
| `SocketIo.TakeId` | engine/src/core/socketio/socket_io.rs:117-136 | Digits are an id only before `[`, `{` or the end; otherwise the cursor goes back. |
| `SocketIo.SioRoundTrip` | rpress-client/src/socket_io.rs:48-141 | For absent, array or object data, decoding undoes encoding exactly when the namespace starts with a slash and has no comma, attachments are on a binary type, and it is not a binary packet without attachments in `/` with an id. |
| `SocketIo.TypeDigits` | engine/src/core/socketio/socket_io.rs:8-34 | The digits of the seven types, and that no other byte is a type. |
| `SocketIo.PacketOnWire` | engine/src/core/socketio/socket_io.rs:50-73 | The packet on the wire, part by part, numbers in their shortest decimal form. |
| `SocketIo.NumberIs` | engine/src/core/socketio/socket_io.rs:99-128 | A run of digits is read as its value, or as 0 if that takes more than 64 bits. |
| `SocketIo.BinaryIdIsLost` | engine/src/core/socketio/socket_io.rs:88-100 | That last packet comes back without its id. |
| `SocketIo.DecodedShape` | engine/src/core/socketio/socket_io.rs:102-115 | A decoded namespace starts with a slash and has no comma; attachments are on binary types only. |
| `SocketIo.DecimalRoundTrip` | engine/src/core/socketio/socket_io.rs:128-128 | A number below 2^64 survives printing and parsing. |
| `SocketIo.EventCarries` | engine/src/core/socketio/socket_io.rs:199-251 | Event name and arguments come out as they were put in. |
| `SocketIo.EventConfuses` | engine/src/core/socketio/socket_io.rs:199-215 | Two data values give the same event exactly when they are equal or one is the one-element array of the other. |
| `SocketIo.BatchSurvivesStack` | engine/src/core/socketio/handler.rs:178-204 | A batch of packets goes through Socket.IO, Engine.IO and the polling payload and back unchanged. |
| `Acks.PendingIds` | rpress-client/src/client.rs:299-309 | Until 2^64 calls have been made, the id of every event and ack under way is pending for its own call, and pending ids are distinct and below the count. |
| `Acks.UnderWay` | engine/src/core/socketio/socket_io.rs:199-231 | Over every run: what travels for a call is an event packet with its name and arguments, or an ack packet with the result as an array, in the call's namespace, under its id, without attachments. |
| `Acks.UnderWaySurvives` | engine/src/core/socketio/socket_io.rs:50-152 | In a namespace that is written as one, both come back from the wire unchanged. |
| `Acks.EventReachesHandler` | engine/src/core/socketio/handler.rs:228-255 | An event that arrives is handed to the handler once, with its own name and arguments, and a result is sent back exactly if there is one. |
| `Acks.AckFindsItsCall` | rpress-client/src/client.rs:203-222 | Every packet that comes back takes the client's ack branch: it consumes the entry of the call it answers, which no ack has consumed before, and resolves that waiter if it still waits. |
| `Acks.ConsumedOnce` | rpress-client/src/client.rs:215-222 | No entry is consumed twice. |
| `Acks.ReturnsOwnResult` | engine/src/core/socketio/handler.rs:387-394 | A returning waiter has the handler's result for its own event and arguments, wrapped as an array. |
| `Acks.PendingIff` | rpress-client/src/client.rs:299-317 | Over every run, exactly the calls that have entered the table and that no ack has consumed are pending; a time-out removes nothing. |
| `Acks.LeavesOnlyByItsAck` | rpress-client/src/client.rs:215-222 | An entry leaves the table exactly when the ack to its own call is dispatched. |
| `Acks.LossForgets` | rpress-client/src/client.rs:299-317 | After a step that fails to send an event, drops it or its ack, or has no answer to it, nothing under way can answer the call. |
| `Acks.LostCallLeaksEntry` | rpress-client/src/client.rs:311-316 | From such a step on, the call's entry stays pending in every later state. |
| `Acks.TimedOutForGood` | rpress-client/src/client.rs:311-314 | A waiter whose time is up never returns, whatever arrives later. |
| `Acks.CallSucceeds` | rpress-client/src/client.rs:289-317 | A run: a call by itself, from the emit to the handler's result. |
| `Acks.RunInv` | rpress-client/src/client.rs:289-317 | The invariant over every interleaving of emits, time-outs, handling, losses and arrivals. |
| `Bytes.FindIsFirst` | engine/src/core/request.rs:20-20 | A search finds the first match, or there is none. |
| `Bytes.SplitJoin` | engine/src/core/request.rs:48-51 | Splitting undoes joining when no piece holds the separator's first byte. |
| `Bytes.JoinSplit` | engine/src/core/request.rs:48-51 | Joining undoes splitting, always. |
| `Bytes.ParsesIff` | engine/src/core/request.rs:145-148 | In any radix up to 16 a text is parsed exactly if it is one or more digits of the tables 0-9a-f and 0-9A-F below the radix, perhaps behind a '+', and their positional value takes 64 bits at most; and then to that value. |
| `Bytes.TrimmedParsesIff` | engine/src/core/request.rs:145-148 | The same for a trimmed text, with blanks around the number. |
| `Bytes.ParsePrint` | engine/src/core/request.rs:145-145 | A number below 2^64 survives printing and parsing, in base 10 and 16. |
| `Bytes.PrintIsShortest` | engine/src/core/socketio/socket_io.rs:55-55 | It is printed without leading zeros in small digits. |
| `Bytes.LowerIsKey` | engine/src/core/request.rs:68-68 | Lowering a name gives the one text that has the same letters, all of them small. |
| `Bytes.LowerMentions` | engine/src/core/request.rs:79-79 | A text is found in the lowered bytes exactly if it stands there in letters of any case. |
| `Head.ReadHeaderLines` | engine/src/core/request.rs:66-93 | The header loop computes `ReadLines`, its early error included. |
| `Head.CountField` | engine/src/core/request.rs:72-92 | One header updates count, length, flags and map. |
| `Head.Spelling` | engine/src/core/request.rs:72-79 | The texts that are searched for and compared with, as ASCII strings. |
| `Head.ReadLinesMeaning` | engine/src/core/request.rs:66-93 | For any list of header lines: success exactly up to 100, else too many; each name filed under its small letters, repeated ones joined by ", " in order; the length is the number denoted by the last value whose name is "content-length" in letters of any case, and the coding is chunked exactly if the last "transfer-encoding" mentions that word in any case. |
| `Head.OtherLinesAreSkipped` | engine/src/core/request.rs:67-70 | A line without ": " has no effect, wherever it stands. |
| `Chunked.ParseChunkedBody` | engine/src/core/request.rs:129-172 | The cursor loop computes `DecodeChunks`. |
| `Chunked.CursorLoop` | engine/src/core/request.rs:133-169 | Cursor and accumulator follow the chunks that stand at the cursor. |
| `Chunked.ReadChunk` | engine/src/core/request.rs:136-166 | What stands at the cursor: no line, a bad or too large size, the last chunk, an incomplete or a whole chunk. |
| `Chunked.DecodeEncode` | engine/src/core/request.rs:133-171 | For any list of non-empty chunks up to 1 MiB with CRLF-free extensions, a last chunk and anything behind: exactly the data, and the cursor at the encoded length. |
| `Chunked.NumeralFrame` | engine/src/core/request.rs:144-148 | A chunk sized in hexadecimal digits of either case, with leading zeros or a '+', is well-formed. |
| `Chunked.CanonicalFrame` | engine/src/core/request.rs:144-148 | So is one sized in the shortest lower-case digits. |
| `Chunked.BadSizeIff` | engine/src/core/request.rs:146-149 | A first line is unreadable exactly if the text before any ';' is no number in hexadecimal digits between blanks, or none that fits. |
| `Chunked.TooBigIff` | engine/src/core/request.rs:147-148 | A chunk is too big exactly if that number is over 1 MiB. |
| `Chunked.OverrunIff` | engine/src/core/request.rs:152-155 | The cursor ends behind the buffer exactly when the last chunk's size line is there and fewer than four bytes follow it. |
| `Chunked.ResumeChunks` | engine/src/core/request.rs:129-172 | For any bytes and any cut: an error or a last chunk in the prefix settles the result; otherwise parsing on from the cursor gives what the whole gives. |
| `Chunked.ResumeWellFormed` | engine/src/core/request.rs:129-172 | For a well-formed body, resuming gives the same data and length exactly when the cut is not between the last chunk's size line and its closing CRLF. |
| `Http.ParseIsStable` | engine/src/core/request.rs:181-247 | A successful parse with a head is unchanged by appended bytes and by the chunk flag, depends on the consumed bytes only, and consumes more than nothing and no more than there is. |
| `Http.HeadInPrefix` | engine/src/core/request.rs:19-127 | A head found in a prefix is the head of the whole, and a head that fits is found in the prefix. |
| `Http.ParseWritten` | engine/src/core/request.rs:181-247 | Any well-formed Content-Length request, whatever follows it, is parsed back with its parts, headers and exact body. |
| `Http.MetadataLists` | engine/src/core/request.rs:84-92 | The map of a parsed request has each key its headers name, with their values in order, and nothing else. |
| `Http.RefusedIff` | engine/src/core/request.rs:22-101 | A complete head of plain parts is refused exactly for a line or section over 8192 bytes, more than 100 headers, both length and coding, or a length over the limit, each with its own error. |
| `Http.RequestLineIff` | engine/src/core/request.rs:186-199 | A first line counts as a request line exactly if it has 3 to 8192 bytes and names HTTP/1.1 somewhere. |
| `Http.ParsePartial` | engine/src/core/request.rs:228-231 | Cut anywhere behind its request line, it asks for more. |
| `Http.HeaderlessRefused` | engine/src/core/request.rs:36-46 | A request without headers is refused as malformed, which is why one is required. |
| `Http.WrittenEnds` | engine/src/core/request.rs:20-39 | Where the request line and the head of a written request end, whatever follows. |
| `Http.DecodeWritten` | engine/src/core/request.rs:48-126 | The decoded head of a written request. |
| `Connection.H1Connection.OnRead` | engine/src/lib.rs:796-960 | One turn of the read loop is `Feed`: append, capacity, streaming, inner loop, hand-out behind any error response. |
| `Connection.H1Connection.OnStream` | engine/src/lib.rs:820-842 | The streaming branch dispatches the head, forwards what is there behind it and counts what remains. |
| `Connection.H1Connection.OnStreamedRead` | engine/src/lib.rs:847-859 | A later read is forwarded up to what remains. |
| `Connection.OverflowIff` | engine/src/lib.rs:798-808 | A read closes the connection exactly if it takes the buffer over its capacity, with one answer and nothing else; an open connection's buffer keeps the capacity. |
| `Connection.RunIsBounded` | engine/src/lib.rs:753-868 | Over every run: the buffer is bounded, empty while a body is streamed, and nothing changes once the connection is over. |
| `Connection.MarkerIs` | engine/src/lib.rs:751-751 | The marker's text. |
| `Connection.H1Connection.TakeRequests` | engine/src/lib.rs:871-930 | The inner loop computes `Drain`, with the chunk flag raised on the way, bodies joined to the last request, and the three ways to end early. |
| `Connection.H1Connection.HandOutBatch` | engine/src/lib.rs:934-960 | The batch is handed out in order, to Socket.IO or a route, up to the first WebSocket upgrade. |
| `Connection.UpgradeDropsRest` | engine/src/lib.rs:955-958 | Behind an upgrade the rest of the batch is dropped, whatever it holds. |
| `Connection.NoProgress` | engine/src/core/request.rs:136-169 | A pass consumes nothing exactly when there is no request line in front, the flag is up and the front holds no line, no readable size or a frame that is not all there; and then nothing changes. |
| `Connection.ChunksWithoutProgress` | engine/src/core/request.rs:136-169 | The chunk parser consumes nothing, without an error, exactly at such a front. |
| `Connection.SpinsForever` | engine/src/lib.rs:876-901 | From there the inner loop repeats the same state for ever. |
| `Connection.SpinsAtUnusableFront` | engine/src/lib.rs:876-901 | With the flag up and no request line in front, it does so at once exactly at such a front. |
| `Framing.RunRefinesIff` | engine/src/lib.rs:796-960 | Reads of up to 1024 bytes that bring in any list of well-formed requests: after every read exactly the complete requests are dispatched, in order, with exact bodies, and the buffer is exactly the unconsumed rest, if and only if no read ends inside a request line. |
| `Framing.FeedExactly` | engine/src/lib.rs:796-960 | Any single read of such a stream, from any point: its exact outcome, which is the expected state exactly when it does not end inside a request line; else the bytes are refused, or the loop spins when the chunk marker is in sight. |
| `Framing.RunRefines` | engine/src/lib.rs:796-930 | What that comes to after the last read: the events are the dispatches of the complete requests, and with the buffer they make up the bytes received. |
| `Framing.AllDelivered` | engine/src/lib.rs:796-930 | Once all has arrived, the dispatched requests are the written ones and the buffer is empty. |
| `Framing.DrainPrefix` | engine/src/lib.rs:876-930 | The inner loop takes off the complete requests of any prefix and keeps the rest. |
| `Framing.RestIsUnconsumed` | engine/src/lib.rs:901-901 | Consumed requests and rest make up the bytes received. |
| `Framing.ReadFits` | engine/src/lib.rs:798-818 | Neither the capacity check nor the stream check gets in the way of such a read. |
| `Framing.ErrorOvertakes` | engine/src/lib.rs:904-960 | In any state, when complete requests and then anything that fails to parse stand in the buffer, the error response goes out before their answers. |
| `ChunkedFraming.DrainAnyCut` | engine/src/lib.rs:870-930 | A chunked request cut at any byte, in one read: waiting, the request with the data so far, refused, spinning or panicking, by where the cut is. |
| `ChunkedFraming.ChunkedInOneRead` | engine/src/lib.rs:889-901 | It comes out whole, with nothing kept, exactly when the read holds all of its data and ends at a frame boundary. |
| `ChunkedFraming.ChunkedThenRest` | engine/src/lib.rs:876-901 | What follows a whole chunked request in the same buffer is parsed with the flag up. |
| `ChunkedReads.ChunkedWholeIff` | engine/src/lib.rs:796-960 | However non-empty reads cut a chunked request: it is dispatched whole and nothing else happens exactly when the end of its head and all of its body come with the last read and no earlier read ends inside the request line. |
| `BodyStream.StreamBegins` | engine/src/lib.rs:820-841 | The read that completes the head of a long request dispatches it and forwards all that stands behind the head. |
| `BodyStream.StreamedBodyIsExact` | engine/src/lib.rs:843-868 | However its reads fall, the handler of a streamed request gets exactly the body, and the connection is open again behind it. |
| `BodyStream.SurplusIsForwarded` | engine/src/lib.rs:835-841 | What is pipelined behind a streamed request in the same read goes to its handler as if it were body. |
| `BodyStream.LaterSurplusIsDropped` | engine/src/lib.rs:851-855 | Behind a body that ends inside a later read, the rest of that read is dropped. |
| `Routes.FindIsScan` | engine/src/core/routes.rs:34-83 | Searching the trie of any successful registration sequence is scanning the table: the best matching pattern, its last entry for the method, WrongMethod or NotFound. |
| `Routes.ScanFindsBest` | engine/src/core/routes.rs:71-82 | The scan's pattern matches and is preferred, static before dynamic from the left, to every other that matches; it is none exactly if none matches. |
| `Routes.MatchFindsBest` | engine/src/core/routes.rs:56-83 | The backtracking search ends at the node of the best pattern with exactly its last handlers. |
| `Routes.BuildRepresents` | engine/src/core/routes.rs:85-130 | Each child of the trie is the trie of the part of the table under its segment. |
| `Routes.BuildSucceedsIff` | engine/src/core/routes.rs:100-111 | Registration never panics exactly when all pairs of patterns name shared dynamic places alike, in any order. |
| `Routes.InsertSucceedsIff` | engine/src/core/routes.rs:100-111 | One insertion panics exactly when its pattern clashes with one already there. |
| `Routes.OrderDoesNotMatter` | engine/src/core/routes.rs:85-130 | With distinct pattern and method pairs, the trie is the same for any order of the same registrations. |
| `Routes.FoundBinds` | engine/src/core/routes.rs:77-80 | With distinct names in every pattern, a found route binds each name of its pattern to its own segment. |
| `Routes.BindingsAreExplained` | engine/src/core/routes.rs:77-80 | Every binding comes from a registered pattern followed that far, so extra ones are from abandoned branches. |
| `Routes.UnmentionedStays` | engine/src/core/routes.rs:56-83 | A search leaves alone the names that no pattern mentions. |
| `Routes.BindsIffNamesDistinct` | engine/src/core/routes.rs:77-80 | Every search binds the names of the pattern it finds to their own segments exactly when no registered pattern uses a name twice. |
| `Routes.FilledIsBest` | engine/src/core/routes.rs:71-82 | Every registered pattern is the best one for some path. |
| `Routes.RepeatedNameIsOverwritten` | engine/src/core/routes.rs:77-80 | An example: an abandoned branch overwrites a parameter of the pattern found. |
| `Routes.PathRoundTrip` | engine/src/core/routes.rs:34-53 | A path written from its segments is taken apart into them. |
| `Routes.SegmentsOfPath` | engine/src/core/routes.rs:34-54 | Whatever its pieces between slashes: a registered path loses the empty ones, a looked-up one the dot segments too, wherever they stand. |
| `Routes.PathIsJoined` | engine/src/core/routes.rs:34-54 | Every path is made of such pieces. |
| `Routes.DotPatternUnreachable` | engine/src/core/routes.rs:35-38 | A pattern registered with a dot segment is never found. |
| `Routes.ReachableIffDotFree` | engine/src/core/routes.rs:34-53 | Some path leads to a pattern exactly when it has no dot segment. |
| `RouteTree.RouteNode.Add` | engine/src/core/routes.rs:85-130 | The in-place recursive insertion turns the trie into `Insert` of it, or panics exactly when that does; the nodes stay a tree. |
| `RouteTree.RouteNode.AddStatic` | engine/src/core/routes.rs:122-129 | The static branch, with `or_default`. |
| `RouteTree.RouteNode.AddDynamic` | engine/src/core/routes.rs:100-121 | The dynamic branch, with its conflict check. |
| `RouteTree.RouteNode.Search` | engine/src/core/routes.rs:56-83 | The search over nodes computes `Match`, node and parameters. |
| `RouteTree.RouteNode.Lookup` | engine/src/core/routes.rs:34-49 | `find` computes `Find`. |
| `RouteTree.RouteNode.Register` | engine/src/core/routes.rs:51-54 | `insert_route` splits the path and inserts. |
| `RateLimiter.InMemoryRateLimiter.Check` | engine/src/core/rate_limiter.rs:48-76 | One check, with saturating time, wrapping counter, early return on reset and the sweep above 10,000 entries, computes `Step`. |
| `RateLimiter.SweepIsUnobservable` | engine/src/core/rate_limiter.rs:70-72 | For a fixed window, limits of at least one and non-decreasing times, every call gets the answer of a limiter that never evicts. |
| `RateLimiter.SweptEntryShowsIff` | engine/src/core/rate_limiter.rs:62-72 | Whether an expired entry was swept shows exactly at the limit zero. |
| `RateLimiter.IntervalBound` | engine/src/core/rate_limiter.rs:56-74 | No closed interval admits more calls on a key than `Most`, sweeps included, unless the counter overflows. |
| `RateLimiter.MostOfWindows` | engine/src/core/rate_limiter.rs:56-74 | For `k` windows `Most` is at most `(k + 1) * max - 1`, and is just that while `k` is at most the window in ticks. |
| `RateLimiter.BoundIsReached` | engine/src/core/rate_limiter.rs:56-74 | In every interval that starts at least a window after time zero, some trace attains `Most` with the sweeping limiter: windows are fixed from the first call and do not slide. |
| `RateLimiter.FewCallsDoNotOverflow` | engine/src/core/rate_limiter.rs:67-67 | Fewer than 2^32 calls cannot overflow a counter. |
| `RateLimiter.RunIsSwept` | engine/src/core/rate_limiter.rs:56-74 | The sweeping store misses only entries that have expired. |
| `RateLimiter.StoreIsBounded` | engine/src/core/rate_limiter.rs:56-76 | A check that resets nothing leaves at most 10000 entries or no expired one, and drops nothing below that. |
| `RateLimiter.ResetReplaces` | engine/src/core/rate_limiter.rs:62-65 | A check that resets replaces that entry only, and is let through. |
| `App.Rpress.InitializeRoutes` | engine/src/lib.rs:289-339 | The nested loops fill the trie with the table of all groups in order (what that holds is `InTableIff`), or panic exactly when the table has a clash, and compute the largest limit. |
| `App.Rpress.AddGroup` | engine/src/lib.rs:301-334 | One group's routes are added in order; those without a known method are skipped. |
| `App.InTableIff` | engine/src/lib.rs:293-333 | A registration is in the table exactly if some group's route spells ":", the method in letters of any case, and the path, with that route's handler and that group's limit. |
| `App.LastRegistrationCounts` | engine/src/lib.rs:293-333 | For a pattern and a method the table gives the handler of the route that registered it last, under its group's limit. |
| `App.MaxSeenIsLargest` | engine/src/lib.rs:290-299 | The parser's limit is the largest of the global one and the groups'. |
| `BodyLimit.ParserCoversLimits` | engine/src/lib.rs:289-339 | Every limit stored anywhere in the trie, and the global one, is at most the parser's. |
| `BodyLimit.FindWithin` | engine/src/core/routes.rs:41-45 | So is every limit a lookup returns. |
| `BodyLimit.OversizeRefused` | engine/src/core/request.rs:99-101 | A head announcing more than the parser's limit is refused as soon as it is complete. |
| `BodyLimit.BatchArrives` | engine/src/lib.rs:876-960 | A read after which the buffer holds any batch of whole requests: they are handed out in order up to the first one too long for the parser, whose refusal goes out first. |
| `BodyLimit.EventsOfBatch` | engine/src/lib.rs:876-960 | Each of these requests has its own event at a known place, and there are no others. |
| `BodyLimit.AnswerKeepsLimit` | engine/src/lib.rs:645-662 | A request for a pattern and method is answered by the route that registered them last: its handler with the segments under the pattern's names, if the length keeps that route's group's limit, else the global one; and 413 otherwise. |
| `BodyLimit.BodyLimitCoherence` | engine/src/lib.rs:645-662 | So is each request of such a batch that gets to a route, up to and including the first too long for the parser: parser and route never disagree. |
| `BodyLimit.AnswersWithoutHandler` | engine/src/lib.rs:630-714 | 204 exactly for a preflight, 404 exactly if no registered pattern matches, 405 exactly if the best one has no such method, and no other status but 413. |
| `BodyLimit.AnswersToRefused` | engine/src/lib.rs:798-911 | 413 for an overflow and for what is too long, 400 for any other error. |
| `BodyLimit.HeadHandlersAreDead` | engine/src/lib.rs:645-649 | Only handlers registered for the looked-up method are entered, never one for HEAD. |

## Left out

- Acks.PendingIds: says nothing once the 64-bit counter has wrapped; from then on an entry could be overwritten.
- Head.ReadLinesMeaning: letters are lowered in ASCII only.
- RateLimiter.IntervalBound: time in whole ticks of the clock, one limit per key, times that do not decrease, and no counter overflow.
- Sockets.MirrorAfterJoin: the mirror holds between calls run to completion; two concurrent joins and leaves of one socket and room can leave set and adapter apart, and so can a session removed during authentication.
- Connection.H1Connection.OnRead: the WebSocket session behind an upgrade; time-outs, shutdown and the end of input end a connection without further effect.
- Chunked.ParseChunkedBody: lengths stay below the machine's limit, so the overflow checks never fire; only ASCII blanks are trimmed around a size.
- ChunkedReads.ChunkedWholeIff: one chunked request on a fresh connection, its body free of the chunk marker's own text; pipelined and chunked requests mixed are covered for one read only (`ChunkedFraming.ChunkedThenRest`).
- BodyStream.StreamedBodyIsExact: the handler takes all it is sent; one that stops reading early leaves the rest of the body unread.
- BodyLimit.BodyLimitCoherence: requests that are neither streamed nor CORS preflights, and of a batch none behind the first that is too long, which is dropped; middlewares are part of the opaque handler.
- BodyLimit.BatchArrives: the last read brings in the rest of the request; body bytes that follow an early refusal in later reads are parsed as a new request line.
- SocketIo.SioRoundTrip: positions are characters; the source mixes them with byte offsets, which differ in a non-ASCII namespace. Data is absent or prints as an array or object.
- PollSession.NoLostWakeup: one live session, and a buffer lock that is handed on in order; removing it, and what a reader does with client packets, is outside.
- Percent-decoding and query strings of request targets: a parameter, since sequential replacement has no clean inverse.
- Lossy UTF-8 decoding in heads and chunk sizes: bytes are kept; every search and comparison is with ASCII patterns.
- Sessions' WebSocket framing, TLS, HTTP/2, the Redis client, static files, CORS, cookies, compression and response building.
- Task scheduling below the step level, and progress of any task: only what holds in every reachable state is claimed.
