# Chat relay service: a Dafny model

This project models the real-time chat relay of an Express/TypeScript
service, `WebSocketService`. The service accepts long-lived WebSocket
connections and gives each a fresh UUID. It keeps a registry of connected
clients with a liveness flag per client. It validates every inbound JSON
frame against the message schema and relays a valid `message` to one
recipient or to all other clients. It answers `ping` with `pong`. A
heartbeat every 30 seconds probes each client and evicts those that did not
answer the previous probe.

The model has three layers:

- `Protocol` (`protocol.dfy`) covers the wire format. It has a JSON value
  type, the `Message` record and `WellFormed`, the rules of `MessageSchema`
  (a `to` field must be a UUID in the textual form of section 3 of RFC 4122,
  and the timestamp must be a positive integer). `ParseMessage` is the
  schema check applied to a parsed frame. `Encode` is the serialisation of
  an outbound message.
- `Registry`, `Router` and `Lifecycle` give the service's state as a value,
  `Hub`, and each event handler as a pure transition on it. The state has
  four parts:
  - the registry, id to `isAlive`, with its ids in insertion order as a
    JavaScript `Map` keeps them;
  - for every accepted socket, whether it is in the OPEN state;
  - the outbox, a log of everything put on the wire: message deliveries,
    liveness probes (WebSocket ping control frames, section 5.5.2 of
    RFC 6455) and forced terminations;
  - nothing else: the lemmas state the dispatch policy, the heartbeat and
    the registry's bookkeeping over these parts.
- `Service` (`service.dfy`) is the class `WebSocketService` itself. It keeps
  the same four parts as fields that its handler methods update in place.
  `Broadcast` and `Heartbeat` are loops, as in the source. Each event
  handler (`OnConnection`, `OnMessage`, `OnPong`, `OnClosing`, `OnClose`,
  `Heartbeat`) is proved to change the object's state exactly as the
  matching `Lifecycle` transition says. The helpers `SendMessage`,
  `HandleMessage` and `Broadcast` are proved to append exactly the events
  of `Router.Send`, `Router.Route` and `Router.BroadcastTo`.

Each handler runs to completion on Node's single event loop, so each is one
atomic transition. `Lifecycle.Run` applies any admissible sequence of
events. `Lifecycle.SilentClientEvicted` uses it to prove the two-heartbeat
timeout: a client that answers no probe between two heartbeats is gone
after the second, whatever else happens in between.

The environment enters only as parameters:

- `now` is the value of `Date.now()` for one handler run, a positive integer.
- The fresh id of a connection is a UUID never used before, where the
  source calls `uuidv4()`.
- A frame is `None` when `JSON.parse` throws and `Some(json)` otherwise.
- `OnClosing` / `Lifecycle.Closing` is the socket leaving the OPEN state
  before its 'close' event arrives: a closing handshake starts, or the
  transport fails. This is what the source's `readyState` checks consult.

Where the code differs from what the design evidently intends, the model
follows the code:

- The error reply to a bad frame is addressed to the socket captured when
  the connection was accepted, not looked up in the registry. After a
  heartbeat eviction that socket has been terminated and is no longer open,
  so nothing is sent (`Lifecycle.EvictedGetsNoReply`). The model keeps
  socket state apart from the registry for this reason.
- A `to` naming the sender itself is delivered to the sender. The code does
  not exclude it.
- A heartbeat probes every entry, including one whose socket is no longer
  open. The transport sends no ping on such a socket, so no `Probe` event is
  logged for it.

## Model

| member | source | states |
|---|---|---|
| Protocol.KindTag | src/api/websocket/WebSocketService.ts:12 | the wire tag of each of the five message types is read back as that type |
| Protocol.KindOf | src/api/websocket/WebSocketService.ts:12 | a tag is accepted exactly when it is one of "message", "join", "leave", "ping", "pong" |
| Protocol.OptionalString | src/api/websocket/WebSocketService.ts:13-15 | an optional string field is absent, or present with exactly that string; anything else fails |
| Protocol.IsUuid | src/api/websocket/WebSocketService.ts:14 | decides the UUID text form the schema demands of `to`: 36 characters, dashes at positions 8, 13, 18 and 23, hexadecimal digits of either case elsewhere |
| Protocol.WellFormed | src/api/websocket/WebSocketService.ts:11-17 | decides the value rules of `MessageSchema` beyond the field types: `to`, when present, is a UUID and the timestamp is positive |
| Protocol.OptionalUuid | src/api/websocket/WebSocketService.ts:14 | a `to` field that is accepted is a UUID |
| Protocol.Timestamp | src/api/websocket/WebSocketService.ts:16 | an accepted timestamp is a positive integer equal to the JSON number given |
| Protocol.ParseMessage | src/api/websocket/WebSocketService.ts:11-17 | every message the schema accepts is well formed and came from a JSON object |
| Protocol.Encode | src/api/websocket/WebSocketService.ts:137 | a serialised message is a JSON object with only the schema's keys |
| Protocol.ParseEncode | src/api/websocket/WebSocketService.ts:11-17 | every well-formed message survives serialisation and validation unchanged |
| Protocol.ParseKeepsSchemaKeys | src/api/websocket/WebSocketService.ts:11-17 | validation keeps exactly the schema's keys of the input object and drops the rest |
| Protocol.ParseIgnoresUnknownKeys | src/api/websocket/WebSocketService.ts:11-17 | keys outside the schema never change the outcome of validation: an object is accepted, as the same message, exactly when its schema keys alone are |
| Protocol.ParseAccepts | src/api/websocket/WebSocketService.ts:11-17 | an input is accepted as `m` if and only if `m` is well formed and the input is an object whose schema keys serialise `m`, whatever its other keys |
| Registry.Without | src/api/websocket/WebSocketService.ts:74 | deleting a client removes exactly that id from the ordered ids and keeps them distinct |
| Registry.WithoutAbsent | src/api/websocket/WebSocketService.ts:74 | deleting an id that is not registered changes nothing |
| Registry.Survivors | src/api/websocket/WebSocketService.ts:85-91 | the ids a heartbeat keeps are exactly those flagged alive, in order, without repetition |
| Registry.Purge | src/api/websocket/WebSocketService.ts:87 | removing a set of ids keeps exactly the ids outside it |
| Registry.PurgeMore | src/api/websocket/WebSocketService.ts:87 | evicting one more entry is deleting it from what is left |
| Registry.PurgeDead | src/api/websocket/WebSocketService.ts:85-91 | evicting exactly the silent entries leaves the survivors |
| Registry.CountMatchesIds | src/api/websocket/WebSocketService.ts:149-155 | the client count equals the number of listed ids |
| Registry.ServerIsNotAClient | src/api/websocket/WebSocketService.ts:33-46 | no client id is "server", the name on the server's own messages |
| Router.JoinAck | src/api/websocket/WebSocketService.ts:44-49 | the connect acknowledgement is a valid `join` from "server" |
| Router.InvalidFormat | src/api/websocket/WebSocketService.ts:58-63 | the error reply is a valid `message` from "server" |
| Router.PongReply | src/api/websocket/WebSocketService.ts:123-127 | the answer to `ping` is a valid `pong` from "server" |
| Router.Relayed | src/api/websocket/WebSocketService.ts:107-118 | a relayed message keeps type, `to` and content, and carries the sender's id and the current time |
| Router.Send | src/api/websocket/WebSocketService.ts:135-139 | a message is written to exactly that socket, and only if it is open |
| Router.BroadcastTo | src/api/websocket/WebSocketService.ts:141-147 | a broadcast delivers the message to exactly the listed ids other than the sender whose socket is open |
| Router.BroadcastMembers | src/api/websocket/WebSocketService.ts:141-147 | an event is in a broadcast exactly when it delivers the message to a listed id other than the sender whose socket is open |
| Router.BroadcastOnce | src/api/websocket/WebSocketService.ts:141-147 | a broadcast reaches each recipient once |
| Router.Route | src/api/websocket/WebSocketService.ts:98-133 | every delivery goes to a registered client with an open socket and is a valid message; an unregistered sender causes none |
| Router.RouteDirect | src/api/websocket/WebSocketService.ts:104-111 | a `message` to a registered id is delivered, as the relayed message stamped with the sender and the time, to that client alone, exactly when its socket is open |
| Router.RouteBroadcast | src/api/websocket/WebSocketService.ts:112-118 | a `message` with no registered `to` reaches exactly the other registered clients with an open socket, once each, never the sender |
| Router.RoutePing | src/api/websocket/WebSocketService.ts:122-128 | a `ping` yields exactly one `pong` from "server", to the sender alone |
| Router.RouteIgnores | src/api/websocket/WebSocketService.ts:130-131 | `join`, `leave` and `pong` from a client send nothing |
| Router.FrameReplies | src/api/websocket/WebSocketService.ts:51-65 | the replies to any frame are valid messages to open sockets |
| Router.RejectedFrame | src/api/websocket/WebSocketService.ts:52-63 | a frame that is not JSON or fails the schema gets exactly one error reply, to its sender only |
| Router.UnregisteredSenderIgnored | src/api/websocket/WebSocketService.ts:99-100 | a valid message from an id no longer registered sends nothing |
| Lifecycle.Connected | src/api/websocket/WebSocketService.ts:32-49 | accepting a connection keeps the registry invariant |
| Lifecycle.ConnectAddsOne | src/api/websocket/WebSocketService.ts:33-49 | connecting adds one entry, alive, at the end of the connection order, opens its socket, raises the count by one and sends exactly one `join` to the new client |
| Lifecycle.Closed | src/api/websocket/WebSocketService.ts:73-76 | closing keeps the registry invariant |
| Lifecycle.CloseRemoves | src/api/websocket/WebSocketService.ts:73-76 | closing removes the id from the registry and the connection order, closes its socket, leaves every other entry as it was, lowers the count by one if the id was there, sends nothing |
| Lifecycle.CloseAbsentIsNoOp | src/api/websocket/WebSocketService.ts:73-87 | closing an id already evicted leaves the registry unchanged |
| Lifecycle.CloseIdempotent | src/api/websocket/WebSocketService.ts:73-76 | closing twice is closing once |
| Lifecycle.Revived | src/api/websocket/WebSocketService.ts:67-71 | a transport pong keeps the registry invariant |
| Lifecycle.PongSetsAlive | src/api/websocket/WebSocketService.ts:67-71 | a pong sets its own entry's flag if the entry is still registered; the ids, the other flags, the sockets and the outbox are unchanged |
| Lifecycle.Closing | src/api/websocket/WebSocketService.ts:136 | a socket leaving the OPEN state is no longer open, every other socket keeps its state, and the registry and the outbox are unchanged (nothing is sent) |
| Lifecycle.FrameHandled | src/api/websocket/WebSocketService.ts:51-65 | a frame never changes the registry or the sockets; it only appends deliveries to open sockets |
| Lifecycle.SweepEvent | src/api/websocket/WebSocketService.ts:86-92 | decides what the heartbeat puts on the wire for one entry: a terminate if it is silent, a probe if it answered and its socket is open, nothing otherwise |
| Lifecycle.SweepEventChoice | src/api/websocket/WebSocketService.ts:86-92 | one entry gets at most one event: a terminate exactly when silent, a probe exactly when it answered and its socket is open |
| Lifecycle.SweepEvents | src/api/websocket/WebSocketService.ts:81-94 | decides the heartbeat's events over a list of entries: each entry's event, in list order |
| Lifecycle.SweepOne | src/api/websocket/WebSocketService.ts:85-93 | handling one entry keeps the invariant, keeps the set of accepted sockets and only appends to the log |
| Lifecycle.SweepOver | src/api/websocket/WebSocketService.ts:81-94 | a pass over part of the snapshot keeps the invariant and only appends to the log |
| Lifecycle.Swept | src/api/websocket/WebSocketService.ts:80-95 | the heartbeat keeps the registry invariant |
| Lifecycle.SweepEventsMembers | src/api/websocket/WebSocketService.ts:85-93 | a heartbeat terminates exactly the silent entries, probes exactly the alive ones with an open socket, delivers nothing |
| Lifecycle.SnapshotInit | src/api/websocket/WebSocketService.ts:81-82 | a prefix of a registry snapshot is a snapshot without the last id |
| Lifecycle.SweepOverAlive | src/api/websocket/WebSocketService.ts:86-91 | after a pass, entries outside it are unchanged and those in it are kept only if alive, with the flag cleared |
| Lifecycle.SweepOverOpen | src/api/websocket/WebSocketService.ts:86-88 | after a pass, exactly the evicted entries' sockets have left the OPEN state |
| Lifecycle.SweepOverIds | src/api/websocket/WebSocketService.ts:87 | after a pass, the registry order is the old one without the evicted ids |
| Lifecycle.SweepOverUntouched | src/api/websocket/WebSocketService.ts:81-94 | an entry the pass has not reached yet is unchanged |
| Lifecycle.SweepOverLog | src/api/websocket/WebSocketService.ts:86-92 | a pass logs one terminate or probe per entry, in snapshot order |
| Lifecycle.SweepOneLog | src/api/websocket/WebSocketService.ts:86-92 | the heartbeat's step for one registered entry logs exactly that entry's terminate or probe |
| Lifecycle.SweepEvicts | src/api/websocket/WebSocketService.ts:80-95 | every entry silent before the heartbeat is removed and its socket closed; every other stays in place, flagged not alive |
| Lifecycle.SweepEventsOf | src/api/websocket/WebSocketService.ts:86-92 | the heartbeat terminates exactly the silent entries and probes exactly the other open ones |
| Lifecycle.EvictedGetsNoReply | src/api/websocket/WebSocketService.ts:51-65 | a client the heartbeat evicted gets nothing in reply to any later frame, not even the error reply, since its socket is no longer open |
| Lifecycle.TwoSweepsEmpty | src/api/websocket/WebSocketService.ts:80-95 | two heartbeats with no pong between them empty the registry |
| Lifecycle.Step | src/api/websocket/WebSocketService.ts:32-95 | every handler keeps the registry invariant and forgets no accepted socket |
| Lifecycle.Run | src/api/websocket/WebSocketService.ts:32-95 | any admissible sequence of events keeps the registry invariant |
| Lifecycle.StepSendsOnlyOnOpen | src/api/websocket/WebSocketService.ts:135-139 | whatever the event, the outbox only grows and every message or probe it adds goes to a socket that is open: nothing is sent on a socket that is not open |
| Lifecycle.StepKeepsQuiet | src/api/websocket/WebSocketService.ts:67-91 | only a pong from a client can set its liveness flag again |
| Lifecycle.RunKeepsQuiet | src/api/websocket/WebSocketService.ts:67-91 | without a pong from it, a client flagged not alive stays so or is gone |
| Lifecycle.SilentClientEvicted | src/api/websocket/WebSocketService.ts:80-95 | a client that answers no probe between two heartbeats is gone after the second |
| Lifecycle.StepKeepsAnswered | src/api/websocket/WebSocketService.ts:67-76 | an event other than a heartbeat or the client's own close keeps a registered client registered and flagged alive |
| Lifecycle.RunKeepsAnswered | src/api/websocket/WebSocketService.ts:67-76 | a sequence of events with no heartbeat and no close of the client keeps it registered and flagged alive |
| Lifecycle.AnsweringClientStays | src/api/websocket/WebSocketService.ts:67-91 | a registered client whose pong arrives survives the next heartbeat, whatever events other than its own close come between the pong and the heartbeat |
| Service.WebSocketService.constructor | src/api/websocket/WebSocketService.ts:22-29 | a new service has no clients, no sockets and has sent nothing |
| Service.WebSocketService.SendMessage | src/api/websocket/WebSocketService.ts:135-139 | a message is appended to the log only if the socket is open |
| Service.WebSocketService.OnConnection | src/api/websocket/WebSocketService.ts:32-49 | the connect handler moves the state as `Lifecycle.Connected` |
| Service.WebSocketService.OnMessage | src/api/websocket/WebSocketService.ts:51-65 | the message handler moves the state as `Lifecycle.FrameHandled` |
| Service.WebSocketService.HandleMessage | src/api/websocket/WebSocketService.ts:98-133 | dispatch appends exactly `Router.Route`'s deliveries |
| Service.WebSocketService.Broadcast | src/api/websocket/WebSocketService.ts:141-147 | the broadcast loop appends exactly `Router.BroadcastTo`'s deliveries, in registry order |
| Service.WebSocketService.OnPong | src/api/websocket/WebSocketService.ts:67-71 | the pong handler moves the state as `Lifecycle.Revived` |
| Service.WebSocketService.OnClosing | src/api/websocket/WebSocketService.ts:143 | a socket leaving the OPEN state moves the state as `Lifecycle.Closing` |
| Service.WebSocketService.OnClose | src/api/websocket/WebSocketService.ts:73-76 | the close handler moves the state as `Lifecycle.Closed` |
| Service.WebSocketService.Heartbeat | src/api/websocket/WebSocketService.ts:80-95 | the heartbeat loop over a snapshot moves the state as `Lifecycle.Swept` |
| Service.WebSocketService.SweepEntry | src/api/websocket/WebSocketService.ts:85-93 | the heartbeat's callback for one entry moves the state as `Lifecycle.SweepOne` |
| Service.WebSocketService.GetConnectedClients | src/api/websocket/WebSocketService.ts:149-151 | lists exactly the registered ids, in connection order, as many as there are clients |
| Service.WebSocketService.GetClientCount | src/api/websocket/WebSocketService.ts:153-155 | the count is the registry's size and the length of the id list |

## Left out

- Transport: the `ws` sockets, their handshake and the bytes on the wire are not modelled. A socket is an OPEN flag. A send, a ping and a terminate are entries in the outbox.
- `JSON.parse` and `JSON.stringify` are not modelled as text. A frame arrives already parsed, or as `None` when parsing throws. An outbound message is kept as a `Message`, and `Encode` gives the JSON object it becomes.
- Floating point: JSON numbers are exact reals. A huge literal that overflows to `Infinity`, and the rounding that can make a fractional literal an integer double, are not represented.
- Protocol.IsUuid: checks only the 8-4-4-4-12 hexadecimal form, either case. Some versions of the schema library also check the version and variant digits; that check is not modelled.
- Timers and the clock: the 30-second interval is not modelled. `Tick` and `Heartbeat` are one timer firing. `Date.now()` is the `now` parameter, read once per handler run.
- `uuidv4()` is not modelled. A new connection's id is a parameter that must be a UUID not used before.
- Heartbeat lookup: the source walks the server's socket set and looks each socket up in the registry. The model walks a snapshot of the registry's ids in insertion order, which is the same entries in the same order. A server socket with no registry entry is skipped by the source and does not exist in the model.
- A registered client is assumed to be in the OPEN state when accepted: the 'connection' event is only emitted for an open socket.
- Exceptions thrown by `handleMessage` inside the frame handler are not modelled. Sending on an open socket and serialising these plain records do not throw, so the error reply only follows a parse or schema failure.
- Console logging is left out; it has no effect on the state.
- The HTTP status endpoints and their controller only read `getConnectedClients` and `getClientCount`, which are modelled. The JSON shaping of their responses is not.
- Concurrency: each handler is one atomic transition. Interleavings inside a handler cannot happen on Node's event loop and are not modelled.
