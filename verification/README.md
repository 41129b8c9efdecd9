# A verified model of the wolfsocket protocol

wolfsocket is a messaging protocol on top of WebSocket: two peers, a client and a server, connect to named
namespaces, ask each other questions by wait token, form parties and join chat rooms, and a server keeps the
subscriptions of its connections in an exchange. This project models the parts of it whose correctness spans
several functions or a whole run, and proves what they keep.

`dafny verify dfyconfig.toml` checks everything (Dafny 4.11).

## Structure

| module | what it models |
|---|---|
| `Text` | Go's byte strings: leftmost replacement, `SplitN`, `Split`, `Join`, decimal numbers |
| `Escaping` | the escaping of the three text fields of a message |
| `Codec` | messages, wait tokens, the encoder, the decoder, the empty-reply shortcut, native mode |
| `Protocol` | what one connection answers to one message, as functions of its connected namespaces |
| `Network` | two peers, two FIFO links and every interleaving of their steps; ask correlation |
| `Delivery` | what gets through between the two peers: asks, their answers, emits |
| `Agreement` | both sides hold the same namespaces |
| `PartyState` | parties and chat rooms against the exchange's record, as a state machine |
| `PartyFrames` | what the party operations write, and what the requester reads |
| `PartyReplies` | what the client reads and is told, by event name, for every party event |
| `Party` | the objects behind both, changed in place |
| `Connection` | the connection object: answering, asking, closing |
| `Handshake` | the reader loop before and after the acknowledgement |
| `Hub` | the server's event loop |
| `NatsExchange` | the NATS exchange's event loop and its gauges |
| `WaiterOnce` | the readiness latch, one atomic step at a time |
| `Handlers` | joining connection handlers |

Code that computes is modelled by functions. Code that changes state is modelled by classes and loops, each proved
against a function of the old state (`Protocol`, `Network`, `PartyState`, `PartyFrames`, `Hub.Step`,
`NatsExchange.Step`, `Handshake.Handled`), and the theorems about all runs are stated for those functions.

What comes from outside is a parameter or an arbitrary step: clock readings, the outcomes of user handlers (accept,
an error, or a `Reply`), the outcome of waiting for readiness and of writing the acknowledgement, the broker's
answers, the order in which Go iterates over a map, and the order in which goroutines move. A Go string is a
sequence of bytes; a byte is a `char`, and every lemma holds for all characters.

## Findings

Where a property fails, the code is modelled as it is, and the exact condition is proved.

- The escaping is undone exactly on texts that contain neither `@%!semicolon@%!` nor `@%!semicolon;`
  (`Escaping.UnescapeEscape`).
- A namespace request can draw three replies. The reader is blocked for good exactly when a surplus reply meets the
  full reply channel of an ask that is no longer waiting, or when an ask is given up while the reader is blocked on
  its full channel (`Network.WedgesExactly`, `Network.WedgedForever`). An ordinary connect can do it
  (`Network.ConnectCanWedge`).
- A connect or disconnect handler that answers with a `Reply` refuses the request, and the requester reads a success
  (`Protocol.ReplyConsistency`).
- Giving up a namespace ask settles nothing. Until a later ask about the namespace returns, the two sides differ on it
  exactly when the responder has granted the request or a repetition of it, also after the give-up
  (`Agreement.GivingUp`, `Agreement.GrantedAfterGivingUp`). Once the last ask about it has returned they agree
  (`Agreement.AgreeOnceReturned`).
- A join request that fails reads as a success exactly when a handler refuses with a `Reply` or when the join handler
  accepts without installing a party (`PartyFrames.JoinVerdict`).
- A forced join writes a leave event. From a client running this code it comes back as a leave request exactly when
  the client holds the namespace, and takes the server out of the new party exactly when its leave handler does not
  refuse (`PartyFrames.ForcedLeaveComesBack`, `PartyFrames.ReturnedLeaveUndoesJoin`).
- A chat room joined under an id that another joined room has takes that room's subscription away when it is left
  (`PartyState.LeaveRoomConsistent`, `PartyState.SharedRoomIdBreaks`). A party with an empty id gets a chat room
  under another id (`PartyState.ChatOfPartyExactly`).
- Without a refusing leave handler, closing a connection leaves nothing recorded if and only if every recorded channel
  is accounted for by a connected namespace; otherwise it leaves exactly the others (`Connection.Conn.Close`). Handling
  messages adds none unless a leave handler refuses. A connect that returns stores its object over one that is there,
  and what only that one accounted for is accounted for no more, unless the new one does
  (`Connection.Conn.FinishConnect`, `Connection.CrossingConnects`). The same goes for what a connect handler did with the
  new object before it refused (`Connection.RefusedConnect`). A connect that returns after the connection was closed
  leaves its namespace behind.
- A connection refused during `OnConnect` is not reported to the exchange when the server has an `OnDisconnect`
  callback that is skipped: the same `continue` skips both (`Hub.ExchangeMissesSkipped`,
  `Hub.DisconnectCalledExactly`).
- A topic's gauge exceeds the recorded subscriptions by exactly what leaked: repeated subscriptions, subscriptions
  that fail after the flush, and subscribers dropped with their record (`NatsExchange.GaugeConserved`). It never
  falls below them exactly when the subject prefix has no dot (`NatsExchange.GaugeCoversExactly`).
- The readiness latch can lose its wake-up, exactly when the waiter takes the lock after ready was set since its
  check and every caller past its own check has finished (`WaiterOnce.StuckExactly`, `WaiterOnce.LostWakeup`).
- A first control frame that acknowledges an id discards the frames held before it
  (`Handshake.ConservedExactlyWhenReady`).

Comments in the code that the code does not follow: the comment in conn.go:735 speaks of a namespace channel, while
the connection's own id is subscribed, and any namespace disconnect unsubscribes it again (conn.go:740-744); the
error that `tryNamespace` writes for an unconnected namespace does not pass `canWrite`, so such a message draws no
answer (conn.go:613-627, conn.go:884-896); the comment in conn_handler.go:314 speaks of filling missing events, while
existing ones are overwritten. The model follows the code.

## Model

| member | source | states |
|---|---|---|
| `Text.SplitNCount` | message.go:430-481 | the number of pieces of a bounded split is the number of separators plus one, capped at the bound |
| `Text.SplitNJoin` | message.go:430-481 | splitting the join of n fields into n pieces gives the fields back, whatever the last one holds |
| `Text.FormatRoundTrip` | message.go:231-240 | parsing a formatted number gives the number, so formatting is injective |
| `Escaping.EscapeHasNoSeparator` | message.go:261-276 | an escaped text holds no separator |
| `Escaping.ReplacementAtStart` | message.go:261-284 | an escaped text that begins with an ordinary byte begins with the replacement exactly when the text begins with one of the two bad patterns |
| `Escaping.UnescapeEscape` | message.go:261-284 | unescaping undoes escaping if and only if the text contains neither bad pattern; on all other texts the result holds a separator |
| `Codec.GenWait` | message.go:231-240 | a generated token is non-empty, separator-free, no server id, unmarked, and has the client prefix exactly on a client |
| `Codec.GenWaitInjective` | message.go:231-240 | two tokens are equal if and only if the same role generated them from the same clock reading |
| `Codec.GenWaitReadsBack` | message.go:231-240 | the clock reading is read back from a generated token, after the client prefix on a client |
| `Codec.ReplyTokens` | message.go:204-219 | a generated token is one to wait for exactly if a server generated it or the reader is a client; no token never is, and a confirmation always is |
| `Codec.DecodeSerialized` | message.go:286-388 | decoding an encoded message gives its token or explicit sender, flag, body and error text, and the three text fields through the escaping |
| `Codec.RoundTrip` | message.go:286-388 | an error-free message survives field for field if and only if its namespace, room and event are escape-safe, and is never invalid |
| `Codec.WireFormat` | message.go:286-347 | the encoding byte for byte: seven fields in order, separated by `;`, the error and no-op flags as digits, the body, the `Reply` body or the decimal error code last |
| `Codec.MarkedToken` | message.go:352-388 | a token with the exchange mark is decoded without it, and the message as coming from the exchange |
| `Codec.SystemNameSurvives` | message.go:261-284 | a name without `;` and `@` is decoded from itself and from nothing else |
| `Codec.EmptyReplyRefinesEncoder` | message.go:304-347 | the empty-reply bytes decode to what the full encoding of an otherwise empty message decodes to, although the bytes differ |
| `Codec.DecodeEmptyReply` | message.go:483-485 | an empty reply decodes to the empty message under its token |
| `Codec.PayloadKinds` | message.go:430-481 | every payload is exactly one of invalid, raw native and structured, decided by its length, its separators and the mode |
| `Codec.NativeRecovery` | message.go:286-288 | a native body comes back unchanged as native if and only if it is non-empty and the connection is native-only or the body has fewer than six separators |
| `Codec.EncodedIsNoControl` | conn.go:289-294 | no encoded message with a generated token, a server id or no token, and no empty reply, starts with an acknowledgement byte |
| `Protocol.DispatchCauses` | conn.go:462-512 | everything sent while a message is handled is an empty reply to it, the message with another error, or what a party operation wrote |
| `Protocol.CausedDecodes` | conn.go:462-512 | such a frame decodes to a valid message under the token of its cause or none, and to a namespace or native event only if its cause is one |
| `Protocol.RefusedAnswer` | conn.go:694-728 | a refused namespace request changes nothing and draws one frame with the refusal |
| `Protocol.GrantedAnswer` | conn.go:809-853 | a granted request changes exactly its namespace and draws exactly as many empty replies as its handlers and the kind of request call for, around what a forced leave wrote, which is there exactly for a server that held the namespace |
| `Protocol.NamespaceVerdict` | conn.go:694-853 | each answer decodes under the request's token to a success exactly when the request was not refused or refused with a `Reply` |
| `Protocol.ReplyConsistency` | conn.go:694-853 | a namespace request with a token draws no frame with it if and only if it is a no-op, and otherwise a single refusal or exactly the counted number of successes; what is read is a success if and only if it was granted or refused with a `Reply` |
| `Protocol.CustomEventOutcome` | conn.go:495-509 | every custom event of a connected namespace, with or without a token: refused and not from the connection itself, exactly one frame that decodes under its token, or without one, to the `Reply` body or the decimal error code; accepted by a handler of its own under a token, exactly one empty reply; otherwise nothing |
| `Protocol.CustomAskOutcome` | conn.go:495-509 | an ask for a custom event draws exactly one frame if a handler is registered or the catch-all refuses, none otherwise; it decodes to an empty message, the `Reply` body, or the decimal error code |
| `Protocol.OtherEvents` | conn.go:462-500 | a room event, and any event of a namespace that is not connected, draws nothing and changes nothing; a party event of a connected one draws what its operation writes |
| `Protocol.DefaultCodeText` | wserror/error.go:29-57 | the text of an error without a code is -99 |
| `Network.HandleEffect` | conn.go:426-460 | handling a message either delivers it to the ask that waits for its token and sends nothing, or leaves all asks alone |
| `Network.StartSends` | conn.go:977-1021 | starting an ask puts exactly its request on the link, as the other side decodes it, if and only if it is a namespace request or the namespace is held, and otherwise nothing; the ask is then registered, and waiting exactly in the first case; nothing else changes |
| `Network.EmitSends` | conn.go:938-945 | an emit puts exactly the message on the link if it is a namespace event or the namespace is held, and otherwise nothing |
| `Network.NativeOutcome` | conn.go:427-434 | an invalid message draws nothing; a native one draws an empty reply exactly if it has a token and its handler is registered and accepts |
| `Network.StepKeeps` | conn.go:426-1037 | every step of a peer keeps the correlation invariant of both peers and both links |
| `Network.RunKeeps` | conn.go:426-1037 | the invariant holds in every state of every run of a client and a server |
| `Network.AskCorrelation` | conn.go:977-1037 | in every run and for every ask of either side, the reply it has taken or returned carries its token and was sent while the other side handled this very ask's request |
| `Network.RequestIsNeverAReply` | conn.go:436-460 | in every run, a message under the sender's own token is expected by no ask of the receiver and leaves its asks and reader alone |
| `Network.WedgesExactly` | conn.go:452-458 | in every state of every run and for every step, the reader is wedged afterwards if and only if it was before, a surplus reply meets a full channel, or an ask is given up while the reader is blocked on its full channel |
| `Network.ConnectCanWedge` | conn.go:694-738 | whenever the responder handles both connect events of a namespace, a run of an ordinary connect exists that wedges the asker's reader |
| `Network.WedgedForever` | conn.go:452-458 | a reader blocked so stays blocked in every continuation and takes no further message off its link |
| `Delivery.AskReachesLink` | conn.go:977-1021 | in every state of every run, a custom ask on a held namespace can start, puts exactly its request on the link and waits under a new token |
| `Delivery.RequestIsAnswered` | conn.go:495-512 | in every state of every run, handling a custom request for a held namespace and an event with a handler puts exactly one reply on the other link, under the request's token and with what the handler answered |
| `Delivery.EmitReachesLink` | conn.go:938-945 | an emit is always possible and arrives exactly if it may be written, changing nothing else |
| `Delivery.AnyAskCanBeGivenUp` | conn.go:1023-1028 | every waiting ask can be given up, which changes nothing else |
| `Delivery.CustomAskReturns` | conn.go:977-1037 | from every state of every run with empty links, an ask for a custom event that both sides can carry out can run to its end, returns what the handler answered, and is then out of the table |
| `Delivery.BlockedReaderGoesOn` | conn.go:452-458 | in every state of every run, a blocked reader that is not wedged goes on, and the message it was blocked on is then in the channel |
| `Agreement.RequestArrives` | conn.go:633-692 | a namespace request arrives with the name it was sent with if and only if the name is escape-safe |
| `Agreement.AllowedMoveKeeps` | conn.go:633-853 | every allowed move keeps the agreement invariant of both sides, each initiating its own namespaces; giving up, repeating a given-up ask and answering custom events in any way are allowed |
| `Agreement.RunAgrees` | conn.go:633-853 | the invariant holds in every state of every allowed run |
| `Agreement.RunLogs` | conn.go:694-853 | in every allowed run, a namespace request on its way has no answer yet, any other has answers that all say the same, and the responder is in the requested state if and only if it has granted a live ask about the namespace |
| `Agreement.NamespaceAgreement` | conn.go:633-853 | in every state of every allowed run and for every namespace, the sides differ on it if and only if the responder has granted an ask about it that is outstanding or given up and not overtaken by a later one |
| `Agreement.AgreeOnceReturned` | conn.go:633-853 | in every allowed run, once the last ask about a namespace has returned, however often it was repeated after a give-up, the sides agree on it |
| `Agreement.DifferOnlyWhileSettling` | conn.go:633-853 | in every allowed run, if exactly one side holds a namespace, the side initiating it has a live ask about it, a disconnect or a connect according to the side, with a success reply in flight or delivered |
| `Agreement.AgreeWhenSettled` | conn.go:633-853 | in every allowed run, when no namespace ask is outstanding, both sides hold the same namespaces if and only if no given-up ask that was not overtaken was granted |
| `Agreement.GivingUp` | conn.go:1023-1028 | from a give-up on, at every later point of an allowed run until a later ask about the namespace returns, the sides differ on it if and only if the responder has granted the request or a repetition by then; if it was not repeated, an answer given before decides for good |
| `Agreement.GrantedAfterGivingUp` | conn.go:1023-1028 | a given-up request at the head of the link that the responder does not refuse makes the sides differ in one move |
| `PartyState.LeaveRoomConsistent` | conn_room_chat.go:32-47 | leaving a room keeps the record in agreement if and only if no other joined room has its id |
| `PartyState.OpKeeps` | conn_party.go:22-257 | every allowed operation keeps the record in agreement; the chat room stays joined exactly while in a party if and only if the operation is not a vetoed forced leave |
| `PartyState.PartyAfter` | conn_party.go:22-257 | the party after every operation, from the party before and the handlers' answers |
| `PartyState.RoomAfter` | conn_room_chat.go:17-61 | the chat room on every other channel after every operation: only joining and leaving that room, and a forced leave, change it |
| `PartyState.SubscriptionsAgree` | conn_party.go:22-257 | over every run of allowed operations, the recorded party and chat channels are exactly those of the party and of the joined rooms, and, without a vetoed forced leave, the party chat room is joined exactly while in that party |
| `PartyState.FreshIsConsistent` | conn_namespace.go:46-54 | a fresh namespace connection, with only its own id recorded, satisfies the agreement |
| `PartyState.SharedRoomIdBreaks` | conn_room_chat.go:17-47 | a run in which a second room under the party's id takes the party chat's subscription away |
| `PartyState.ChatOfPartyExactly` | room_chat.go:32-41 | installing a party gives its chat room the party's id if and only if that id is not empty |
| `PartyState.OpCovers` | conn_party.go:22-257 | no operation, allowed or not, leaves a channel recorded that the local state stopped accounting for |
| `PartyState.ForceLeaveExact` | conn_party.go:22-29 | a forced leave lets go exactly the channels accounted for, but for a vetoed party's, and nothing else |
| `PartyFrames.LeaveFits` | conn_party.go:195-238 | a leave writes only party frames under the token of its own message or without one |
| `PartyFrames.ForcedLeaveFits` | conn_party.go:22-29 | a forced leave writes nothing under a token, whatever is being handled |
| `PartyFrames.AnswerFits` | conn_party.go:31-257 | whatever a party event leads to, only party frames are written, under its own token or without one |
| `PartyFrames.LeaveVerdict` | conn_party.go:195-238 | a leave request draws one or two replies, all successes or one error, and successes if and only if the party was left or the handler refused with a `Reply` |
| `PartyFrames.JoinVerdict` | conn_party.go:139-185 | a join succeeds if and only if its handler is reached, does not refuse and installs a party, and is then answered if and only if the handler is registered by name; one that fails is always answered, first with a success if and only if a handler refuses with a `Reply` or accepts without installing a party |
| `PartyFrames.ForcedJoinWrites` | conn_party.go:152-162 | a forced join whose leave is not refused writes a leave event without a token |
| `PartyFrames.ForcedLeaveComesBack` | conn_party.go:195-210 | through the client's dispatch, a frame comes back for that event if and only if the client holds the namespace it reads, and the server decodes it as a leave request |
| `PartyFrames.ReturnedLeaveUndoesJoin` | conn_party.go:195-227 | after a forced join installed a party, handling a leave request takes the server out of it if and only if its leave handler does not refuse |
| `PartyReplies.PartyAnswered` | conn_party.go:31-257 | for every party event, by its name, and every answer of the handlers, what the requester reads under its token, reply by reply, in order |
| `PartyReplies.NoticeContents` | conn_party.go:229-257 | the joined and left notices decode to their event, the party's info, no token and no error, and to the namespace exactly if its name is escape-safe |
| `PartyReplies.PartyAnnounced` | conn_party.go:31-257 | for every party event, by its name, the client is told once of the party entered if and only if one is entered, and once of the party left if and only if one is left |
| `PartyReplies.NoticeIsLast` | conn_party.go:31-257 | the notice of a create, join, leave or answered invitation is the last frame written |
| `Party.BaseParty.Create` | party.go:83-88 | the party takes the namespace connection and its channel is recorded |
| `Party.BaseParty.Join` | party.go:90-101 | the party takes the namespace connection, the members are told, and its channel is recorded |
| `Party.BaseParty.Leave` | party.go:103-115 | the party's channel is no longer recorded, the members are told who left, and its namespace connection is cleared |
| `Party.NSConn.JoinRoomChat` | conn_room_chat.go:17-30 | does what the state machine's room join does; succeeds exactly when the channel is free |
| `Party.NSConn.LeaveRoomChat` | conn_room_chat.go:32-47 | does what the state machine's room leave does; succeeds exactly when the channel is joined |
| `Party.NSConn.LeaveAllRoomChat` | conn_room_chat.go:49-61 | whatever the order, ends with no room and every room's channel released |
| `Party.NSConn.ReplyJoined` | conn_party.go:240-257 | joins the chat room of the current party on the party channel and writes the joined notice |
| `Party.NSConn.ReplyLeft` | conn_party.go:229-238 | leaves the party chat room and writes the left notice |
| `Party.NSConn.AskPartyCreate` | conn_party.go:31-64 | does what the state machine's create does, with the same success, installs the handler's party, tells its members exactly if the handler joined it, and writes and returns what the frame function says |
| `Party.NSConn.AskPartyLeave` | conn_party.go:195-238 | does what the state machine's leave does, with the same success and the frames of the frame function; the party object is cleared and its members told exactly then |
| `Party.NSConn.JoinFresh` | conn_party.go:164-184 | installs the handler's party as the state machine does, joins it and tells its members once, and writes the frames of the frame function |
| `Party.NSConn.JoinForced` | conn_party.go:152-184 | leaves the current party and joins as the state machine does; the members of the one are told of the leave, then those of the other of the join, or nobody if the leave is vetoed |
| `Party.NSConn.AskPartyJoin` | conn_party.go:139-185 | does what the state machine's join does, leaving first only if forced, with the party afterwards, the broadcasts in order and the frames of the frame function |
| `Party.NSConn.AskPartyInvite` | conn_party.go:66-98 | does what the state machine's invite does, creating a party first if there is none and it should, with the party afterwards, the broadcasts and the frames of the frame function |
| `Party.NSConn.AcceptInvitation` | conn_party.go:109-136 | leaves the current party and joins as the state machine does, with the party afterwards, the broadcasts in order and the frames of the frame function |
| `Party.NSConn.ReplyPartyInvitation` | conn_party.go:100-137 | does what the state machine's answered invitation does, with the party afterwards, the broadcasts in order and the frames of the frame function |
| `Party.NSConn.HandleParty` | conn.go:475-494 | runs the operation a party event calls for as the state machine does, with the party afterwards, the broadcasts in order and the frames of the frame function |
| `Party.NSConn.ForceLeaveAll` | conn_party.go:22-29 | does what the state machine's forced leave does, with the frames of the frame function |
| `Party.NSConn.ForceRelease` | conn_party.go:22-29 | a forced leave lets go exactly what this namespace accounts for, but for a vetoed party's channel |
| `Connection.Conn.ReplyConnect` | conn.go:694-738 | leaves the namespaces and writes the frames the protocol function says, with the new object in whatever state the handler left it; stores it or drops it, and adds nothing unaccounted for |
| `Connection.Conn.Attach` | conn.go:679-690 | stores an object for a namespace, over one that is there, and records the own id; unaccounted for is then exactly what was or what only the old object accounted for, less what the new one does |
| `Connection.Conn.ReplyDisconnect` | conn.go:809-853 | leaves the namespaces and writes the frames the protocol function says, keeps the remaining objects and, on a server whose leave handler does not refuse, adds nothing unaccounted for |
| `Connection.Conn.ForceOut` | conn_party.go:22-29 | forces one namespace object out, leaving the other objects as they are and letting go exactly its channels |
| `Connection.Conn.Detach` | conn.go:790-805 | forces out the object at hand and removes the namespace; recorded stays exactly what that object does not let go, less the own id |
| `Connection.Conn.OperationParty` | conn.go:475-494 | the operation an event's name leads to installs and leaves the party that the event, by its name, calls for |
| `Connection.Conn.HandleParty` | conn.go:475-494 | by the event's name: the namespace has the party afterwards that the event and the handlers' answers call for, every other namespace stays as it was, the requester reads under its token the replies the event calls for, and nothing unaccounted for is added |
| `Connection.Conn.Dispatch` | conn.go:462-512 | leaves the namespaces and writes the frames the protocol function says, with exactly the frames of the party operation that the event calls for; on a server whose leave handler does not refuse, adds nothing unaccounted for |
| `Connection.Conn.Deliver` | conn.go:443-460 | puts a reply into the channel of its ask, or reports a block exactly if the channel is full |
| `Connection.Conn.HandleMessage` | conn.go:426-512 | implements the network step: same namespaces, same waiting table and reply channels, same frames, with exactly those of the party operation called for; reports a block exactly when the step blocks |
| `Connection.Conn.BeginAsk` | conn.go:977-1021 | implements the start of an ask on an open connection and does nothing on a closed one |
| `Connection.Conn.FinishConnect` | conn.go:670-691 | implements the return of a connect ask, also on a closed connection; unaccounted for is then exactly what was or what only an overwritten object accounted for, less what the new one does |
| `Connection.Conn.FinishDisconnect` | conn.go:785-806 | implements the return of a disconnect ask with the object found before it asked, writing exactly what its forced leave writes; recorded stays exactly what that object does not let go, less the own id |
| `Connection.Conn.PartyOperationCovers` | conn_party.go:22-257 | any party or chat operation on one namespace adds nothing unaccounted for |
| `Connection.Conn.DrainNamespaces` | conn.go:1046-1056 | whatever the order, every namespace is released once and its disconnect event fired once, and recorded stays exactly what no namespace lets go |
| `Connection.Conn.Close` | conn.go:1042-1076 | in any state and with any record, however often called: one closing of the channel, one disconnect event per namespace, no waiting message and no namespace left; recorded stays exactly what no namespace lets go, and without a refusal nothing if and only if nothing was unaccounted for |
| `Connection.CrossingConnects` | conn.go:679-681 | after crossing connects a room of the overwritten object is unaccounted for |
| `Connection.RefusedConnect` | conn.go:713-718 | a room joined by a connect handler that refuses is unaccounted for |
| `Connection.ClosedBehind` | conn.go:1042-1076 | an unaccounted channel stays recorded when the connection is closed, although no leave handler refuses |
| `Handshake.ControlIndex` | conn.go:358-407 | the first control frame: none before it, and it is one if it exists |
| `Handshake.Reader.HandleHeld` | conn.go:409-420 | handles the held payloads of one type in order and none of the other type |
| `Handshake.Reader.HandleQueue` | conn.go:409-420 | whatever the order of types, handles what was held of each type, in order, and empties the queue |
| `Handshake.Reader.HandleACK` | conn.go:358-407 | holds an ordinary frame; at a control frame sets the state, releases what was held, answers, tells its waiting caller the verdict and goes on exactly as its byte, readiness and the write decide |
| `Handshake.Reader.ReadFrame` | conn.go:330-355 | one turn of the loop keeps the description of what was handled, held and written, or ends at the first control frame with the final result |
| `Handshake.Reader.StartReader` | conn.go:324-356 | for every stream, the payloads handled of each type are exactly the specified ones, once and in order, and the control frames written, the acknowledgement, the caller's verdict and the id are those the first control frame calls for |
| `Handshake.Connect` | conn.go:324-420 | the handshake of two readers: the client ends acknowledged and under the server's id if and only if the server was ready and could write, is told the server's reason if refused, and then nothing is handled on either side; on success both handle everything the other sent, once and in order per type |
| `Handshake.ConservedExactlyWhenReady` | conn.go:324-420 | all ordinary frames are handled once and in order per type if and only if the first control frame is a request that finds the connection ready and is answered or followed by nothing, or discards nothing |
| `Hub.Server.FindAll` | server.go:226-231 | calls the function on the indexed connections of the requested ids, in order |
| `Hub.Server.Handle` | server.go:183-234 | one turn of the loop does the step, including the skipped callbacks |
| `Hub.Server.Start` | server.go:183-234 | the loop runs the steps of all events in order |
| `Hub.Server.Do` | server.go:467-479 | calls the function once on every live connection, whatever the order |
| `Hub.HubInvariant` | server.go:183-213 | over every event sequence with distinct server ids: the counter is the number of live connections modulo 2^64, the index is exactly theirs, neither disconnect callback is called twice for a connection nor for a live one |
| `Hub.CounterExact` | server.go:183-213 | below 2^64 live connections the counter is exact and its modular decrement never wraps |
| `Hub.LookupIsScan` | server.go:226-231 | on a correct index, looking ids up gives what scanning the connections gives |
| `Hub.FindRefinesScan` | server.go:485-495 | in every reachable state a find action calls the function on exactly the connections a scan selects, in order and multiplicity of the request |
| `Hub.ExchangeMissesSkipped` | server.go:193-213 | in every run with an exchange, a submitted connection that is gone was reported to the exchange if and only if its disconnect was not skipped |
| `Hub.HubHistory` | server.go:183-213 | after every event sequence, a connection is live if and only if it was submitted and not disconnected since, and each disconnect callback was called for exactly the live connections with a disconnect that reached it |
| `Hub.DisconnectCalledExactly` | server.go:190-213 | in every run with distinct server ids, the callback was called for a connection that is gone if and only if the server has it and always fires it or the connection was ready, and the exchange heard of it if and only if nothing skipped it |
| `NatsExchange.Exchange.LowerAll` | stackexchange/nats/stackexchange_nats.go:249-265 | whatever the order, lowers each topic's gauge by the number of recorded subjects read under it |
| `NatsExchange.Exchange.Handle` | stackexchange/nats/stackexchange_nats.go:183-268 | one turn of the loop does the step on subscribers and gauges |
| `NatsExchange.Exchange.Run` | stackexchange/nats/stackexchange_nats.go:183-268 | the loop runs the steps of all events in order; from the start, a subject is recorded for a connection if and only if the events subscribed it and kept it |
| `NatsExchange.RecordedExactly` | stackexchange/nats/stackexchange_nats.go:183-268 | after every event sequence, a connection is a subscriber if and only if it was added and not dropped since, and a subject is recorded for it if and only if a subscription of it, accepted while present, was followed by no unsubscription of it and no add, removal or closing of the connection |
| `NatsExchange.GaugeStep` | stackexchange/nats/stackexchange_nats.go:183-268 | after every event sequence, the next event raises a topic's gauge by one exactly if it is a present connection's subscription to the topic that reaches the broker, lowers it by one exactly if it unsubscribes a recorded subject of the topic, and a removal lowers it by the recorded subjects of the topic |
| `NatsExchange.TopicOf` | stackexchange/nats/stackexchange_nats.go:201-205 | a channel's topic is what stands before its first dot, and there is none exactly without a dot |
| `NatsExchange.TopicsAgree` | stackexchange/nats/stackexchange_nats.go:271-273 | with a dot-free prefix the topic read off a subject is the topic of its channel |
| `NatsExchange.StepConserves` | stackexchange/nats/stackexchange_nats.go:183-268 | each event changes the excess of a gauge over the recorded subscriptions by exactly what it leaks |
| `NatsExchange.GaugeConserved` | stackexchange/nats/stackexchange_nats.go:183-268 | over every event sequence the excess grows by exactly the sum of the leaks |
| `NatsExchange.GaugeFromStart` | metrics/metrics.go:69-81 | from the start each gauge is at least the number of recorded subscriptions, and equal to it if and only if nothing leaked |
| `NatsExchange.MisreadTopicBreaks` | stackexchange/nats/stackexchange_nats.go:249-265 | where the two readings of a topic differ, adding, subscribing and removing drives an untouched gauge to -1 |
| `NatsExchange.DottedPrefixMisread` | stackexchange/nats/stackexchange_nats.go:271-273 | with any dot in the prefix every subject's topic is read as the prefix's second part |
| `NatsExchange.GaugeCoversExactly` | stackexchange/nats/stackexchange_nats.go:183-273 | every gauge covers the recorded subscriptions after every event sequence if and only if the prefix has no dot |
| `WaiterOnce.LatchSafety` | waiter_once.go:32-71 | under every interleaving the channel is closed at most once, and `wait` returns only after ready was set and with an error some `unwait` stored |
| `WaiterOnce.ReadyReturnsAtOnce` | waiter_once.go:40-58 | a `wait` begun after ready was set never reaches the channel: whatever the callers do, it is back after two steps of its own, which are always enabled |
| `WaiterOnce.LateUnwait` | waiter_once.go:60-71 | an `unwait` begun after ready was set changes nothing, and ready stays set |
| `WaiterOnce.StuckForever` | waiter_once.go:42-58 | a waiter on a channel nobody is left to close stays there in every continuation |
| `WaiterOnce.StuckExactly` | waiter_once.go:42-71 | in every state of every run and for every step, the waiter is stuck afterwards if and only if it was before or takes the lock after ready was set since its check with every caller past its own check finished |
| `WaiterOnce.LostWakeup` | waiter_once.go:42-71 | a run from the start that ends with a stuck waiter, for every error value |
| `Handlers.MergeAssociative` | conn_handler.go:298-327 | the right-biased union per namespace is associative |
| `Handlers.MergeAllConcat` | conn_handler.go:298-327 | joining groups of handlers and then the results is joining all of them |
| `Handlers.LastWins` | conn_handler.go:298-327 | the joined handlers have exactly the namespaces and events of the parts, and each event its callback in the last part that has it |
| `Handlers.Fill` | conn_handler.go:308-322 | whatever the order, copies all callbacks and overwrites existing ones |
| `Handlers.AddNamespace` | conn_handler.go:305-324 | clones a new event map or extends the result's own, keeping all event maps separate |
| `Handlers.AddHandler` | conn_handler.go:298-327 | whatever the order, merges one handler's namespaces into the result |
| `Handlers.JoinConnHandlers` | conn_handler.go:298-327 | the result is the right-biased union of all inputs with nil event maps skipped, its event maps are new and shared with nothing, and no input changes |

## Left out

- Asks made from inside a handler: they take the next frame whatever its token, so correlation does not apply to them.
- Two asks of one connection in the same nanosecond: they share a token (`Codec.GenWaitInjective`); runs have strictly increasing clock readings per peer.
- Closing during a run of the two peers, and write errors: `Close` is proved for the connection object only.
- Native emits and native asks between the two peers, and a native message for an unconnected empty namespace, on which the code dereferences nil.
- Agreement.RunAgrees: stated for runs in which each namespace is initiated by one side, which asks about it under an escape-safe name and not while an ask about it is outstanding, and is not refused with a `Reply`; what an unsafe name and a `Reply` do is stated by `Agreement.RequestArrives` and `Protocol.ReplyConsistency`.
- Party.NSConn.AskPartyCreate: a handler that fails installs no party; one that did would leave a party behind that is not joined, on which the next leave dereferences nil. The same holds for the operations below that run such a handler.
- Party.NSConn.JoinFresh: a handler that fails installs no party.
- Party.NSConn.AskPartyJoin: a handler that fails installs no party.
- Party.NSConn.AskPartyInvite: a handler that fails installs no party.
- Party.NSConn.AcceptInvitation: a handler that fails installs no party.
- Party.NSConn.ReplyPartyInvitation: a handler that fails installs no party.
- Party.NSConn.HandleParty: a handler that fails installs no party.
- Connection.Conn.HandleParty: a handler that fails installs no party.
- Connection.Conn.Dispatch: a handler that fails installs no party, and the hook that turns an invitation into a join message keeps to the token of the invitation.
- Connection.Conn.HandleMessage: a handler that fails installs no party, and the hook that turns an invitation into a join message keeps to the token of the invitation.
- Party.BaseParty.Join: whom the broadcast leaves out, and that it goes to clients, is not part of the published message.
- Party.BaseParty.Leave: whom the broadcast leaves out, and that it goes to clients, is not part of the published message.
- The `IsLocal` and `IsForced` flags and the contents of messages to local handlers.
- The readiness side effect of `canWrite` on a server, and the order of payloads of different types across the handshake.
- `process.go`: waiting for a pending connect only removes behaviours.
- `Server.Ask`, its waiting table and the exchange mark on tokens: deprecated, and never filled by the rest of the code.
- `DisconnectAll` and its locking, the polling loop of `Conn.Connect`, and the other locks.
- Liveness of the readiness latch, which fails.
- Registered custom errors of `resolveError`, error codes read back from error texts, and custom serialisation.
- PartyReplies.PartyAnnounced: the message that the join hook makes is not itself named like a notice.
- Rooms other than chat rooms, friends, the broadcaster, publishing, and the Redis exchange.
- Sockets, the HTTP upgrade, timeouts, metrics other than the subscription gauge, reflection, demos and the JavaScript client.
