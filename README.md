# MikanChat real-time relay — a Dafny model

This project models the real-time core of MikanChat, a multi-room chat application:

- **The server relay** (`server/routes.ts`). Each WebSocket connection carries an optional user id, an optional room id and an OPEN flag. The `message` handler dispatches `auth`, `join_room`, `send_message` and `typing`. It persists messages through the storage layer before anything is sent. It then fans `new_message` / `user_typing` out to every other OPEN connection in the same room, and confirms to the sender with `message_sent`. Any exception that reaches the outer `catch` (routes.ts:252) becomes one `error` event ("Invalid message format") sent back to the originating connection; a throwing `addRoomMember` is swallowed by its own inner `try`.
- **The browser hook** (`client/src/hooks/useWebSocket.ts`). On open it sends `auth` and then `join_room`. It reduces inbound frames into the message list (newest first) and the typing-users list. On close it schedules a reconnect. Its two sends are guarded by the socket's readyState, and a fixed rule decides when the placeholder translation is attached.
- **The composer's typing indicator** (`client/src/components/chat/MessageInput.tsx`). It holds the input text, an `isTyping` flag and one pending stop timer. It calls `onTyping(true/false)` on transitions and `onSendMessage(trimmed)` when the text is sent.

Files:

- `protocol.dfy` (`Protocol`): the events in both directions, as closed variants. It also has the stored message and user rows, and JavaScript truthiness for optional strings.
- `seqs.dfy` (`Seqs`): `Distinct`, `Count` and `RemoveAll` (the `filter` used by the hook), with their lemmas.
- `relay_server.dfy` (`RelayServer`): three parts.
  - `Step`, a pure specification of one handled frame over the whole server state. Its effects come as an ordered list of `Persist` / `RecordMember` / `Deliver` actions. A `Deliver` records a `send` call; the `ws` library transmits it only while that socket is OPEN.
  - The imperative model. `Storage` is the in-memory store; each call takes a flag saying whether it throws. `Relay` holds `wss.clients` as an ordered, duplicate-free sequence plus a map of per-connection fields. `Relay.Handle` mutates them and is proved equal to `Step`. `FanOut` is the `forEach` loop.
  - The delivery lemmas.
- `chat_client.dfy` (`ChatClient`): the pure reducer, the translation rule, and the class `ChatSocket` for one hook instance.
- `message_input.dfy` (`TypingInput`): JavaScript `trim`, the composer as a pure `Step` with the class `MessageInput` proved against it, and the alternation of `onTyping` calls.
- `end_to_end.dfy` (`EndToEnd`): properties of server and client together. The handshake binds the connection. The sender's own message enters its list once, via `message_sent`. Each room mate gets it once, via `new_message`.

Collaborators are parameters. Whether `createMessage`, `getUser` or `addRoomMember` throws is the `Faults` argument of `Step` / `Handle`. The users table is a map read by `getUser`, which yields `undefined` (`None`) for an unknown id. Timers are explicit events: `FireReconnect` and `TimerFires`. Parsing is abstracted to `Frame`: `Garbled` (the text does not parse, or parses to `null`), `Known(event)` or `Unrecognised(type)`. On the server, a handled `type` whose `data` is absent or `null` is the event `NoData(type)`.

Notable behaviour of the code, which the model keeps:

- A `send_message` or `typing` from an unauthenticated connection, or one naming no room, is silently ignored. No `error` is sent.
- The stored message's room is the `roomId` in the event, not the room the connection joined.
- There is no room directory. A connection's room is its own `roomId` field, and the broadcast filters on it.
- On `close` the handler only logs; the WebSocket library drops the socket from the client set (`Relay.Drop`).
- A missing field is passed through as `undefined`. An `error` comes from four causes only: text that does not parse, a frame that parses to `null`, a handled `type` whose `data` is absent or `null`, and `createMessage` or `getUser` throwing. A throwing `addRoomMember` is caught by its own `try` (routes.ts:181-188) and sends nothing. The `data` case has one exception. A `send_message` or `typing` on a connection with a falsy user id never reads `data`, because the guard's `&&` stops first, so nothing at all happens.
- A `user_typing` without a user (the author's id has no users row) fails the receiving client's render, see Findings; the rest of the model uses the corrected reducer, which drops it.
- If `getUser` throws after `createMessage` succeeded, the message stays persisted. The sender gets only `error`, and nobody gets `new_message` or `message_sent`.

## Model

| member | source | states |
|---|---|---|
| `RelayServer.Step` | server/routes.ts:168-258 | the handler's effect on the whole server state, as an ordered list of effects; its properties are stated by the lemmas below and `Relay.Handle` is proved equal to it |
| `RelayServer.Eligible` | server/routes.ts:210-214 | the broadcast filter: not the sender, OPEN, and joined to the event's room; `BroadcastReachesEachOnce` states what it selects |
| `RelayServer.LookupUser` | server/storage.ts:58-61 | the user's row exactly when the id is in the users table, `undefined` otherwise |
| `Protocol.OrDefault` | server/routes.ts:198 | JavaScript's `x` or fallback on an optional string, used for the stored `messageType` (fallback `'text'`) and for the hook's `user.language` (fallback `'ja'`, useWebSocket.ts:139): a truthy value is kept, anything else gives the fallback, and the result is never empty |
| `Protocol.Truthy` | server/routes.ts:192 | JavaScript truthiness of an optional string (`undefined` and `""` are falsy), on which the guards at routes.ts:192 and 232 and the `or`-defaults of routes.ts:198 depend |
| `RelayServer.Throws` | server/routes.ts:169-257 | which frames reach the outer `catch`: text that does not parse or is `null`; a read of a missing `data`, unless the guard stops first; `createMessage` or `getUser` throwing in a valid send; `getUser` throwing in a valid `typing`. `ThrowRepliesErrorToSenderOnly` and `ErrorOnlyWhenThrown` state both directions |
| `RelayServer.ShortCircuits` | server/routes.ts:191-232 | a data-less `send_message` / `typing` is dropped exactly when the connection's user id is falsy; `MissingDataErrorsUnlessShortCircuited` states the outcome |
| `RelayServer.MissingDataErrorsUnlessShortCircuited` | server/routes.ts:172-257 | a handled `type` without `data` changes no state; it sends nothing exactly when it is `send_message` / `typing` on a connection with a falsy user id, and otherwise one `error` to the sender |
| `RelayServer.Broadcast` | server/routes.ts:209-220 | every delivery of one `forEach` pass carries the event to a client that is not the sender, is OPEN and is in the room |
| `RelayServer.FanOut` | server/routes.ts:209-220 | the loop over `wss.clients` produces exactly the deliveries of `Broadcast`, in client order |
| `RelayServer.BroadcastReachesEachOnce` | server/routes.ts:209-220 | over a duplicate-free client list, each eligible client gets the event exactly once and every other connection gets nothing |
| `RelayServer.Storage.AddRoomMember` | server/storage.ts:154-157 | a room_members row is appended exactly when the call does not throw and both NOT NULL columns are defined; nothing else changes |
| `RelayServer.Storage.CreateMessage` | server/storage.ts:134-137 | unless the call throws, the new row with the given fields is appended to the log and returned; on a throw nothing is stored |
| `RelayServer.Storage.GetUser` | server/storage.ts:58-61 | unless it throws, returns the user's row, or `undefined` when there is none |
| `RelayServer.Relay.constructor` | server/routes.ts:163 | a new server has no clients and an empty store over the given users table |
| `RelayServer.Relay.Accept` | server/routes.ts:165-166 | a new connection gets a fresh id, is iterated last, has no user and no room, and is OPEN |
| `RelayServer.Relay.StartClose` | server/routes.ts:212 | a closing socket stays a client but is no longer OPEN |
| `RelayServer.Relay.Drop` | server/routes.ts:261-263 | a closed socket leaves the client list and the field map; the rest keep their order |
| `RelayServer.Relay.Handle` | server/routes.ts:168-258 | the imperative handler's new state and its effects equal `Step` on the old state, and the registry stays well formed |
| `RelayServer.StepTouchesOnlySender` | server/routes.ts:172-251 | any frame keeps the registry well formed, changes only the sender's user and room fields, and adds at most one row to each store table |
| `RelayServer.AuthLastWriteWins` | server/routes.ts:173-176 | `auth` overwrites the user id with the event's value, keeps the room, stores nothing and sends nothing |
| `RelayServer.JoinRoomReplacesRoom` | server/routes.ts:178-189 | `join_room` sets the room to the event's value whether or not `addRoomMember` throws; a membership row is added only on success; nothing is sent |
| `RelayServer.GuardedEventsNeedUserAndRoom` | server/routes.ts:191-232 | `send_message` / `typing` without a truthy user id or a truthy `roomId` change nothing and send nothing |
| `RelayServer.SendPersistsBeforeDelivering` | server/routes.ts:192-226 | a valid send whose `createMessage` succeeds stores exactly one message, in the event's room, with type defaulting to `text`; that `Persist` is the first effect and every later effect is a delivery |
| `RelayServer.SendSucceeds` | server/routes.ts:194-226 | with both storage calls succeeding, the effects are the persist, the room broadcast, then the sender's confirmation |
| `RelayServer.SendReachesRoomOnce` | server/routes.ts:207-226 | the sender gets exactly `[message_sent(p)]`; each other OPEN connection in the event's room gets exactly `[new_message(p)]`; all others get nothing |
| `RelayServer.TypingReachesRoomOnce` | server/routes.ts:230-250 | a valid `typing` stores nothing, changes no state, and sends one `user_typing` with the flag to each eligible connection and nothing to others |
| `RelayServer.ThrowRepliesErrorToSenderOnly` | server/routes.ts:252-257 | a frame that throws gets exactly one `error` back to its own connection and nothing to anyone else; connections and memberships do not change, and the log changes only by the message a send persisted before `getUser` threw |
| `RelayServer.ErrorOnlyWhenThrown` | server/routes.ts:169-258 | no `error` event is produced unless the frame throws |
| `RelayServer.UnrecognisedIsIgnored` | server/routes.ts:172-251 | a frame with an unhandled `type` changes nothing and sends nothing |
| `RelayServer.DroppedReceivesNothing` | server/routes.ts:209-214 | a connection no longer among the clients is sent nothing by any frame |
| `Seqs.RemoveAll` | client/src/hooks/useWebSocket.ts:76-78 | the filtered list holds exactly the elements other than the removed one |
| `Seqs.RemoveAllAppend` | client/src/hooks/useWebSocket.ts:76-78 | filtering distributes over concatenation, so the survivors keep their order |
| `Seqs.RemoveAllCount` | client/src/hooks/useWebSocket.ts:76-78 | the removed name occurs zero times afterwards; every other name keeps its count |
| `Seqs.RemoveAllDistinct` | client/src/hooks/useWebSocket.ts:76-78 | filtering a duplicate-free list leaves it duplicate-free |
| `ChatClient.ReduceAsWritten` | client/src/hooks/useWebSocket.ts:57-89 | the reducer as written: only a `user_typing` without a user can fail the render, and with `isTyping` true it always does |
| `ChatClient.Reduce` | client/src/hooks/useWebSocket.ts:57-89 | the corrected reducer: a frame whose updater throws is dropped; `UnknownTypistIsDropped` and the lemmas below state its behaviour |
| `ChatClient.UnknownTypistIsDropped` | client/src/hooks/useWebSocket.ts:67-79 | the reducer as written fails exactly on a user-less `user_typing` that adds, or that removes from a non-empty list; otherwise it agrees with the corrected reducer, which drops every user-less `user_typing` |
| `ChatClient.AddIfAbsent` | client/src/hooks/useWebSocket.ts:69-74 | the add-if-absent updater; `AddIfAbsentProperties` states its properties |
| `ChatClient.MockTranslation` | client/src/hooks/useWebSocket.ts:127-131 | the placeholder translation; `TranslationRule` states when it is attached |
| `ChatClient.HasNonAscii` | client/src/hooks/useWebSocket.ts:128 | true exactly when some character lies above 0x7F |
| `ChatClient.TranslationRule` | client/src/hooks/useWebSocket.ts:126-139 | the placeholder translation is attached iff the text has a non-ASCII character and the language is not `en`; the original language defaults to `ja` when absent or empty |
| `ChatClient.MessageEventsPrepend` | client/src/hooks/useWebSocket.ts:62-65 | `new_message` and `message_sent` put the payload first; the length grows by one, the old list follows unchanged, and typing users are untouched |
| `ChatClient.ReduceAllMessages` | client/src/hooks/useWebSocket.ts:57-89 | over any run of frames, the message list is the received message payloads, newest first, in front of the old list |
| `ChatClient.AddIfAbsentProperties` | client/src/hooks/useWebSocket.ts:69-74 | add-if-absent keeps a list duplicate-free, leaves the name present exactly once, keeps other counts, and is idempotent |
| `ChatClient.TypingStartAddsOnce` | client/src/hooks/useWebSocket.ts:68-74 | `user_typing` with true keeps the typing list duplicate-free with the name exactly once; a repeat changes nothing |
| `ChatClient.TypingStopRemovesAll` | client/src/hooks/useWebSocket.ts:75-79 | `user_typing` with false removes every occurrence of the name; other names keep their counts and order |
| `ChatClient.IgnoredFramesChangeNothing` | client/src/hooks/useWebSocket.ts:82-88 | unparseable or `null` frames, `error` and unknown types leave both lists unchanged, as written and corrected |
| `ChatClient.ReduceKeepsTypingDistinct` | client/src/hooks/useWebSocket.ts:67-79 | whatever frame arrives, a duplicate-free typing list stays duplicate-free, so `ChatSocket` keeps that invariant across any run |
| `ChatClient.ChatSocket.constructor` | client/src/hooks/useWebSocket.ts:24-30 | a new hook instance has no socket, is not connected, has empty lists and no pending reconnect |
| `ChatClient.ChatSocket.Connect` | client/src/hooks/useWebSocket.ts:32-38 | without a user nothing happens; with one, a new socket starts connecting |
| `ChatClient.ChatSocket.OnOpen` | client/src/hooks/useWebSocket.ts:40-55 | opening marks the hook connected and sends `auth` with the user id, then `join_room` with the room, in that order |
| `ChatClient.ChatSocket.OnMessage` | client/src/hooks/useWebSocket.ts:57-89 | the two lists become the corrected reducer applied to the frame, the typing list stays duplicate-free; nothing else changes |
| `ChatClient.ChatSocket.OnClose` | client/src/hooks/useWebSocket.ts:91-99 | closing clears the connected flag and schedules exactly one more reconnect |
| `ChatClient.ChatSocket.FireReconnect` | client/src/hooks/useWebSocket.ts:96-98 | a firing reconnect timer consumes one pending reconnect and connects again |
| `ChatClient.ChatSocket.SendMessage` | client/src/hooks/useWebSocket.ts:124-144 | a `send_message` frame goes out iff the socket is OPEN and a user is set; it carries the room, text, type, language (default `ja`) and translation rule |
| `ChatClient.ChatSocket.SendTyping` | client/src/hooks/useWebSocket.ts:146-156 | a `typing` frame with the room and flag goes out iff the socket is OPEN |
| `TypingInput.IsJsSpace` | client/src/components/chat/MessageInput.tsx:44 | the characters `String.prototype.trim` strips: the WhiteSpace and LineTerminator sets of ECMAScript |
| `TypingInput.TrimStart` | client/src/components/chat/MessageInput.tsx:44 | strips white space from the front; `TrimStartStrips` characterises it |
| `TypingInput.TrimEnd` | client/src/components/chat/MessageInput.tsx:44 | strips white space from the back; `TrimEndStrips` characterises it |
| `TypingInput.Trim` | client/src/components/chat/MessageInput.tsx:44-45 | `message.trim()`; `TrimIsStrippedMiddle`, `TrimEmptyIffBlank` and `TrimIdempotent` characterise it |
| `TypingInput.SendDisabled` | client/src/components/chat/MessageInput.tsx:121 | the send button's `disabled` condition; `SendDisabledIffBlank` characterises it |
| `TypingInput.Send` | client/src/components/chat/MessageInput.tsx:43-59 | `handleSend` as a transition with the callbacks it makes; `SendBehaviour` and `SendCallsOnFlip` state its properties |
| `TypingInput.Step` | client/src/components/chat/MessageInput.tsx:22-66 | every composer event as a transition with its callbacks; `StepCallsOnFlip`, `ChangeAndTimer` and `KeyPressSendsOnPlainEnter` state its properties |
| `TypingInput.TrimStartStrips` | client/src/components/chat/MessageInput.tsx:44-45 | stripping the front leaves the longest suffix not starting with white space, and only white space is removed |
| `TypingInput.TrimEndStrips` | client/src/components/chat/MessageInput.tsx:44-45 | stripping the back leaves the longest prefix not ending with white space, and only white space is removed |
| `TypingInput.TrimIsStrippedMiddle` | client/src/components/chat/MessageInput.tsx:44-45 | `trim` returns a contiguous middle slice, with only white space around it, that neither starts nor ends with white space |
| `TypingInput.TrimEmptyIffBlank` | client/src/components/chat/MessageInput.tsx:44 | the text trims to empty exactly when it is all white space |
| `TypingInput.TrimIdempotent` | client/src/components/chat/MessageInput.tsx:45 | trimming the sent text again changes nothing |
| `TypingInput.SendDisabledIffBlank` | client/src/components/chat/MessageInput.tsx:121 | the send button is disabled exactly when the text is empty or all white space |
| `TypingInput.SendCallsOnFlip` | client/src/components/chat/MessageInput.tsx:43-58 | sending keeps the timer consistent with the indicator and calls `onTyping` only when the indicator flips, with its new value |
| `TypingInput.StepCallsOnFlip` | client/src/components/chat/MessageInput.tsx:22-58 | every event keeps a pending timer iff the indicator is on, and calls `onTyping` exactly when the indicator flips, with the new value |
| `TypingInput.RunAlternates` | client/src/components/chat/MessageInput.tsx:26-52 | over any event sequence the `onTyping` arguments alternate, starting with the opposite of the indicator; the last one equals the final indicator |
| `TypingInput.FromInitialTrueFirst` | client/src/components/chat/MessageInput.tsx:17-52 | from the first render the calls are `onTyping(true)`, `onTyping(false)`, ... |
| `TypingInput.SendBehaviour` | client/src/components/chat/MessageInput.tsx:43-58 | a blank send changes nothing; otherwise the trimmed, non-empty text is passed first, the input is cleared, the timer is cancelled, and `onTyping(false)` is called only if typing |
| `TypingInput.KeyPressSendsOnPlainEnter` | client/src/components/chat/MessageInput.tsx:61-66 | Enter without Shift sends; any other key, Shift+Enter included, does nothing |
| `TypingInput.ChangeAndTimer` | client/src/components/chat/MessageInput.tsx:22-40 | a change stores the value, turns the indicator on and re-arms the timer, calling `onTyping(true)` only when it was off; a firing timer turns it off with `onTyping(false)` |
| `TypingInput.MessageInput.constructor` | client/src/components/chat/MessageInput.tsx:17-20 | the composer starts empty, not typing, with no timer and no calls made |
| `TypingInput.MessageInput.HandleInputChange` | client/src/components/chat/MessageInput.tsx:22-41 | the new state and the calls equal the `Change` step; the log of `onTyping` calls stays alternating from `true` |
| `TypingInput.MessageInput.FireTimer` | client/src/components/chat/MessageInput.tsx:37-40 | the new state and the calls equal the `TimerFires` step; the call log stays alternating |
| `TypingInput.MessageInput.HandleSend` | client/src/components/chat/MessageInput.tsx:43-59 | the new state and the calls equal `Send`; the call log stays alternating |
| `TypingInput.MessageInput.HandleKeyPress` | client/src/components/chat/MessageInput.tsx:61-66 | the new state and the calls equal the `KeyPress` step |
| `EndToEnd.HandshakeBindsUserAndRoom` | client/src/hooks/useWebSocket.ts:44-54 | the `auth` then `join_room` sent on open leave the server connection with the user's id and the hook's room, and deliver nothing |
| `EndToEnd.SenderGetsOwnMessageOnce` | server/routes.ts:207-226 | while the sender's socket is OPEN, the sender never receives `new_message` for its own message; it receives one `message_sent`, which prepends the message to its list exactly once |
| `EndToEnd.RoomMatesGetMessageOnce` | server/routes.ts:209-220 | every other OPEN connection in the room prepends the message exactly once via `new_message`; any other connection's lists are unchanged |
| `EndToEnd.UnknownTypistFailsRoomMates` | server/routes.ts:230-248 | a `typing` from a connection whose user id has no row reaches each room mate as one user-less `user_typing`, which fails its render as written and changes nothing when corrected |
| `EndToEnd.ClientSendIsStoredVerbatim` | client/src/hooks/useWebSocket.ts:133-142 | a hook-built send for an identified connection stores the text, type, language and placeholder translation verbatim in the hook's room |

## Findings

| source | as written | input that shows it | evidently intended | confidence | as-written member | corrected member |
|---|---|---|---|---|---|---|
| client/src/hooks/useWebSocket.ts:67-79 | the `setTypingUsers` updaters read `message.data.user.username`; React runs them outside the `try` at lines 58-88, so with `user` absent the TypeError escapes and the chat view's render fails | a connection sends `auth` with an id that has no users row (server/routes.ts:175 does not check it), then `typing`: the server sends `user_typing` whose `user` is `undefined` (routes.ts:233-246), so every room mate receives it without a `user` | a malformed `user_typing` is dropped like any other frame the `try` guards, and the lists are unchanged | medium, not executed | `ChatClient.ReduceAsWritten`, shown by `EndToEnd.UnknownTypistFailsRoomMates` | `ChatClient.Reduce`, proved by `ChatClient.UnknownTypistIsDropped` |

## Left out

- The HTTP CRUD routes (server/routes.ts:29-158) are not modelled. They pass requests through to storage behind authentication middleware, which is not part of this model.
- The storage implementation (SQL queries, `gen_random_uuid` keys, `created_at` timestamps) is not modelled. A stored message's id is its position in the log. Foreign-key and NOT NULL rejections of `createMessage` are folded into the call's `throws` flag.
- JSON framing and the `ws` library are abstracted. Field values of the wrong JSON type are not modelled: `content` is always a string and `isTyping` always a boolean. A `data` that is a number or string reads as an object with every field `undefined`. A missing `content` is a NOT NULL violation and falls under `createMessage` throwing.
- Frames without `data` are modelled only on the server (`NoData`). The server always sends `data`, so the client's `Frame` has no data-less case.
- The server's readyState is reduced to an OPEN flag. The confirmation and the `error` reply go to the sender whatever its readyState, as the code does.
- Asynchrony is left out. Each frame is handled to completion before the next; other connections' events interleaving at the `await`s in the handler are not modelled.
- Timers are explicit events with no wall-clock time: the 3 s reconnect and the 1 s typing timeout.
- The hook's unmount cleanup (client/src/hooks/useWebSocket.ts:108-122) is not modelled. So are its re-creation when `user` or `roomId` change, and events from a socket that is no longer the current one. All of these depend on React's closure capture and rendering, which are outside this model.
- The composer is modelled as re-rendering between events. Each handler sees the latest `message` and `isTyping`, as React's state updates guarantee after a render.
- The hook's `typingTimeoutRef` is not modelled. Only its cleanup ever touches it.
- React presentation components, pages, modals and `useJapanTime` (an `Intl` time-zone call) are not modelled. They hold no relay logic.
- Logging (`console.log` / `console.error`) is not modelled.
