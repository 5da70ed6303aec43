/** Values exchanged over the chat WebSocket and stored by the message store.
    Every event is a closed variant instead of the `{type, data}` JSON object
    of the wire format; parsing is abstracted into `Frame`. */
module Protocol {

  datatype Option<T> = None | Some(value: T)

  /** Identity of one server-side connection (an entry of `wss.clients`). */
  type ConnId = nat
  type UserId = string
  type RoomId = string

  /** A username as stored: the `username` column of the users table is nullable. */
  type DisplayName = Option<string>

  /** JavaScript truthiness of an optional string field: `undefined` and `""` are falsy. */
  predicate Truthy(s: Option<string>)
  {
    s.Some? && s.value != ""
  }

  /** `s || fallback` on an optional string: the value when truthy, else the fallback. */
  function OrDefault(s: Option<string>, fallback: string): (r: string)
    requires fallback != ""
    ensures r != ""
    ensures Truthy(s) ==> r == s.value
    ensures !Truthy(s) ==> r == fallback
  {
    if Truthy(s) then s.value else fallback
  }

  /** A row of the users table, as `getUser` returns it. */
  datatype User = User(id: UserId, username: DisplayName, language: Option<string>, country: Option<string>)

  /** A row of the messages table, as `createMessage` returns it
      (the creation timestamp is not modelled; `id` stands for the generated key). */
  datatype Message = Message(
    id: nat,
    roomId: RoomId,
    userId: UserId,
    content: string,
    messageType: string,
    originalLanguage: Option<string>,
    translatedContent: Option<string>)

  /** `{ ...newMessage, user }`: the stored row with the author's profile, which is
      `undefined` when the author has no row in the users table. */
  datatype MessageWithUser = MessageWithUser(msg: Message, user: Option<User>)

  /** The four `type` values the server's `switch` handles. */
  datatype EventType = AuthType | JoinRoomType | SendMessageType | TypingType

  /** Client-to-server events, with the fields the server reads from `data`;
      `NoData` is a handled `type` whose `data` is absent or `null`, so that
      reading any field of it throws. */
  datatype InEvent =
    | NoData(kind: EventType)
    | Auth(userId: Option<UserId>)
    | JoinRoom(roomId: Option<RoomId>)
    | SendMessage(roomId: Option<RoomId>, content: string, messageType: Option<string>,
                  originalLanguage: Option<string>, translatedContent: Option<string>)
    | Typing(roomId: Option<RoomId>, isTyping: bool)

  /** Server-to-client events. */
  datatype OutEvent =
    | NewMessage(payload: MessageWithUser)
    | MessageSent(payload: MessageWithUser)
    | UserTyping(user: Option<User>, isTyping: bool)
    | Error(message: string)

  /** One received frame after `JSON.parse`. `Garbled`: the text does not parse, or
      parses to `null` (reading `type` of it throws). `Known`: a handled event type.
      `Unrecognised`: any other value, whose `type` no branch of the receiver handles. */
  datatype Frame<E> = Garbled | Known(ev: E) | Unrecognised(tag: string)

  /** The only text the server ever puts in an `error` event. */
  const InvalidFormat: string := "Invalid message format"
}
