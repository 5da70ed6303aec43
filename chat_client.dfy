/** The browser side of the relay, client/src/hooks/useWebSocket.ts: the handshake
    sent when the socket opens, the reducer applied to every inbound frame (the
    message list and the list of users currently typing), the reconnect scheduled
    on close, and the guards on the two outbound sends. */
module ChatClient {
  import opened Protocol
  import opened Seqs

  /** The hook's two pieces of list state: messages newest first, and the names
      of the users currently typing. */
  datatype Feed = Feed(messages: seq<MessageWithUser>, typingUsers: seq<DisplayName>)

  /** The `setTypingUsers` updater for `isTyping == true`: append the name unless present. */
  function AddIfAbsent<T(==)>(s: seq<T>, x: T): seq<T>
  {
    if x in s then s else s + [x]
  }

  /** The reducer of `ws.onmessage` as written, `None` when the render fails. The
      `setTypingUsers` updaters read `message.data.user.username`; with `user`
      absent that read throws, and since React runs the updaters outside the
      handler's `try`, the TypeError is not caught. Adding reads the name
      always; removing reads it once per listed name, so an empty list survives.
      A frame that does not parse, an `error` and an unhandled type are caught or
      fall through the `switch`, and leave the feed as it is. */
  function ReduceAsWritten(feed: Feed, f: Frame<OutEvent>): (r: Option<Feed>)
    ensures r.None? ==> f.Known? && f.ev.UserTyping? && f.ev.user.None?
    ensures f.Known? && f.ev.UserTyping? && f.ev.user.None? && f.ev.isTyping ==> r.None?
  {
    match f
    case Known(NewMessage(p)) => Some(feed.(messages := [p] + feed.messages))
    case Known(MessageSent(p)) => Some(feed.(messages := [p] + feed.messages))
    case Known(UserTyping(u, isTyping)) =>
      if isTyping then
        if u.None? then None
        else Some(feed.(typingUsers := AddIfAbsent(feed.typingUsers, u.value.username)))
      else if u.None? then
        if feed.typingUsers == [] then Some(feed) else None
      else Some(feed.(typingUsers := RemoveAll(feed.typingUsers, u.value.username)))
    case Known(Error(_)) => Some(feed)
    case Unrecognised(_) => Some(feed)
    case Garbled => Some(feed)
  }

  /** The reducer with the evident intent of the handler's `try`: a frame whose
      updater throws is dropped like any other malformed frame. */
  function Reduce(feed: Feed, f: Frame<OutEvent>): Feed
  {
    match ReduceAsWritten(feed, f)
    case Some(next) => next
    case None => feed
  }

  /** The frames received, oldest first, applied in order. */
  function ReduceAll(feed: Feed, fs: seq<Frame<OutEvent>>): Feed
    decreases |fs|
  {
    if fs == [] then feed else ReduceAll(Reduce(feed, fs[0]), fs[1..])
  }

  /** `/[^\x00-\x7F]/.test(s)`: some character lies outside seven-bit ASCII. */
  function HasNonAscii(s: string): (r: bool)
    ensures r <==> exists i :: 0 <= i < |s| && s[i] as int > 0x7F
  {
    if s == [] then false
    else if s[0] as int > 0x7F then true
    else
      assert forall i :: 1 <= i < |s| ==> s[i] == s[1..][i - 1];
      HasNonAscii(s[1..])
  }

  /** The placeholder translation attached to non-ASCII text. */
  const MockTranslationText: string := "Hello! How is everyone doing?"

  /** `translatedContent`: the placeholder when the text is not plain ASCII and the
      user's language is not English, otherwise absent. */
  function MockTranslation(content: string, language: Option<string>): Option<string>
  {
    if HasNonAscii(content) && language != Some("en") then Some(MockTranslationText) else None
  }

  datatype ReadyState = Connecting | Open | Closed

  /** One mounted instance of the hook, for a fixed signed-in `user` (or none)
      and a fixed `roomId`. */
  class ChatSocket {
    const user: Option<User>
    const roomId: RoomId
    /** The `socket` state: none yet, or the readyState of the current WebSocket. */
    var socket: Option<ReadyState>
    var isConnected: bool
    var messages: seq<MessageWithUser>
    var typingUsers: seq<DisplayName>
    /** Reconnect timers set by `onclose` that have not fired yet. */
    var pendingReconnects: nat

    /** A socket is only ever created for a signed-in user, and the typing list
        never holds a name twice. */
    ghost predicate Valid()
      reads this
    {
      (socket.Some? ==> user.Some?) && Distinct(typingUsers)
    }

    function CurrentFeed(): Feed
      reads this
    {
      Feed(messages, typingUsers)
    }

    constructor (user: Option<User>, roomId: RoomId)
      ensures Valid()
      ensures this.user == user && this.roomId == roomId
      ensures socket == None && !isConnected && pendingReconnects == 0
      ensures CurrentFeed() == Feed([], [])
    {
      this.user := user;
      this.roomId := roomId;
      socket := None;
      isConnected := false;
      messages := [];
      typingUsers := [];
      pendingReconnects := 0;
    }

    /** `connect`: without a user nothing happens; otherwise a new socket starts connecting. */
    method Connect()
      requires Valid()
      modifies this
      ensures Valid()
      ensures socket == (if user.Some? then Some(Connecting) else old(socket))
      ensures isConnected == old(isConnected) && pendingReconnects == old(pendingReconnects)
      ensures CurrentFeed() == old(CurrentFeed())
    {
      if user.Some? {
        socket := Some(Connecting);
      }
    }

    /** `ws.onopen`: mark connected, then send `auth` followed by `join_room`. */
    method OnOpen() returns (out: seq<InEvent>)
      requires Valid() && socket == Some(Connecting)
      modifies this
      ensures Valid()
      ensures socket == Some(Open) && isConnected
      ensures out == [Auth(Some(user.value.id)), JoinRoom(Some(roomId))]
      ensures pendingReconnects == old(pendingReconnects) && CurrentFeed() == old(CurrentFeed())
    {
      socket := Some(Open);
      isConnected := true;
      out := [Auth(Some(user.value.id))];
      out := out + [JoinRoom(Some(roomId))];
    }

    /** `ws.onmessage`: the reducer applied to the two lists. */
    method OnMessage(f: Frame<OutEvent>)
      requires Valid()
      modifies this
      ensures Valid()
      ensures CurrentFeed() == Reduce(old(CurrentFeed()), f)
      ensures socket == old(socket) && isConnected == old(isConnected)
      ensures pendingReconnects == old(pendingReconnects)
    {
      ReduceKeepsTypingDistinct(CurrentFeed(), f);
      var next := Reduce(CurrentFeed(), f);
      messages := next.messages;
      typingUsers := next.typingUsers;
    }

    /** `ws.onclose`: mark disconnected and schedule exactly one more reconnect. */
    method OnClose()
      requires Valid() && socket.Some?
      modifies this
      ensures Valid()
      ensures socket == Some(Closed) && !isConnected
      ensures pendingReconnects == old(pendingReconnects) + 1
      ensures CurrentFeed() == old(CurrentFeed())
    {
      socket := Some(Closed);
      isConnected := false;
      pendingReconnects := pendingReconnects + 1;
    }

    /** A reconnect timer fires and calls `connect` again. */
    method FireReconnect()
      requires Valid() && pendingReconnects > 0
      modifies this
      ensures Valid()
      ensures pendingReconnects == old(pendingReconnects) - 1
      ensures socket == (if user.Some? then Some(Connecting) else old(socket))
      ensures isConnected == old(isConnected) && CurrentFeed() == old(CurrentFeed())
    {
      pendingReconnects := pendingReconnects - 1;
      Connect();
    }

    /** `sendMessage`: a `send_message` frame only when the socket is OPEN and a user
        is signed in, carrying the room, the text, its type, the sender's language
        and the placeholder translation rule. */
    method SendMessage(content: string, messageType: string) returns (out: Option<InEvent>)
      ensures out.Some? <==> socket == Some(Open) && user.Some?
      ensures out.Some? ==>
        && out.value.SendMessage?
        && out.value.roomId == Some(roomId)
        && out.value.content == content
        && out.value.messageType == Some(messageType)
        && out.value.originalLanguage == Some(OrDefault(user.value.language, "ja"))
        && out.value.translatedContent == MockTranslation(content, user.value.language)
    {
      if socket == Some(Open) && user.Some? {
        var translated: Option<string> := None;
        var hasNonAscii := HasNonAscii(content);
        if hasNonAscii && user.value.language != Some("en") {
          translated := Some(MockTranslationText);
        }
        out := Some(InEvent.SendMessage(Some(roomId), content, Some(messageType),
                                Some(OrDefault(user.value.language, "ja")), translated));
      } else {
        out := None;
      }
    }

    /** `sendTyping`: a `typing` frame only when the socket is OPEN. */
    method SendTyping(isTyping: bool) returns (out: Option<InEvent>)
      ensures out.Some? <==> socket == Some(Open)
      ensures out.Some? ==> out.value == Typing(Some(roomId), isTyping)
    {
      if socket == Some(Open) {
        out := Some(Typing(Some(roomId), isTyping));
      } else {
        out := None;
      }
    }
  }

  // ---------------------------------------------------------------------------
  // Properties of the reducer and the translation rule

  /** `new_message` and `message_sent` both put the payload in front; the old list
      follows unchanged and the typing list is untouched. */
  lemma MessageEventsPrepend(feed: Feed, ev: OutEvent)
    requires ev.NewMessage? || ev.MessageSent?
    ensures var r := Reduce(feed, Known(ev));
      && |r.messages| == |feed.messages| + 1
      && r.messages[0] == ev.payload
      && r.messages[1..] == feed.messages
      && r.typingUsers == feed.typingUsers
  {
  }

  /** Adding a name keeps the list duplicate-free, makes the name present exactly
      once, leaves every other name's count alone, and is idempotent. */
  lemma {:induction false} AddIfAbsentProperties<T>(s: seq<T>, x: T, y: T)
    requires Distinct(s)
    ensures Distinct(AddIfAbsent(s, x))
    ensures Count(AddIfAbsent(s, x), y) == if y == x then 1 else Count(s, y)
    ensures AddIfAbsent(AddIfAbsent(s, x), x) == AddIfAbsent(s, x)
  {
    DistinctCountAtMostOne(s, y);
    CountPositiveIffIn(s, y);
    if x !in s {
      CountAppend(s, [x], y);
      assert [x][1..] == [];
      assert (s + [x])[|s|] == x;
    }
  }

  lemma {:induction false} CountAppend<T>(a: seq<T>, b: seq<T>, y: T)
    ensures Count(a + b, y) == Count(a, y) + Count(b, y)
  {
    if a != [] {
      assert (a + b)[0] == a[0];
      assert (a + b)[1..] == a[1..] + b;
      CountAppend(a[1..], b, y);
    } else {
      assert a + b == b;
    }
  }

  lemma {:induction false} CountPositiveIffIn<T>(s: seq<T>, y: T)
    ensures Count(s, y) > 0 <==> y in s
  {
    if s != [] {
      CountPositiveIffIn(s[1..], y);
      assert y in s <==> s[0] == y || y in s[1..];
    }
  }

  lemma {:induction false} DistinctCountAtMostOne<T>(s: seq<T>, y: T)
    requires Distinct(s)
    ensures Count(s, y) <= 1
  {
    if s != [] {
      assert Distinct(s[1..]) by {
        forall i, j | 0 <= i < j < |s[1..]| ensures s[1..][i] != s[1..][j] {
          assert s[1..][i] == s[i + 1] && s[1..][j] == s[j + 1];
        }
      }
      DistinctCountAtMostOne(s[1..], y);
      if s[0] == y {
        assert y !in s[1..];
        CountPositiveIffIn(s[1..], y);
      }
    }
  }

  /** `user_typing` with `isTyping` true: the typing list stays duplicate-free, holds
      the name exactly once, other names keep their counts, and a repeat changes nothing. */
  lemma TypingStartAddsOnce(feed: Feed, u: User, name: DisplayName)
    requires Distinct(feed.typingUsers)
    ensures var f := Known(UserTyping(Some(u), true));
      var r := Reduce(feed, f);
      && Distinct(r.typingUsers)
      && Count(r.typingUsers, u.username) == 1
      && (name != u.username ==> Count(r.typingUsers, name) == Count(feed.typingUsers, name))
      && Reduce(r, f) == r
      && r.messages == feed.messages
  {
    AddIfAbsentProperties(feed.typingUsers, u.username, u.username);
    AddIfAbsentProperties(feed.typingUsers, u.username, name);
  }

  /** `user_typing` with `isTyping` false drops every occurrence of the name; the
      other names keep their counts and their order. */
  lemma TypingStopRemovesAll(feed: Feed, u: User, name: DisplayName, rest: seq<DisplayName>)
    ensures var r := Reduce(feed, Known(UserTyping(Some(u), false)));
      && Count(r.typingUsers, u.username) == 0
      && (name != u.username ==> Count(r.typingUsers, name) == Count(feed.typingUsers, name))
      && RemoveAll(feed.typingUsers + rest, u.username) == r.typingUsers + RemoveAll(rest, u.username)
      && r.messages == feed.messages
  {
    RemoveAllCount(feed.typingUsers, u.username, u.username);
    RemoveAllCount(feed.typingUsers, u.username, name);
    RemoveAllAppend(feed.typingUsers, rest, u.username);
  }

  /** Whatever frame arrives, a duplicate-free typing list stays duplicate-free. */
  lemma ReduceKeepsTypingDistinct(feed: Feed, f: Frame<OutEvent>)
    requires Distinct(feed.typingUsers)
    ensures Distinct(Reduce(feed, f).typingUsers)
  {
    if f.Known? && f.ev.UserTyping? && f.ev.user.Some? {
      var name := f.ev.user.value.username;
      if f.ev.isTyping {
        AddIfAbsentProperties(feed.typingUsers, name, name);
      } else {
        RemoveAllDistinct(feed.typingUsers, name);
      }
    }
  }

  /** Frames that are not one of the three handled shapes leave both lists alone,
      as written and corrected alike. */
  lemma IgnoredFramesChangeNothing(feed: Feed, f: Frame<OutEvent>)
    requires f.Garbled? || f.Unrecognised? || (f.Known? && f.ev.Error?)
    ensures ReduceAsWritten(feed, f) == Some(feed)
    ensures Reduce(feed, f) == feed
  {
  }

  /** The corrected reducer drops a `user_typing` without a user, and agrees with the
      reducer as written on every frame whose updater does not throw. */
  lemma UnknownTypistIsDropped(feed: Feed, f: Frame<OutEvent>)
    ensures f.Known? && f.ev.UserTyping? && f.ev.user.None? ==> Reduce(feed, f) == feed
    ensures ReduceAsWritten(feed, f).Some? ==> ReduceAsWritten(feed, f).value == Reduce(feed, f)
    ensures ReduceAsWritten(feed, f).None? <==>
      f.Known? && f.ev.UserTyping? && f.ev.user.None? && (f.ev.isTyping || feed.typingUsers != [])
  {
  }

  /** Over any run of frames the message list is the message payloads received,
      newest first, in front of the old list. */
  function MessagePayloads(fs: seq<Frame<OutEvent>>): seq<MessageWithUser>
  {
    if fs == [] then []
    else
      MessagePayloads(fs[1..])
        + (match fs[0]
           case Known(NewMessage(p)) => [p]
           case Known(MessageSent(p)) => [p]
           case _ => [])
  }

  lemma {:induction false} ReduceAllMessages(feed: Feed, fs: seq<Frame<OutEvent>>)
    ensures ReduceAll(feed, fs).messages == MessagePayloads(fs) + feed.messages
    decreases |fs|
  {
    if fs != [] {
      ReduceAllMessages(Reduce(feed, fs[0]), fs[1..]);
    }
  }

  /** The placeholder is attached exactly when some character is outside ASCII and
      the user's language is not English. */
  lemma TranslationRule(content: string, language: Option<string>)
    ensures MockTranslation(content, language).Some?
            <==> (exists i :: 0 <= i < |content| && content[i] as int > 0x7F) && language != Some("en")
    ensures MockTranslation(content, language).Some? ==> MockTranslation(content, language).value == MockTranslationText
    ensures OrDefault(language, "ja") == (if language == None || language == Some("") then "ja" else language.value)
  {
  }
}
