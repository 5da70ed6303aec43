/** What the server relay and the browser hook guarantee together: the opening
    handshake binds a connection to its user and room, a sender's own message
    enters its list once through the confirmation, and every other OPEN member of
    the room gets it once through the broadcast. */
module EndToEnd {
  import opened Protocol
  import opened Seqs
  import opened RelayServer
  import opened ChatClient

  /** The events a connection receives, as the frames its `onmessage` parses. */
  function AsFrames(evs: seq<OutEvent>): seq<Frame<OutEvent>>
  {
    seq(|evs|, i requires 0 <= i < |evs| => Known(evs[i]))
  }

  /** The `auth` then `join_room` that `onopen` sends, handled in that order, leave
      the connection with the user's identity and the hook's room, whatever
      `addRoomMember` does, and deliver nothing. */
  lemma HandshakeBindsUserAndRoom(s: Server, c: ConnId, user: User, room: RoomId, f1: Faults, f2: Faults)
    requires WellFormed(s) && c in s.conns
    ensures var h1 := Step(s, c, Known(Auth(Some(user.id))), f1);
      var h2 := Step(h1.next, c, Known(JoinRoom(Some(room))), f2);
      && h2.next.conns[c] == s.conns[c].(userId := Some(user.id), roomId := Some(room))
      && WellFormed(h2.next)
      && (forall d :: DeliveriesTo(h1.acts + h2.acts, d) == [])
  {
    var h1 := Step(s, c, Known(Auth(Some(user.id))), f1);
    var h2 := Step(h1.next, c, Known(JoinRoom(Some(room))), f2);
    StepTouchesOnlySender(s, c, Known(Auth(Some(user.id))), f1);
    StepTouchesOnlySender(h1.next, c, Known(JoinRoom(Some(room))), f2);
    forall d ensures DeliveriesTo(h1.acts + h2.acts, d) == [] {
      DeliveriesNone(h1.acts + h2.acts, d);
    }
  }

  /** While the sender's socket is OPEN, so that its `send` reaches the browser, its
      own message enters its message list exactly once, through `message_sent`;
      the broadcast never hands it a `new_message`. */
  lemma SenderGetsOwnMessageOnce(s: Server, sender: ConnId, ev: InEvent, faults: Faults, feed: Feed)
    requires WellFormed(s) && sender in s.conns && s.conns[sender].open && ev.SendMessage?
    requires Truthy(s.conns[sender].userId) && Truthy(ev.roomId)
    requires !faults.createThrows && !faults.getUserThrows
    ensures var h := Step(s, sender, Known(ev), faults);
      var p := MessageWithUser(StoredMessage(s, sender, ev), LookupUser(s.users, s.conns[sender].userId.value));
      var mine := DeliveriesTo(h.acts, sender);
      && NewMessage(p) !in mine
      && Count(mine, MessageSent(p)) == 1
      && ReduceAll(feed, AsFrames(mine)) == feed.(messages := [p] + feed.messages)
  {
    var p := MessageWithUser(StoredMessage(s, sender, ev), LookupUser(s.users, s.conns[sender].userId.value));
    SendReachesRoomOnce(s, sender, ev, faults, sender);
    assert AsFrames([MessageSent(p)]) == [Known(MessageSent(p))];
    assert [MessageSent(p)][1..] == [];
  }

  /** Every other OPEN connection in the named room adds the message to its list
      exactly once, through `new_message`; any other connection's lists stay as they were. */
  lemma RoomMatesGetMessageOnce(s: Server, sender: ConnId, ev: InEvent, faults: Faults, d: ConnId, feed: Feed)
    requires WellFormed(s) && sender in s.conns && ev.SendMessage? && d != sender
    requires Truthy(s.conns[sender].userId) && Truthy(ev.roomId)
    requires !faults.createThrows && !faults.getUserThrows
    ensures var h := Step(s, sender, Known(ev), faults);
      var p := MessageWithUser(StoredMessage(s, sender, ev), LookupUser(s.users, s.conns[sender].userId.value));
      ReduceAll(feed, AsFrames(DeliveriesTo(h.acts, d)))
        == if Eligible(s.conns, sender, ev.roomId.value, d) then feed.(messages := [p] + feed.messages) else feed
  {
    var p := MessageWithUser(StoredMessage(s, sender, ev), LookupUser(s.users, s.conns[sender].userId.value));
    SendReachesRoomOnce(s, sender, ev, faults, d);
    assert AsFrames([NewMessage(p)]) == [Known(NewMessage(p))];
    assert AsFrames([]) == [];
  }

  /** `auth` stores any user id unchecked, so a connection may name a user with no
      row. Its `typing` then reaches each room mate as `user_typing` without a
      user, and the reducer as written throws outside its `try`: the room mate's
      render fails, where the corrected reducer leaves its lists alone. */
  lemma UnknownTypistFailsRoomMates(s: Server, sender: ConnId, room: RoomId, d: ConnId, feed: Feed)
    requires WellFormed(s) && sender in s.conns
    requires Truthy(s.conns[sender].userId) && s.conns[sender].userId.value !in s.users
    requires room != "" && Eligible(s.conns, sender, room, d)
    ensures var h := Step(s, sender, Known(Typing(Some(room), true)), Faults(false, false, false));
      var evs := DeliveriesTo(h.acts, d);
      && |evs| == 1
      && ReduceAsWritten(feed, Known(evs[0])).None?
      && Reduce(feed, Known(evs[0])) == feed
  {
    TypingReachesRoomOnce(s, sender, Some(room), true, Faults(false, false, false), d);
  }

  /** A `send_message` built by the hook, handled for an identified connection, stores
      the text with the requested type, the sender's language and the placeholder
      translation verbatim, in the hook's room. */
  lemma ClientSendIsStoredVerbatim(s: Server, sender: ConnId, room: RoomId, content: string,
                                   messageType: string, user: User, faults: Faults)
    requires sender in s.conns && Truthy(s.conns[sender].userId) && room != "" && messageType != ""
    requires !faults.createThrows
    ensures var ev := InEvent.SendMessage(Some(room), content, Some(messageType),
                                          Some(OrDefault(user.language, "ja")),
                                          MockTranslation(content, user.language));
      var h := Step(s, sender, Known(ev), faults);
      && |h.next.log| == |s.log| + 1
      && var m := h.next.log[|s.log|];
      && m.roomId == room && m.content == content && m.messageType == messageType
      && m.originalLanguage == Some(OrDefault(user.language, "ja"))
      && m.translatedContent == MockTranslation(content, user.language)
  {
  }
}
