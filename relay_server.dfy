/** The WebSocket relay of server/routes.ts: the per-connection `message` handler
    that dispatches `auth`, `join_room`, `send_message` and `typing`, persists
    messages through the storage layer and fans events out over `wss.clients`.

    `Step` is the specification of one handled frame as a function of the whole
    server state; the classes `Storage` and `Relay` are the imperative model whose
    `Handle` is proved to agree with it; the lemmas at the end state the delivery
    guarantees of `Step`. */
module RelayServer {
  import opened Protocol
  import opened Seqs

  /** The fields the handler hangs on a socket (`ws.userId`, `ws.roomId`) and
      whether its readyState is OPEN. */
  datatype Conn = Conn(userId: Option<UserId>, roomId: Option<RoomId>, open: bool)

  /** A row of the room_members table. */
  datatype Membership = Membership(roomId: RoomId, userId: UserId)

  /** Whether each storage call that handling one frame may make throws. */
  datatype Faults = Faults(addMemberThrows: bool, createThrows: bool, getUserThrows: bool)

  /** The observable effects of handling one frame, in the order they happen. */
  datatype Action =
    | Persist(m: Message)
    | RecordMember(mb: Membership)
    | Deliver(to: ConnId, ev: OutEvent)

  /** The client set of the WebSocket server, in iteration order, with each
      client's fields; and the contents of the message store. */
  datatype Server = Server(
    clients: seq<ConnId>,
    conns: map<ConnId, Conn>,
    log: seq<Message>,
    members: seq<Membership>,
    users: map<UserId, User>)

  /** The state after one frame and the effects it produced. */
  datatype Handled = Handled(next: Server, acts: seq<Action>)

  /** Every client occurs once in the iteration order and has exactly one entry of fields. */
  ghost predicate WellFormed(s: Server)
  {
    Distinct(s.clients) && (forall c :: c in s.conns <==> c in s.clients)
  }

  /** The broadcast filter: not the sender, OPEN, and joined to `room`. */
  predicate Eligible(conns: map<ConnId, Conn>, sender: ConnId, room: RoomId, d: ConnId)
  {
    d != sender && d in conns && conns[d].open && conns[d].roomId == Some(room)
  }

  /** `getUser`: the row for `id`, or `undefined` when there is none. */
  function LookupUser(users: map<UserId, User>, id: UserId): (r: Option<User>)
    ensures r.Some? <==> id in users
    ensures r.Some? ==> r.value == users[id]
  {
    if id in users then Some(users[id]) else None
  }

  /** The deliveries of one `wss.clients.forEach` pass, in client order: each one
      carries `ev` to a client that passes the filter. */
  function Broadcast(clients: seq<ConnId>, conns: map<ConnId, Conn>, sender: ConnId, room: RoomId, ev: OutEvent)
    : (r: seq<Action>)
    ensures |r| <= |clients|
    ensures forall i :: 0 <= i < |r| ==>
      r[i].Deliver? && r[i].ev == ev && r[i].to in clients && Eligible(conns, sender, room, r[i].to)
  {
    if clients == [] then []
    else
      var last := clients[|clients| - 1];
      Broadcast(clients[..|clients| - 1], conns, sender, room, ev)
        + (if Eligible(conns, sender, room, last) then [Deliver(last, ev)] else [])
  }

  /** The events delivered to connection `d`, in order. */
  function DeliveriesTo(acts: seq<Action>, d: ConnId): seq<OutEvent>
  {
    if acts == [] then []
    else
      (if acts[0].Deliver? && acts[0].to == d then [acts[0].ev] else [])
        + DeliveriesTo(acts[1..], d)
  }

  /** Whether a frame of type `k` without `data` is dropped before `data` is read:
      for `send_message` and `typing` the guard's `ws.userId && ...` stops at a
      falsy user id. */
  predicate ShortCircuits(k: EventType, c: Conn)
  {
    (k.SendMessageType? || k.TypingType?) && !Truthy(c.userId)
  }

  /** One frame received on connection `sender`, with the outcomes of the storage
      calls given by `faults`. */
  function Step(s: Server, sender: ConnId, f: Frame<InEvent>, faults: Faults): Handled
    requires sender in s.conns
  {
    var c := s.conns[sender];
    match f
    case Garbled => Handled(s, [Deliver(sender, Error(InvalidFormat))])
    case Unrecognised(_) => Handled(s, [])
    case Known(NoData(k)) =>
      if ShortCircuits(k, c) then Handled(s, []) else Handled(s, [Deliver(sender, Error(InvalidFormat))])
    case Known(Auth(u)) => Handled(s.(conns := s.conns[sender := c.(userId := u)]), [])
    case Known(JoinRoom(room)) =>
      var s1 := s.(conns := s.conns[sender := c.(roomId := room)]);
      if !faults.addMemberThrows && room.Some? && c.userId.Some? then
        var mb := Membership(room.value, c.userId.value);
        Handled(s1.(members := s.members + [mb]), [RecordMember(mb)])
      else
        Handled(s1, [])
    case Known(SendMessage(room, content, mt, lang, tr)) =>
      if !Truthy(c.userId) || !Truthy(room) then Handled(s, [])
      else if faults.createThrows then Handled(s, [Deliver(sender, Error(InvalidFormat))])
      else
        var m := Message(|s.log|, room.value, c.userId.value, content, OrDefault(mt, "text"), lang, tr);
        var s1 := s.(log := s.log + [m]);
        if faults.getUserThrows then Handled(s1, [Persist(m), Deliver(sender, Error(InvalidFormat))])
        else
          var p := MessageWithUser(m, LookupUser(s.users, c.userId.value));
          Handled(s1, [Persist(m)] + Broadcast(s.clients, s.conns, sender, room.value, NewMessage(p))
                      + [Deliver(sender, MessageSent(p))])
    case Known(Typing(room, isTyping)) =>
      if !Truthy(c.userId) || !Truthy(room) then Handled(s, [])
      else if faults.getUserThrows then Handled(s, [Deliver(sender, Error(InvalidFormat))])
      else
        var u := LookupUser(s.users, c.userId.value);
        Handled(s, Broadcast(s.clients, s.conns, sender, room.value, UserTyping(u, isTyping)))
  }

  /** The `wss.clients.forEach` loop: deliver `ev` to every eligible client. */
  method FanOut(clients: seq<ConnId>, conns: map<ConnId, Conn>, sender: ConnId, room: RoomId, ev: OutEvent)
    returns (acts: seq<Action>)
    ensures acts == Broadcast(clients, conns, sender, room, ev)
  {
    acts := [];
    var i := 0;
    while i < |clients|
      invariant 0 <= i <= |clients|
      invariant acts == Broadcast(clients[..i], conns, sender, room, ev)
    {
      var client := clients[i];
      if Eligible(conns, sender, room, client) {
        acts := acts + [Deliver(client, ev)];
      }
      assert clients[..i + 1][..i] == clients[..i];
      i := i + 1;
    }
    assert clients[..|clients|] == clients;
  }

  /** The storage layer as the relay sees it: an in-memory message log, the
      room_members rows and the users table. Each call takes whether it throws. */
  class Storage {
    var log: seq<Message>
    var members: seq<Membership>
    var users: map<UserId, User>

    constructor (users: map<UserId, User>)
      ensures log == [] && members == [] && this.users == users
    {
      log := [];
      members := [];
      this.users := users;
    }

    /** `addRoomMember`: inserts a row unless the call throws; both columns are
        NOT NULL, so an undefined room or user is always rejected. */
    method AddRoomMember(roomId: Option<RoomId>, userId: Option<UserId>, throws: bool) returns (ok: bool)
      modifies this
      ensures ok <==> !throws && roomId.Some? && userId.Some?
      ensures members == if ok then old(members) + [Membership(roomId.value, userId.value)] else old(members)
      ensures log == old(log) && users == old(users)
    {
      ok := !throws && roomId.Some? && userId.Some?;
      if ok {
        members := members + [Membership(roomId.value, userId.value)];
      }
    }

    /** `createMessage`: appends the new row to the log and returns it, unless the call throws. */
    method CreateMessage(roomId: RoomId, userId: UserId, content: string, messageType: string,
                         lang: Option<string>, translated: Option<string>, throws: bool)
      returns (r: Option<Message>)
      modifies this
      ensures r.None? <==> throws
      ensures r.Some? ==> r.value == Message(|old(log)|, roomId, userId, content, messageType, lang, translated)
      ensures log == if r.Some? then old(log) + [r.value] else old(log)
      ensures members == old(members) && users == old(users)
    {
      if throws {
        r := None;
      } else {
        var m := Message(|log|, roomId, userId, content, messageType, lang, translated);
        log := log + [m];
        r := Some(m);
      }
    }

    /** `getUser`: the user's row, `undefined` when absent; `ok` is false when the call throws. */
    method GetUser(id: UserId, throws: bool) returns (ok: bool, user: Option<User>)
      ensures ok == !throws
      ensures ok ==> user == LookupUser(users, id)
    {
      ok := !throws;
      user := if id in users then Some(users[id]) else None;
    }
  }

  /** The WebSocket server `wss` with its `message` handler. */
  class Relay {
    const store: Storage
    var clients: seq<ConnId>
    var conns: map<ConnId, Conn>
    var nextId: ConnId

    ghost predicate Valid()
      reads this, store
    {
      WellFormed(State()) && (forall i :: 0 <= i < |clients| ==> clients[i] < nextId)
    }

    function State(): Server
      reads this, store
    {
      Server(clients, conns, store.log, store.members, store.users)
    }

    constructor (users: map<UserId, User>)
      ensures Valid() && fresh(store)
      ensures State() == Server([], map[], [], [], users)
    {
      store := new Storage(users);
      clients := [];
      conns := map[];
      nextId := 0;
    }

    /** A new connection is accepted: no identity, no room, OPEN, iterated last. */
    method Accept() returns (id: ConnId)
      requires Valid()
      modifies this
      ensures Valid()
      ensures id !in old(conns)
      ensures State() == old(State()).(clients := old(clients) + [id], conns := old(conns)[id := Conn(None, None, true)])
    {
      id := nextId;
      nextId := nextId + 1;
      clients := clients + [id];
      conns := conns[id := Conn(None, None, true)];
    }

    /** The socket leaves the OPEN state (closing has begun) but is still a client. */
    method StartClose(id: ConnId)
      requires Valid() && id in conns
      modifies this
      ensures Valid()
      ensures State() == old(State()).(conns := old(conns)[id := old(conns)[id].(open := false)])
    {
      conns := conns[id := conns[id].(open := false)];
    }

    /** On `close` the socket is no longer among `wss.clients`; the handler itself only logs. */
    method Drop(id: ConnId)
      requires Valid()
      modifies this
      ensures Valid()
      ensures State() == old(State()).(clients := RemoveAll(old(clients), id), conns := old(conns) - {id})
    {
      RemoveAllDistinct(clients, id);
      clients := RemoveAll(clients, id);
      conns := conns - {id};
    }

    /** The `ws.on('message')` handler for connection `sender`. */
    method Handle(sender: ConnId, f: Frame<InEvent>, faults: Faults) returns (acts: seq<Action>)
      requires Valid() && sender in conns
      modifies this, store
      ensures Valid()
      ensures Step(old(State()), sender, f, faults) == Handled(State(), acts)
    {
      var c := conns[sender];
      match f {
        case Garbled =>
          acts := [Deliver(sender, Error(InvalidFormat))];
        case Unrecognised(_) =>
          acts := [];
        case Known(ev) =>
          match ev {
            case NoData(k) =>
              if ShortCircuits(k, c) {
                acts := [];
              } else {
                acts := [Deliver(sender, Error(InvalidFormat))];
              }
            case Auth(u) =>
              conns := conns[sender := c.(userId := u)];
              acts := [];
            case JoinRoom(room) =>
              conns := conns[sender := c.(roomId := room)];
              var ok := store.AddRoomMember(room, c.userId, faults.addMemberThrows);
              acts := if ok then [RecordMember(Membership(room.value, c.userId.value))] else [];
            case SendMessage(room, content, mt, lang, tr) =>
              if Truthy(c.userId) && Truthy(room) {
                var m := store.CreateMessage(room.value, c.userId.value, content, OrDefault(mt, "text"),
                                             lang, tr, faults.createThrows);
                if m.None? {
                  acts := [Deliver(sender, Error(InvalidFormat))];
                } else {
                  var ok, user := store.GetUser(c.userId.value, faults.getUserThrows);
                  if !ok {
                    acts := [Persist(m.value), Deliver(sender, Error(InvalidFormat))];
                  } else {
                    var p := MessageWithUser(m.value, user);
                    var fan := FanOut(clients, conns, sender, room.value, NewMessage(p));
                    acts := [Persist(m.value)] + fan + [Deliver(sender, MessageSent(p))];
                  }
                }
              } else {
                acts := [];
              }
            case Typing(room, isTyping) =>
              if Truthy(c.userId) && Truthy(room) {
                var ok, user := store.GetUser(c.userId.value, faults.getUserThrows);
                if !ok {
                  acts := [Deliver(sender, Error(InvalidFormat))];
                } else {
                  acts := FanOut(clients, conns, sender, room.value, UserTyping(user, isTyping));
                }
              } else {
                acts := [];
              }
          }
      }
    }
  }

  // ---------------------------------------------------------------------------
  // Delivery bookkeeping

  lemma {:induction false} DeliveriesAppend(a: seq<Action>, b: seq<Action>, d: ConnId)
    ensures DeliveriesTo(a + b, d) == DeliveriesTo(a, d) + DeliveriesTo(b, d)
  {
    if a != [] {
      assert (a + b)[0] == a[0];
      assert (a + b)[1..] == a[1..] + b;
      DeliveriesAppend(a[1..], b, d);
    } else {
      assert a + b == b;
    }
  }

  /** A connection no action is addressed to receives nothing. */
  lemma {:induction false} DeliveriesNone(acts: seq<Action>, d: ConnId)
    requires forall i :: 0 <= i < |acts| && acts[i].Deliver? ==> acts[i].to != d
    ensures DeliveriesTo(acts, d) == []
  {
    if acts != [] {
      DeliveriesNone(acts[1..], d);
    }
  }

  /** One broadcast pass reaches each eligible client exactly once and nobody else. */
  lemma {:induction false} BroadcastReachesEachOnce(clients: seq<ConnId>, conns: map<ConnId, Conn>, sender: ConnId,
                                                    room: RoomId, ev: OutEvent, d: ConnId)
    requires Distinct(clients)
    ensures DeliveriesTo(Broadcast(clients, conns, sender, room, ev), d)
         == if d in clients && Eligible(conns, sender, room, d) then [ev] else []
  {
    if clients != [] {
      var init := clients[..|clients| - 1];
      var last := clients[|clients| - 1];
      assert clients == init + [last];
      assert Distinct(init) by {
        forall i, j | 0 <= i < j < |init| ensures init[i] != init[j] {
          assert init[i] == clients[i] && init[j] == clients[j];
        }
      }
      assert last !in init by {
        forall i | 0 <= i < |init| ensures init[i] != last {
          assert init[i] == clients[i];
        }
      }
      BroadcastReachesEachOnce(init, conns, sender, room, ev, d);
      var tail := if Eligible(conns, sender, room, last) then [Deliver(last, ev)] else [];
      DeliveriesAppend(Broadcast(init, conns, sender, room, ev), tail, d);
      assert DeliveriesTo(tail, d) == if d == last && Eligible(conns, sender, room, d) then [ev] else [] by {
        if tail != [] {
          assert tail[1..] == [];
        }
      }
    }
  }

  // ---------------------------------------------------------------------------
  // Properties of one handled frame

  /** Handling a frame keeps the registry well formed and changes only the
      sender's own fields, and never its OPEN flag; the store only grows and the
      users table is only read. */
  lemma StepTouchesOnlySender(s: Server, sender: ConnId, f: Frame<InEvent>, faults: Faults)
    requires WellFormed(s) && sender in s.conns
    ensures var h := Step(s, sender, f, faults);
      && WellFormed(h.next)
      && h.next.clients == s.clients
      && h.next.conns.Keys == s.conns.Keys
      && (forall d :: d in s.conns && d != sender ==> h.next.conns[d] == s.conns[d])
      && h.next.conns[sender].open == s.conns[sender].open
      && s.log <= h.next.log && |h.next.log| <= |s.log| + 1
      && s.members <= h.next.members && |h.next.members| <= |s.members| + 1
      && h.next.users == s.users
  {
  }

  /** `auth` overwrites the identity (last write wins), sends nothing and touches no storage. */
  lemma AuthLastWriteWins(s: Server, sender: ConnId, u: Option<UserId>, faults: Faults)
    requires sender in s.conns
    ensures var h := Step(s, sender, Known(Auth(u)), faults);
      && h.next.conns[sender].userId == u
      && h.next.conns[sender].roomId == s.conns[sender].roomId
      && h.next.log == s.log && h.next.members == s.members
      && h.acts == []
  {
  }

  /** `join_room` replaces the room whatever `addRoomMember` does; a thrown
      `addRoomMember` is swallowed, and nothing is ever sent. */
  lemma JoinRoomReplacesRoom(s: Server, sender: ConnId, room: Option<RoomId>, faults: Faults)
    requires sender in s.conns
    ensures var h := Step(s, sender, Known(JoinRoom(room)), faults);
      var uid := s.conns[sender].userId;
      && h.next.conns[sender].roomId == room
      && h.next.conns[sender].userId == uid
      && h.next.log == s.log
      && h.next.members == (if !faults.addMemberThrows && room.Some? && uid.Some?
                            then s.members + [Membership(room.value, uid.value)] else s.members)
      && (forall d :: DeliveriesTo(h.acts, d) == [])
  {
    var h := Step(s, sender, Known(JoinRoom(room)), faults);
    forall d ensures DeliveriesTo(h.acts, d) == [] {
      DeliveriesNone(h.acts, d);
    }
  }

  /** `send_message` and `typing` from a connection without an identity, or naming
      no room, do nothing at all. */
  lemma GuardedEventsNeedUserAndRoom(s: Server, sender: ConnId, f: Frame<InEvent>, faults: Faults)
    requires sender in s.conns
    requires f.Known? && (f.ev.SendMessage? || f.ev.Typing?)
    requires !Truthy(s.conns[sender].userId) || !Truthy(f.ev.roomId)
    ensures Step(s, sender, f, faults) == Handled(s, [])
  {
  }

  /** A handled `type` without `data` throws on the first read of a field, and so
      replies `error`, unless the guard of `send_message` / `typing` stops at a
      falsy user id first; either way no state changes. */
  lemma MissingDataErrorsUnlessShortCircuited(s: Server, sender: ConnId, k: EventType, faults: Faults)
    requires sender in s.conns
    ensures var h := Step(s, sender, Known(NoData(k)), faults);
      var uid := s.conns[sender].userId;
      && h.next == s
      && (h.acts == [] <==> (k == SendMessageType || k == TypingType) && !Truthy(uid))
      && (h.acts != [] ==> h.acts == [Deliver(sender, Error(InvalidFormat))])
  {
  }

  /** The message a valid `send_message` stores: in the room the event names
      (not the one the sender joined), by the sender's identity, type defaulting to text. */
  function StoredMessage(s: Server, sender: ConnId, ev: InEvent): Message
    requires sender in s.conns && ev.SendMessage?
    requires Truthy(s.conns[sender].userId) && Truthy(ev.roomId)
  {
    Message(|s.log|, ev.roomId.value, s.conns[sender].userId.value, ev.content,
            OrDefault(ev.messageType, "text"), ev.originalLanguage, ev.translatedContent)
  }

  /** A valid send whose `createMessage` succeeds persists exactly one message,
      and does so before any event goes out. */
  lemma SendPersistsBeforeDelivering(s: Server, sender: ConnId, ev: InEvent, faults: Faults)
    requires sender in s.conns && ev.SendMessage?
    requires Truthy(s.conns[sender].userId) && Truthy(ev.roomId)
    requires !faults.createThrows
    ensures var h := Step(s, sender, Known(ev), faults);
      var m := StoredMessage(s, sender, ev);
      && h.next.log == s.log + [m]
      && m.roomId == ev.roomId.value
      && (!Truthy(ev.messageType) ==> m.messageType == "text")
      && |h.acts| >= 2 && h.acts[0] == Persist(m)
      && (forall i :: 1 <= i < |h.acts| ==> h.acts[i].Deliver?)
  {
  }

  /** The effects of a valid send whose storage calls both succeed. */
  lemma SendSucceeds(s: Server, sender: ConnId, ev: InEvent, faults: Faults)
    requires sender in s.conns && ev.SendMessage?
    requires Truthy(s.conns[sender].userId) && Truthy(ev.roomId)
    requires !faults.createThrows && !faults.getUserThrows
    ensures var m := StoredMessage(s, sender, ev);
      var p := MessageWithUser(m, LookupUser(s.users, s.conns[sender].userId.value));
      Step(s, sender, Known(ev), faults)
        == Handled(s.(log := s.log + [m]),
                   [Persist(m)] + Broadcast(s.clients, s.conns, sender, ev.roomId.value, NewMessage(p))
                     + [Deliver(sender, MessageSent(p))])
  {
  }

  /** Once stored and with the author's profile read, the message goes as
      `new_message` exactly once to each other OPEN connection in the named room,
      to no one else, and as exactly one `message_sent` to the sender. */
  lemma SendReachesRoomOnce(s: Server, sender: ConnId, ev: InEvent, faults: Faults, d: ConnId)
    requires WellFormed(s) && sender in s.conns && ev.SendMessage?
    requires Truthy(s.conns[sender].userId) && Truthy(ev.roomId)
    requires !faults.createThrows && !faults.getUserThrows
    ensures var h := Step(s, sender, Known(ev), faults);
      var p := MessageWithUser(StoredMessage(s, sender, ev), LookupUser(s.users, s.conns[sender].userId.value));
      DeliveriesTo(h.acts, d)
        == if d == sender then [MessageSent(p)]
           else if Eligible(s.conns, sender, ev.roomId.value, d) then [NewMessage(p)]
           else []
  {
    var m := StoredMessage(s, sender, ev);
    var p := MessageWithUser(m, LookupUser(s.users, s.conns[sender].userId.value));
    var fan := Broadcast(s.clients, s.conns, sender, ev.roomId.value, NewMessage(p));
    var confirm := [Deliver(sender, MessageSent(p))];
    assert Step(s, sender, Known(ev), faults).acts == [Persist(m)] + fan + confirm by {
      SendSucceeds(s, sender, ev, faults);
    }
    DeliveriesAppend([Persist(m)], fan, d);
    DeliveriesAppend([Persist(m)] + fan, confirm, d);
    BroadcastReachesEachOnce(s.clients, s.conns, sender, ev.roomId.value, NewMessage(p), d);
    assert DeliveriesTo([Persist(m)], d) == [] by { DeliveriesNone([Persist(m)], d); }
    assert DeliveriesTo(confirm, d) == if d == sender then [MessageSent(p)] else [] by {
      assert confirm[1..] == [];
    }
  }

  /** A valid `typing` stores nothing, changes no state and sends one `user_typing`
      with the flag to each other OPEN connection in the named room, and to no one else. */
  lemma TypingReachesRoomOnce(s: Server, sender: ConnId, room: Option<RoomId>, isTyping: bool,
                              faults: Faults, d: ConnId)
    requires WellFormed(s) && sender in s.conns
    requires Truthy(s.conns[sender].userId) && Truthy(room)
    requires !faults.getUserThrows
    ensures var h := Step(s, sender, Known(Typing(room, isTyping)), faults);
      var u := LookupUser(s.users, s.conns[sender].userId.value);
      && h.next == s
      && (forall i :: 0 <= i < |h.acts| ==> !h.acts[i].Persist?)
      && DeliveriesTo(h.acts, d)
           == if Eligible(s.conns, sender, room.value, d) then [UserTyping(u, isTyping)] else []
  {
    var u := LookupUser(s.users, s.conns[sender].userId.value);
    BroadcastReachesEachOnce(s.clients, s.conns, sender, room.value, UserTyping(u, isTyping), d);
  }

  /** The frame reaches the handler's `catch`: unparseable or `null`, a field read
      of a missing `data`, or a storage call of a valid send or typing event threw. */
  predicate Throws(s: Server, sender: ConnId, f: Frame<InEvent>, faults: Faults)
    requires sender in s.conns
  {
    var c := s.conns[sender];
    match f
    case Garbled => true
    case Unrecognised(_) => false
    case Known(ev) =>
      match ev
      case NoData(k) => !ShortCircuits(k, c)
      case SendMessage(room, _, _, _, _) =>
        Truthy(c.userId) && Truthy(room) && (faults.createThrows || faults.getUserThrows)
      case Typing(room, _) =>
        Truthy(c.userId) && Truthy(room) && faults.getUserThrows
      case _ => false
  }

  /** A frame that throws gets exactly one `error` back to its own connection and
      sends nothing to anyone else; no connection's fields change, and the only
      store change is a message already persisted before `getUser` threw. */
  lemma ThrowRepliesErrorToSenderOnly(s: Server, sender: ConnId, f: Frame<InEvent>, faults: Faults, d: ConnId)
    requires sender in s.conns && Throws(s, sender, f, faults)
    ensures var h := Step(s, sender, f, faults);
      && DeliveriesTo(h.acts, d) == (if d == sender then [Error(InvalidFormat)] else [])
      && h.next.conns == s.conns
      && h.next.members == s.members
      && h.next.log == (if f.Known? && f.ev.SendMessage? && !faults.createThrows
                        then s.log + [StoredMessage(s, sender, f.ev)] else s.log)
  {
    var h := Step(s, sender, f, faults);
    if f.Known? && f.ev.SendMessage? && !faults.createThrows {
      var m := StoredMessage(s, sender, f.ev);
      assert h.acts == [Persist(m)] + [Deliver(sender, Error(InvalidFormat))];
      DeliveriesAppend([Persist(m)], [Deliver(sender, Error(InvalidFormat))], d);
      assert [Persist(m)][1..] == [];
    }
  }

  /** Conversely, an `error` event is sent only when the frame throws. */
  lemma ErrorOnlyWhenThrown(s: Server, sender: ConnId, f: Frame<InEvent>, faults: Faults)
    requires sender in s.conns && !Throws(s, sender, f, faults)
    ensures var h := Step(s, sender, f, faults);
      forall i :: 0 <= i < |h.acts| && h.acts[i].Deliver? ==> !h.acts[i].ev.Error?
  {
  }

  /** A frame whose `type` no branch handles changes nothing and sends nothing. */
  lemma UnrecognisedIsIgnored(s: Server, sender: ConnId, tag: string, faults: Faults)
    requires sender in s.conns
    ensures Step(s, sender, Unrecognised(tag), faults) == Handled(s, [])
  {
  }

  /** A connection no longer among the clients is sent nothing by any frame. */
  lemma DroppedReceivesNothing(s: Server, sender: ConnId, f: Frame<InEvent>, faults: Faults, d: ConnId)
    requires WellFormed(s) && sender in s.conns && d !in s.conns
    ensures DeliveriesTo(Step(s, sender, f, faults).acts, d) == []
  {
    DeliveriesNone(Step(s, sender, f, faults).acts, d);
  }
}
