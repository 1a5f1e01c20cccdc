/**
 * The socket server's presence, room and call coordinator (index.js):
 * which socket each user registered from, which users take part in each
 * active call, and the transport's room membership, with one method per
 * socket event. Every method returns the events it emits.
 */
module Signaling {
  import opened Wrappers
  import Chats

  type UserId = string
  type RoomId = string

  /** Socket.IO socket ids are never empty, so a looked-up socket id is always truthy. */
  type SocketId = s: string | s != "" witness "socket"

  /** WebRTC negotiation data, relayed without being read. */
  datatype Signal = Offer(offer: string) | Answer(answer: string) | IceCandidate(candidate: string)

  /** What the server sends to clients. */
  datatype Event =
    | ChatData(chat: Option<Chats.Chat>)              // `null` when the chat was not found
    | IncomingCall(callerId: UserId, chatId: RoomId)
    | CallAccepted(roomId: RoomId)
    | CallRejected
    | PeerDisconnected(userId: UserId)
    | CallEnded
    | Relayed(signal: Signal)

  /** How an emit is addressed in the source. */
  datatype Target =
    | ToSocket(socket: SocketId)                      // `socket.emit`, `io.to(socketId)`
    | ToRoom(room: RoomId)                            // `io.to(roomId)`
    | ToRoomExcept(room: RoomId, sender: SocketId)    // `socket.to(roomId)`

  /** One emit: its address, the sockets it reaches at that moment, and the event. */
  datatype Emit = Emit(target: Target, recipients: set<SocketId>, event: Event)

  /** What awaiting a chat fetch gives: the chat, `null`, or a thrown error. */
  datatype FetchResult = Found(chat: Chats.Chat) | NotFound | FetchFailed

  // ---------------------------------------------------------------------------
  // The transport's rooms (the Socket.IO adapter): a room exists while it has members.

  type Rooms = map<RoomId, set<SocketId>>

  /** `io.sockets.adapter.rooms.get(room)`: the room's sockets, none for a room that does not exist. */
  function MembersOf(rooms: Rooms, room: RoomId): (r: set<SocketId>)
    ensures room in rooms ==> r == rooms[room]
    ensures room !in rooms ==> r == {}
    ensures NoEmptyRoom(rooms) ==> (r != {} <==> room in rooms)
  {
    if room in rooms then rooms[room] else {}
  }

  /** `io.to(socketId)` reaches that socket while it is connected. */
  function ReachOf(sockets: set<SocketId>, sid: SocketId): (r: set<SocketId>)
    ensures r <= {sid}
    ensures sid in r <==> sid in sockets
  {
    if sid in sockets then {sid} else {}
  }

  ghost predicate NoEmptyRoom(rooms: Rooms)
  {
    forall room :: room in rooms ==> rooms[room] != {}
  }

  /** `socket.join(room)`. */
  function JoinRoom(rooms: Rooms, room: RoomId, s: SocketId): (after: Rooms)
    ensures MembersOf(after, room) == MembersOf(rooms, room) + {s}
    ensures forall q :: q != room ==> MembersOf(after, q) == MembersOf(rooms, q)
    ensures after.Keys == rooms.Keys + {room}
    ensures NoEmptyRoom(rooms) ==> NoEmptyRoom(after)
  {
    rooms[room := MembersOf(rooms, room) + {s}]
  }

  /** `socket.leave(room)`: the adapter deletes a room once its last member leaves. */
  function LeaveRoom(rooms: Rooms, room: RoomId, s: SocketId): (after: Rooms)
    ensures MembersOf(after, room) == MembersOf(rooms, room) - {s}
    ensures forall q :: q != room ==> MembersOf(after, q) == MembersOf(rooms, q)
    ensures s !in MembersOf(rooms, room) ==> after == rooms
    ensures NoEmptyRoom(rooms) ==> NoEmptyRoom(after)
  {
    if room in rooms && s in rooms[room] then
      if rooms[room] - {s} == {} then rooms - {room} else rooms[room := rooms[room] - {s}]
    else rooms
  }

  /** What Socket.IO does to a socket's rooms before it runs the `disconnect` handler: it leaves them all. */
  function LeaveAll(rooms: Rooms, s: SocketId): (after: Rooms)
    ensures forall q :: MembersOf(after, q) == MembersOf(rooms, q) - {s}
    ensures NoEmptyRoom(after)
  {
    map q | q in rooms && rooms[q] - {s} != {} :: rooms[q] - {s}
  }

  // ---------------------------------------------------------------------------
  // Insertion order of a JavaScript Map's keys: `set` of a new key appends it,
  // `set` of an existing key keeps its place, `delete` removes it.

  ghost predicate Distinct<T>(s: seq<T>)
  {
    forall i, j :: 0 <= i < j < |s| ==> s[i] != s[j]
  }

  /** `r` is `s` with some elements left out and the rest in their order. */
  ghost predicate Subsequence<T>(r: seq<T>, s: seq<T>)
    decreases |s|
  {
    r == [] ||
    (s != [] && ((r[|r| - 1] == s[|s| - 1] && Subsequence(r[..|r| - 1], s[..|s| - 1]))
                 || Subsequence(r, s[..|s| - 1])))
  }

  /** A subsequence stays one when the same element is put in front of both, or in front of `s` alone. */
  lemma {:induction false} SubsequenceCons<T>(a: T, r: seq<T>, s: seq<T>)
    requires Subsequence(r, s)
    ensures Subsequence([a] + r, [a] + s) && Subsequence(r, [a] + s)
    decreases |s|
  {
    if s == [] {
      assert r == [];
      assert ([a] + r)[..0] == [] && ([a] + s)[..0] == [];
    } else {
      var s' := s[..|s| - 1];
      assert ([a] + s)[..|[a] + s| - 1] == [a] + s';
      if r == [] {
        SubsequenceCons(a, r, s');
      } else {
        var r' := r[..|r| - 1];
        assert ([a] + r)[..|[a] + r| - 1] == [a] + r';
        if r[|r| - 1] == s[|s| - 1] && Subsequence(r', s') {
          SubsequenceCons(a, r', s');
        } else {
          SubsequenceCons(a, r, s');
        }
      }
    }
  }

  /** The key order after `delete(x)`. */
  function Remove(s: seq<string>, x: string): (r: seq<string>)
    ensures forall y :: y in r <==> y in s && y != x
    ensures Distinct(s) ==> Distinct(r)
    ensures |r| <= |s|
    ensures Subsequence(r, s)
  {
    if s == [] then []
    else
      var rest := Remove(s[1..], x);
      SubsequenceCons(s[0], rest, s[1..]);
      assert [s[0]] + s[1..] == s;
      if s[0] == x then rest
      else
        assert Distinct(s) ==> s[0] !in rest;
        [s[0]] + rest
  }

  lemma {:induction false} RemoveAbsent(s: seq<string>, x: string)
    requires x !in s
    ensures Remove(s, x) == s
  {
    if s != [] {
      RemoveAbsent(s[1..], x);
    }
  }

  lemma {:induction false} RemoveAppend(a: seq<string>, b: seq<string>, x: string)
    ensures Remove(a + b, x) == Remove(a, x) + Remove(b, x)
  {
    if a != [] {
      var ab := a + b;
      assert ab[0] == a[0] && ab[1..] == a[1..] + b;
      RemoveAppend(a[1..], b, x);
      if a[0] == x {
        assert Remove(ab, x) == Remove(a[1..] + b, x);
        assert Remove(a, x) == Remove(a[1..], x);
      } else {
        assert Remove(ab, x) == [a[0]] + Remove(a[1..] + b, x);
        assert Remove(a, x) == [a[0]] + Remove(a[1..], x);
        assert [a[0]] + (Remove(a[1..], x) + Remove(b, x)) == ([a[0]] + Remove(a[1..], x)) + Remove(b, x);
      }
    } else {
      assert a + b == b;
    }
  }

  /** The key order after `set(k, v)`. */
  function Upserted(s: seq<string>, k: string): (r: seq<string>)
    ensures forall y :: y in r <==> y in s || y == k
    ensures Distinct(s) ==> Distinct(r)
    ensures |s| <= |r| <= |s| + 1 && forall i :: 0 <= i < |s| ==> r[i] == s[i]
  {
    if k in s then s else s + [k]
  }

  // ---------------------------------------------------------------------------
  // What `disconnect` does, stated on values.

  /**
   * The position of the first user, in registration order, whose socket
   * is `s`; `|users|` when there is none.
   */
  function FirstOwner(users: seq<UserId>, connected: map<UserId, SocketId>, s: SocketId): (i: nat)
    requires forall u :: u in users ==> u in connected
    ensures i <= |users|
    ensures forall k :: 0 <= k < i ==> connected[users[k]] != s
    ensures i < |users| ==> connected[users[i]] == s
  {
    if users == [] then 0
    else if connected[users[0]] == s then 0
    else 1 + FirstOwner(users[1..], connected, s)
  }

  /**
   * The calls after user `u` drops out: `u` leaves every participant set,
   * and a call left with fewer than two participants is deleted.
   */
  function DropParticipant(active: map<RoomId, set<UserId>>, u: UserId): (after: map<RoomId, set<UserId>>)
    ensures after.Keys <= active.Keys
    ensures forall q :: q in after ==> u !in after[q]
    ensures forall q :: q in active && u !in active[q] ==> q in after && after[q] == active[q]
    ensures forall q :: q in active && u in active[q] ==>
              (q !in after <==> |active[q] - {u}| < 2) && (q in after ==> after[q] == active[q] - {u})
    ensures (forall q :: q in active ==> active[q] != {}) ==> forall q :: q in after ==> after[q] != {}
  {
    map q | q in active && (u !in active[q] || |active[q] - {u}| >= 2) :: active[q] - {u}
  }

  /** Whether call `q` outlives user `u` dropping out. */
  predicate Survives(active: map<RoomId, set<UserId>>, q: RoomId, u: UserId)
    requires q in active
  {
    u !in active[q] || |active[q] - {u}| >= 2
  }

  /** The order of the calls that outlive user `u` dropping out. */
  function KeepRooms(order: seq<RoomId>, active: map<RoomId, set<UserId>>, u: UserId): (r: seq<RoomId>)
    requires forall q :: q in order ==> q in active
    ensures forall q :: q in r <==> q in order && Survives(active, q, u)
    ensures Distinct(order) ==> Distinct(r)
    ensures Subsequence(r, order)
  {
    if order == [] then []
    else
      var last := order[|order| - 1];
      var kept := KeepRooms(order[..|order| - 1], active, u);
      assert forall q :: q in order <==> q in order[..|order| - 1] || q == last;
      assert Distinct(order) ==> last !in order[..|order| - 1];
      if Survives(active, last, u) then kept + [last] else kept
  }

  /** The `peerDisconnected` notices for user `u`, one per call containing `u`, in call order. */
  function Notices(order: seq<RoomId>, active: map<RoomId, set<UserId>>, u: UserId, rooms: Rooms): (es: seq<Emit>)
    requires forall q :: q in order ==> q in active
    ensures forall e :: e in es ==> e.target.ToRoom? && e.target.room in order && u in active[e.target.room]
                                    && e.recipients == MembersOf(rooms, e.target.room)
                                    && e.event == PeerDisconnected(u)
  {
    if order == [] then []
    else
      var last := order[|order| - 1];
      var earlier := Notices(order[..|order| - 1], active, u, rooms);
      if u in active[last] then earlier + [Emit(ToRoom(last), MembersOf(rooms, last), PeerDisconnected(u))]
      else earlier
  }

  /** How many emits are addressed to `t`. */
  function CountTo(es: seq<Emit>, t: Target): nat
  {
    if es == [] then 0
    else CountTo(es[..|es| - 1], t) + (if es[|es| - 1].target == t then 1 else 0)
  }

  lemma {:induction false} CountToAppend(a: seq<Emit>, b: seq<Emit>, t: Target)
    ensures CountTo(a + b, t) == CountTo(a, t) + CountTo(b, t)
  {
    if b != [] {
      assert (a + b)[..|a + b| - 1] == a + b[..|b| - 1];
      CountToAppend(a, b[..|b| - 1], t);
    } else {
      assert a + b == a;
    }
  }

  /** Every call that contains user `u` gets exactly one notice, and every other room none. */
  lemma {:induction false} NoticeOncePerCall(order: seq<RoomId>, active: map<RoomId, set<UserId>>, u: UserId,
                                             rooms: Rooms, q: RoomId)
    requires forall r :: r in order ==> r in active
    requires Distinct(order)
    ensures CountTo(Notices(order, active, u, rooms), ToRoom(q)) == if q in order && u in active[q] then 1 else 0
  {
    if order != [] {
      var prefix := order[..|order| - 1];
      var last := order[|order| - 1];
      assert forall r :: r in order <==> r in prefix || r == last;
      assert last !in prefix;
      assert Distinct(prefix) by {
        forall i, j | 0 <= i < j < |prefix| ensures prefix[i] != prefix[j] { assert prefix[i] == order[i]; }
      }
      NoticeOncePerCall(prefix, active, u, rooms, q);
      var es := Notices(order, active, u, rooms);
      var earlier := Notices(prefix, active, u, rooms);
      if u in active[last] {
        var e := Emit(ToRoom(last), MembersOf(rooms, last), PeerDisconnected(u));
        assert es == earlier + [e];
        CountToAppend(earlier, [e], ToRoom(q));
        assert CountTo([e], ToRoom(q)) == if last == q then 1 else 0 by {
          assert [e][..0] == [];
        }
      } else {
        assert es == earlier;
      }
    }
  }

  /** One more call at the end of the order. */
  lemma KeepRoomsSnoc(done: seq<RoomId>, x: RoomId, active: map<RoomId, set<UserId>>, u: UserId, rooms: Rooms)
    requires forall q :: q in done ==> q in active
    requires x in active
    ensures KeepRooms(done + [x], active, u)
            == KeepRooms(done, active, u) + (if Survives(active, x, u) then [x] else [])
    ensures Notices(done + [x], active, u, rooms)
            == Notices(done, active, u, rooms)
               + (if u in active[x] then [Emit(ToRoom(x), MembersOf(rooms, x), PeerDisconnected(u))] else [])
  {
    assert (done + [x])[..|done|] == done;
  }

  lemma AppendAssoc<T>(a: seq<T>, b: seq<T>, c: seq<T>)
    ensures (a + b) + c == a + (b + c)
  {
  }

  /** A key that occurs once occurs neither before nor after its place. */
  lemma DistinctSplit(before: seq<string>, x: string, after: seq<string>)
    requires Distinct(before + [x] + after)
    ensures x !in before && x !in after
  {
    var s := before + [x] + after;
    assert s[|before|] == x;
    assert forall i :: 0 <= i < |before| ==> s[i] == before[i];
    assert forall i :: 0 <= i < |after| ==> s[|before| + 1 + i] == after[i];
  }

  /** Deleting a key that occurs once, between two runs without it. */
  lemma RemoveBetween(kept: seq<string>, x: string, rest: seq<string>)
    requires x !in kept && x !in rest
    ensures Remove(kept + ([x] + rest), x) == kept + rest
  {
    RemoveAppend(kept, [x] + rest, x);
    RemoveAppend([x], rest, x);
    RemoveAbsent(kept, x);
    RemoveAbsent(rest, x);
    assert Remove([x], x) == [] by { assert [x][1..] == []; }
  }

  // ---------------------------------------------------------------------------

  /** What `join` and `chatUpdated` emit once the chat fetch has settled. */
  function OnJoin(s: SocketId, fetched: FetchResult): (es: seq<Emit>)
    ensures fetched.Found? ==> es == [Emit(ToSocket(s), {s}, ChatData(Some(fetched.chat)))]
    ensures !fetched.Found? ==> es == []
  {
    match fetched
    case Found(chat) => [Emit(ToSocket(s), {s}, ChatData(Some(chat)))]
    case _ => []
  }

  function OnChatUpdated(room: RoomId, members: set<SocketId>, fetched: FetchResult): (es: seq<Emit>)
    ensures fetched.FetchFailed? <==> es == []
    ensures forall e :: e in es ==> e == Emit(ToRoom(room), members, e.event) && e.event.ChatData?
    ensures fetched.Found? ==> es == [Emit(ToRoom(room), members, ChatData(Some(fetched.chat)))]
    ensures fetched.NotFound? ==> es == [Emit(ToRoom(room), members, ChatData(None))]
  {
    match fetched
    case Found(chat) => [Emit(ToRoom(room), members, ChatData(Some(chat)))]
    case NotFound => [Emit(ToRoom(room), members, ChatData(None))]
    case FetchFailed => []
  }

  /**
   * The fetch as written: `ChatModel.findById` is not a method of
   * ChatModel, so calling it throws a TypeError, which the handler catches.
   */
  function FetchAsWritten(chats: Chats.ChatStore, chatId: RoomId): (r: FetchResult)
    ensures r == FetchFailed
  {
    FetchFailed
  }

  /** The fetch evidently meant: `ChatModel.findChatById`. */
  function FetchChat(chats: Chats.ChatStore, chatId: RoomId): (r: FetchResult)
    ensures chatId in chats ==> r == Found(chats[chatId])
    ensures chatId !in chats ==> r == NotFound
  {
    match Chats.FindChatById(chats, chatId)
    case Some(chat) => Found(chat)
    case None => NotFound
  }

  /** As written, neither `join` nor `chatUpdated` ever delivers chat data, even for a stored chat. */
  lemma AsWrittenChatDataNeverSent(chats: Chats.ChatStore, s: SocketId, chatId: RoomId, members: set<SocketId>)
    requires chatId in chats
    ensures OnJoin(s, FetchAsWritten(chats, chatId)) == []
    ensures OnChatUpdated(chatId, members, FetchAsWritten(chats, chatId)) == []
  {
  }

  /** With the intended fetch, a stored chat reaches the joining socket, and on update the whole room. */
  lemma StoredChatIsSent(chats: Chats.ChatStore, s: SocketId, chatId: RoomId, members: set<SocketId>)
    requires chatId in chats
    ensures OnJoin(s, FetchChat(chats, chatId)) == [Emit(ToSocket(s), {s}, ChatData(Some(chats[chatId])))]
    ensures OnChatUpdated(chatId, members, FetchChat(chats, chatId))
            == [Emit(ToRoom(chatId), members, ChatData(Some(chats[chatId])))]
  {
  }

  // ---------------------------------------------------------------------------
  // The coordinator's invariant, in four independent parts.

  /** `keys` is the insertion order of `m`'s keys: each key once. */
  ghost predicate Indexed<V>(keys: seq<string>, m: map<string, V>)
  {
    Distinct(keys) && forall k :: k in keys <==> k in m
  }

  /** Every active call has at least one participant. */
  ghost predicate CallsNonEmpty(active: map<RoomId, set<UserId>>)
  {
    forall q :: q in active ==> active[q] != {}
  }

  /** Rooms are never empty and hold only connected sockets. */
  ghost predicate Transport(rooms: Rooms, sockets: set<SocketId>)
  {
    NoEmptyRoom(rooms) && forall q :: q in rooms ==> rooms[q] <= sockets
  }

  lemma IndexedUpsert<V>(keys: seq<string>, m: map<string, V>, k: string, v: V)
    requires Indexed(keys, m)
    ensures Indexed(Upserted(keys, k), m[k := v])
  {
  }

  lemma IndexedRemove<V>(keys: seq<string>, m: map<string, V>, k: string)
    requires Indexed(keys, m)
    ensures Indexed(Remove(keys, k), m - {k})
  {
  }

  lemma TransportJoin(rooms: Rooms, sockets: set<SocketId>, room: RoomId, s: SocketId)
    requires Transport(rooms, sockets) && s in sockets
    ensures Transport(JoinRoom(rooms, room, s), sockets)
  {
    var after := JoinRoom(rooms, room, s);
    forall q | q in after ensures after[q] <= sockets {
      assert after[q] == MembersOf(after, q);
    }
  }

  lemma TransportLeave(rooms: Rooms, sockets: set<SocketId>, room: RoomId, s: SocketId)
    requires Transport(rooms, sockets)
    ensures Transport(LeaveRoom(rooms, room, s), sockets)
  {
  }

  lemma TransportLeaveAll(rooms: Rooms, sockets: set<SocketId>, s: SocketId)
    requires Transport(rooms, sockets)
    ensures Transport(LeaveAll(rooms, s), sockets - {s})
  {
  }

  class Coordinator {
    /** `connectedUsers`: userId -> socket id, and its keys in insertion order. */
    var connectedUsers: map<UserId, SocketId>
    var users: seq<UserId>
    /** `activeRooms`: roomId -> participant user ids, and its keys in insertion order. */
    var activeRooms: map<RoomId, set<UserId>>
    var roomOrder: seq<RoomId>
    /** The transport: room membership and the connected sockets (`io.sockets.sockets`). */
    var rooms: Rooms
    var sockets: set<SocketId>

    ghost predicate Valid()
      reads this
    {
      && Indexed(users, connectedUsers)
      && Indexed(roomOrder, activeRooms)
      && CallsNonEmpty(activeRooms)
      && Transport(rooms, sockets)
    }

    constructor ()
      ensures Valid()
      ensures connectedUsers == map[] && users == [] && activeRooms == map[] && roomOrder == []
      ensures rooms == map[] && sockets == {}
    {
      connectedUsers, users := map[], [];
      activeRooms, roomOrder := map[], [];
      rooms, sockets := map[], {};
    }

    /** A client connects (`io.on('connection')`): the transport adds its socket. */
    method Connect(s: SocketId)
      requires Valid() && s !in sockets
      modifies this
      ensures Valid()
      ensures sockets == old(sockets) + {s}
      ensures rooms == old(rooms) && connectedUsers == old(connectedUsers) && users == old(users)
      ensures activeRooms == old(activeRooms) && roomOrder == old(roomOrder)
    {
      sockets := sockets + {s};
    }

    /** `join`: the socket enters the room, then receives the chat if the fetch found one. */
    method Join(s: SocketId, chatId: RoomId, fetched: FetchResult) returns (out: seq<Emit>)
      requires Valid() && s in sockets
      modifies this
      ensures Valid()
      ensures rooms == JoinRoom(old(rooms), chatId, s)
      ensures out == OnJoin(s, fetched)
      ensures sockets == old(sockets) && connectedUsers == old(connectedUsers) && users == old(users)
      ensures activeRooms == old(activeRooms) && roomOrder == old(roomOrder)
    {
      TransportJoin(rooms, sockets, chatId, s);
      rooms := JoinRoom(rooms, chatId, s);
      out := OnJoin(s, fetched);
    }

    /** `chatUpdated`: the fetched chat goes to every socket in the room; a failed fetch sends nothing. */
    method ChatUpdated(chatId: RoomId, fetched: FetchResult) returns (out: seq<Emit>)
      ensures out == OnChatUpdated(chatId, MembersOf(rooms, chatId), fetched)
    {
      out := OnChatUpdated(chatId, MembersOf(rooms, chatId), fetched);
    }

    /** `leave`: the socket leaves the room; for a non-member nothing changes. */
    method Leave(s: SocketId, chatId: RoomId)
      requires Valid() && s in sockets
      modifies this
      ensures Valid()
      ensures rooms == LeaveRoom(old(rooms), chatId, s)
      ensures s !in MembersOf(old(rooms), chatId) ==> rooms == old(rooms)
      ensures sockets == old(sockets) && connectedUsers == old(connectedUsers) && users == old(users)
      ensures activeRooms == old(activeRooms) && roomOrder == old(roomOrder)
    {
      TransportLeave(rooms, sockets, chatId, s);
      rooms := LeaveRoom(rooms, chatId, s);
    }

    /** `register`: the user now maps to this socket, replacing any earlier registration. */
    method Register(s: SocketId, userId: UserId)
      requires Valid() && s in sockets
      modifies this
      ensures Valid()
      ensures connectedUsers == old(connectedUsers)[userId := s]
      ensures users == Upserted(old(users), userId)
      ensures sockets == old(sockets) && rooms == old(rooms)
      ensures activeRooms == old(activeRooms) && roomOrder == old(roomOrder)
    {
      IndexedUpsert(users, connectedUsers, userId, s);
      users, connectedUsers := Upserted(users, userId), connectedUsers[userId := s];
    }

    /** `initiateCall`: tell the receiver's socket, if the receiver is registered; change nothing. */
    method InitiateCall(callerId: UserId, receiverId: UserId, chatId: RoomId) returns (out: seq<Emit>)
      ensures receiverId in connectedUsers ==>
                var rs := connectedUsers[receiverId];
                out == [Emit(ToSocket(rs), ReachOf(sockets, rs), IncomingCall(callerId, chatId))]
      ensures receiverId !in connectedUsers ==> out == []
    {
      if receiverId in connectedUsers {
        var rs := connectedUsers[receiverId];
        out := [Emit(ToSocket(rs), ReachOf(sockets, rs), IncomingCall(callerId, chatId))];
      } else {
        out := [];
      }
    }

    /**
     * `acceptCall`: with the caller registered, the accepting socket and the
     * caller's socket (if still connected) join room `chatId`, the call's
     * participants become caller and receiver, and the room is told;
     * otherwise nothing happens.
     */
    method AcceptCall(s: SocketId, callerId: UserId, receiverId: UserId, chatId: RoomId) returns (out: seq<Emit>)
      requires Valid() && s in sockets
      modifies this
      ensures Valid()
      ensures callerId !in old(connectedUsers) ==>
                out == [] && rooms == old(rooms) && activeRooms == old(activeRooms) && roomOrder == old(roomOrder)
      ensures callerId in old(connectedUsers) ==>
                var cs := old(connectedUsers)[callerId];
                && MembersOf(rooms, chatId) == MembersOf(old(rooms), chatId) + {s} + ReachOf(old(sockets), cs)
                && (forall q :: q != chatId ==> MembersOf(rooms, q) == MembersOf(old(rooms), q))
                && activeRooms == old(activeRooms)[chatId := {callerId, receiverId}]
                && roomOrder == Upserted(old(roomOrder), chatId)
                && out == [Emit(ToRoom(chatId), MembersOf(rooms, chatId), CallAccepted(chatId))]
      ensures sockets == old(sockets) && connectedUsers == old(connectedUsers) && users == old(users)
    {
      out := [];
      if callerId in connectedUsers {
        var cs := connectedUsers[callerId];
        var roomId := chatId;
        var joined := JoinRoom(rooms, roomId, s);
        TransportJoin(rooms, sockets, roomId, s);
        if cs in sockets {
          TransportJoin(joined, sockets, roomId, cs);
          joined := JoinRoom(joined, roomId, cs);
        }
        IndexedUpsert(roomOrder, activeRooms, roomId, {callerId, receiverId});
        rooms, roomOrder, activeRooms := joined, Upserted(roomOrder, roomId), activeRooms[roomId := {callerId, receiverId}];
        out := [Emit(ToRoom(roomId), MembersOf(joined, roomId), CallAccepted(roomId))];
      }
    }

    /** `rejectCall`: tell the caller's socket, if the caller is registered; change nothing. */
    method RejectCall(callerId: UserId) returns (out: seq<Emit>)
      ensures callerId in connectedUsers ==>
                var cs := connectedUsers[callerId];
                out == [Emit(ToSocket(cs), ReachOf(sockets, cs), CallRejected)]
      ensures callerId !in connectedUsers ==> out == []
    {
      if callerId in connectedUsers {
        var cs := connectedUsers[callerId];
        out := [Emit(ToSocket(cs), ReachOf(sockets, cs), CallRejected)];
      } else {
        out := [];
      }
    }

    /** `offer`, `answer`, `ice-candidate`: the data goes unchanged to everyone else in the room. */
    method Relay(s: SocketId, signal: Signal, roomId: RoomId) returns (out: seq<Emit>)
      ensures out == [Emit(ToRoomExcept(roomId, s), MembersOf(rooms, roomId) - {s}, Relayed(signal))]
      ensures s !in out[0].recipients
    {
      out := [Emit(ToRoomExcept(roomId, s), MembersOf(rooms, roomId) - {s}, Relayed(signal))];
    }

    /**
     * `endCall`: for an active call, tell the room, make every socket in it
     * leave, and delete the call; for any other room nothing happens.
     */
    method EndCall(roomId: RoomId) returns (out: seq<Emit>)
      requires Valid()
      modifies this
      ensures Valid()
      ensures roomId !in old(activeRooms) ==>
                out == [] && rooms == old(rooms) && activeRooms == old(activeRooms) && roomOrder == old(roomOrder)
      ensures roomId in old(activeRooms) ==>
                && out == [Emit(ToRoom(roomId), MembersOf(old(rooms), roomId), CallEnded)]
                && rooms == old(rooms) - {roomId}
                && activeRooms == old(activeRooms) - {roomId}
                && roomOrder == Remove(old(roomOrder), roomId)
      ensures sockets == old(sockets) && connectedUsers == old(connectedUsers) && users == old(users)
    {
      out := [];
      if roomId in activeRooms {
        out := [Emit(ToRoom(roomId), MembersOf(rooms, roomId), CallEnded)];
        var left := rooms;
        var pending := MembersOf(rooms, roomId);
        while pending != {}
          modifies {}
          invariant Transport(left, sockets)
          invariant pending == MembersOf(left, roomId)
          invariant left - {roomId} == rooms - {roomId}
          decreases pending
        {
          var sid :| sid in pending;
          TransportLeave(left, sockets, roomId, sid);
          left := LeaveRoom(left, roomId, sid);
          pending := pending - {sid};
        }
        assert left == rooms - {roomId};
        IndexedRemove(roomOrder, activeRooms, roomId);
        rooms, activeRooms, roomOrder := left, activeRooms - {roomId}, Remove(roomOrder, roomId);
      }
    }

    /** The body of `disconnect` for the user `u` found: forget `u` and drop `u` from every call. */
    method Forget(u: UserId) returns (out: seq<Emit>)
      requires Valid() && u in connectedUsers
      modifies this
      ensures Valid()
      ensures connectedUsers == old(connectedUsers) - {u}
      ensures users == Remove(old(users), u)
      ensures activeRooms == DropParticipant(old(activeRooms), u)
      ensures roomOrder == KeepRooms(old(roomOrder), old(activeRooms), u)
      ensures out == Notices(old(roomOrder), old(activeRooms), u, rooms)
      ensures sockets == old(sockets) && rooms == old(rooms)
    {
      IndexedRemove(users, connectedUsers, u);
      connectedUsers, users := connectedUsers - {u}, Remove(users, u);
      out := LeaveCalls(u);
    }

    /** The inner loop of `disconnect` applied to the coordinator's calls. */
    method LeaveCalls(u: UserId) returns (out: seq<Emit>)
      requires Valid()
      modifies this
      ensures Valid()
      ensures activeRooms == DropParticipant(old(activeRooms), u)
      ensures roomOrder == KeepRooms(old(roomOrder), old(activeRooms), u)
      ensures out == Notices(old(roomOrder), old(activeRooms), u, rooms)
      ensures sockets == old(sockets) && rooms == old(rooms)
      ensures connectedUsers == old(connectedUsers) && users == old(users)
    {
      var order, active;
      order, active, out := DropFromCalls(roomOrder, activeRooms, u, rooms);
      roomOrder, activeRooms := order, active;
    }

    /**
     * `disconnect`: after the transport has taken the socket out of every
     * room, the first user (in registration order) registered from it is
     * forgotten, and each call that user was in is told and loses them,
     * being deleted once fewer than two participants remain. Only that one
     * user is forgotten, because the loop breaks after it.
     */
    method Disconnect(s: SocketId) returns (out: seq<Emit>)
      requires Valid() && s in sockets
      modifies this
      ensures Valid()
      ensures sockets == old(sockets) - {s}
      ensures rooms == LeaveAll(old(rooms), s)
      ensures var i := FirstOwner(old(users), old(connectedUsers), s);
              if i == |old(users)| then
                && connectedUsers == old(connectedUsers) && users == old(users)
                && activeRooms == old(activeRooms) && roomOrder == old(roomOrder)
                && out == []
              else
                var u := old(users)[i];
                && connectedUsers == old(connectedUsers) - {u}
                && users == Remove(old(users), u)
                && activeRooms == DropParticipant(old(activeRooms), u)
                && roomOrder == KeepRooms(old(roomOrder), old(activeRooms), u)
                && out == Notices(old(roomOrder), old(activeRooms), u, rooms)
    {
      TransportLeaveAll(rooms, sockets, s);
      sockets, rooms := sockets - {s}, LeaveAll(rooms, s);
      out := [];
      var i := 0;
      while i < |users|
        invariant 0 <= i <= |users|
        invariant forall k :: 0 <= k < i ==> connectedUsers[users[k]] != s
        invariant Valid()
        invariant sockets == old(sockets) - {s} && rooms == LeaveAll(old(rooms), s)
        invariant connectedUsers == old(connectedUsers) && users == old(users)
        invariant activeRooms == old(activeRooms) && roomOrder == old(roomOrder) && out == []
        decreases |users| - i
      {
        var userId := users[i];
        if connectedUsers[userId] == s {
          assert FirstOwner(users, connectedUsers, s) == i;
          out := Forget(userId);
          return;
        }
        i := i + 1;
      }
    }
  }

  /** The calls after `u` has dropped out of those among `done` only. */
  ghost function DroppedFrom(active: map<RoomId, set<UserId>>, u: UserId, done: seq<RoomId>): map<RoomId, set<UserId>>
  {
    map q | q in active && (q in done ==> Survives(active, q, u)) :: if q in done then active[q] - {u} else active[q]
  }

  lemma DroppedFromNothing(active: map<RoomId, set<UserId>>, u: UserId)
    ensures DroppedFrom(active, u, []) == active
  {
  }

  lemma DroppedFromAll(order: seq<RoomId>, active: map<RoomId, set<UserId>>, u: UserId)
    requires forall q :: q in order <==> q in active
    ensures DroppedFrom(active, u, order) == DropParticipant(active, u)
  {
  }

  /** One more call processed: `x`, which was not processed before. */
  lemma DroppedFromStep(active: map<RoomId, set<UserId>>, u: UserId, done: seq<RoomId>, x: RoomId)
    requires x in active && x !in done
    ensures var before := DroppedFrom(active, u, done);
            DroppedFrom(active, u, done + [x])
            == if u !in active[x] then before
               else if |active[x] - {u}| < 2 then before - {x}
               else before[x := active[x] - {u}]
  {
    var before := DroppedFrom(active, u, done);
    var after := DroppedFrom(active, u, done + [x]);
    assert forall q :: q in done + [x] <==> q in done || q == x;
    if u !in active[x] {
      assert active[x] - {u} == active[x];
      assert Survives(active, x, u);
      assert after == before;
    } else if |active[x] - {u}| < 2 {
      assert after == before - {x};
    } else {
      assert after == before[x := active[x] - {u}];
    }
  }

  /**
   * The inner loop of `disconnect`, over the calls in insertion order:
   * each call containing `u` is told and loses `u`, and is deleted once
   * fewer than two participants remain.
   */
  method DropFromCalls(order0: seq<RoomId>, active0: map<RoomId, set<UserId>>, u: UserId, rooms: Rooms)
    returns (order: seq<RoomId>, active: map<RoomId, set<UserId>>, out: seq<Emit>)
    requires Indexed(order0, active0) && CallsNonEmpty(active0)
    ensures Indexed(order, active) && CallsNonEmpty(active)
    ensures active == DropParticipant(active0, u)
    ensures order == KeepRooms(order0, active0, u)
    ensures out == Notices(order0, active0, u, rooms)
  {
    order, active, out := order0, active0, [];
    DroppedFromNothing(active0, u);
    var pending := order0;
    ghost var done := [];
    while pending != []
      invariant done + pending == order0
      invariant order == KeepRooms(done, active0, u) + pending
      invariant active == DroppedFrom(active0, u, done)
      invariant out == Notices(done, active0, u, rooms)
    {
      var roomId := pending[0];
      assert pending == [roomId] + pending[1..];
      assert done + [roomId] + pending[1..] == order0;
      DistinctSplit(done, roomId, pending[1..]);
      KeepRoomsSnoc(done, roomId, active0, u, rooms);
      DroppedFromStep(active0, u, done, roomId);
      assert roomId in active && active[roomId] == active0[roomId];
      ghost var kept := KeepRooms(done, active0, u);
      assert order == kept + ([roomId] + pending[1..]);
      if u in active[roomId] {
        out := out + [Emit(ToRoom(roomId), MembersOf(rooms, roomId), PeerDisconnected(u))];
        var rest := active[roomId] - {u};
        if |rest| < 2 {
          active := active - {roomId};
          RemoveBetween(kept, roomId, pending[1..]);
          order := Remove(order, roomId);
          assert order == kept + pending[1..];
        } else {
          active := active[roomId := rest];
          AppendAssoc(kept, [roomId], pending[1..]);
        }
      } else {
        AppendAssoc(kept, [roomId], pending[1..]);
      }
      done, pending := done + [roomId], pending[1..];
    }
    assert done == order0;
    DroppedFromAll(order0, active0, u);
  }
}
