/**
 * The realtime relay of the notes server: socket.io rooms named by note id,
 * the `join_note`, `edit_note` and `cursor_move` handlers and the
 * `disconnecting` fan-out, one handler invocation at a time.
 *
 * The state is the socket.io adapter's: for each connected socket the rooms it
 * is in (socket.rooms, in insertion order), and for each socket the events the
 * server has sent to it. The members of a room are derived from the first map,
 * so the room-to-socket and socket-to-room views cannot disagree.
 */
module Realtime {

  type SocketId = string
  type RoomId = string

  /** What the server emits. The fields are exactly the ones the handlers forward. */
  datatype Event =
    | UserJoined(user: string)
    | NoteEdited(content: string, cursor: int, user: string)
    | CursorMoved(cursor: int, user: string)
    | UserLeft(user: SocketId)

  predicate NoDup<T(==)>(s: seq<T>) {
    forall i, j :: 0 <= i < j < |s| ==> s[i] != s[j]
  }

  lemma NoDupSnoc<T>(s: seq<T>, x: T)
    requires NoDup(s) && x !in s
    ensures NoDup(s + [x])
  {
  }

  /** The sockets currently in `room`. */
  function Members(sids: map<SocketId, seq<RoomId>>, room: RoomId): set<SocketId> {
    set s | s in sids && room in sids[s]
  }

  /** `socket.join(room)`: a set insertion, so joining twice is joining once. */
  function Join(sids: map<SocketId, seq<RoomId>>, s: SocketId, room: RoomId): (r: map<SocketId, seq<RoomId>>)
    requires s in sids
    ensures r.Keys == sids.Keys
    ensures Members(r, room) == Members(sids, room) + {s}
    ensures forall other :: other != room ==> Members(r, other) == Members(sids, other)
  {
    var rooms := if room in sids[s] then sids[s] else sids[s] + [room];
    var r := sids[s := rooms];
    assert forall x :: x in Members(r, room) <==> x in Members(sids, room) + {s};
    r
  }

  /** `socket.to(room).emit(e)` by `sender`: socket.io sends `e` to every member of `room` except
      the sockets in the room named by the sender's id. That room holds the sender itself and any
      socket that has joined it; the sender need not be a member of `room`. */
  function Emit(sids: map<SocketId, seq<RoomId>>, inbox: map<SocketId, seq<Event>>,
                sender: SocketId, room: RoomId, e: Event): (r: map<SocketId, seq<Event>>)
    requires inbox.Keys == sids.Keys
    ensures r.Keys == inbox.Keys
    ensures forall s :: s in Members(sids, sender) ==> r[s] == inbox[s]
    ensures forall s :: s in r ==>
      r[s] == if s in Members(sids, room) && s !in Members(sids, sender) then inbox[s] + [e] else inbox[s]
  {
    map s | s in inbox :: if s in Members(sids, room) - Members(sids, sender) then inbox[s] + [e] else inbox[s]
  }

  /** One emission of `e` to each room of `rooms` in turn, as the `disconnecting` loop does. */
  function EmitEach(sids: map<SocketId, seq<RoomId>>, inbox: map<SocketId, seq<Event>>,
                    sender: SocketId, rooms: seq<RoomId>, e: Event): (r: map<SocketId, seq<Event>>)
    requires inbox.Keys == sids.Keys
    ensures r.Keys == inbox.Keys
    decreases |rooms|
  {
    if rooms == [] then inbox
    else Emit(sids, EmitEach(sids, inbox, sender, rooms[..|rooms| - 1], e), sender, rooms[|rooms| - 1], e)
  }

  /** One more room of the loop is one more emission. */
  lemma EmitEachStep(sids: map<SocketId, seq<RoomId>>, inbox: map<SocketId, seq<Event>>,
                     sender: SocketId, rooms: seq<RoomId>, i: nat, e: Event)
    requires inbox.Keys == sids.Keys && i < |rooms|
    ensures EmitEach(sids, inbox, sender, rooms[..i + 1], e)
            == Emit(sids, EmitEach(sids, inbox, sender, rooms[..i], e), sender, rooms[i], e)
  {
    assert rooms[..i + 1][..i] == rooms[..i];
  }

  /** How many of `rooms` hold `s`, counting none when `s` is in the sender's own-id room. */
  function SharedCount(sids: map<SocketId, seq<RoomId>>, rooms: seq<RoomId>, sender: SocketId, s: SocketId): nat
    decreases |rooms|
  {
    if rooms == [] then 0
    else SharedCount(sids, rooms[..|rooms| - 1], sender, s)
         + (if s in Members(sids, rooms[|rooms| - 1]) - Members(sids, sender) then 1 else 0)
  }

  function Repeat<T>(x: T, n: nat): (r: seq<T>)
    ensures |r| == n && forall i :: 0 <= i < n ==> r[i] == x
  {
    seq(n, _ => x)
  }

  /** A repeated `join_note` leaves socket.rooms, and so every room's members, as they were. */
  lemma JoinTwiceIsJoinOnce(sids: map<SocketId, seq<RoomId>>, s: SocketId, room: RoomId)
    requires s in sids
    ensures Join(Join(sids, s, room), s, room) == Join(sids, s, room)
  {
  }

  /** Each socket receives one copy of `e` per room of `rooms` that the emission reaches it in. */
  lemma {:induction false} EmitEachAppends(sids: map<SocketId, seq<RoomId>>, inbox: map<SocketId, seq<Event>>,
                                           sender: SocketId, rooms: seq<RoomId>, e: Event, s: SocketId)
    requires inbox.Keys == sids.Keys && s in inbox
    ensures EmitEach(sids, inbox, sender, rooms, e)[s] == inbox[s] + Repeat(e, SharedCount(sids, rooms, sender, s))
    decreases |rooms|
  {
    if rooms != [] {
      var init := rooms[..|rooms| - 1];
      EmitEachAppends(sids, inbox, sender, init, e, s);
      var k := SharedCount(sids, init, sender, s);
      if s in Members(sids, rooms[|rooms| - 1]) - Members(sids, sender) {
        assert Repeat(e, k) + [e] == Repeat(e, k + 1);
      }
    }
  }

  /** The rooms of `rooms` that `s` is in. */
  function RoomsHolding(sids: map<SocketId, seq<RoomId>>, rooms: seq<RoomId>, s: SocketId): (r: seq<RoomId>)
    ensures forall room :: room in r <==> room in rooms && s in sids && room in sids[s]
    decreases |rooms|
  {
    if rooms == [] then []
    else RoomsHolding(sids, rooms[..|rooms| - 1], s)
         + (if s in sids && rooms[|rooms| - 1] in sids[s] then [rooms[|rooms| - 1]] else [])
  }

  lemma {:induction false} SharedCountIsRoomsHolding(sids: map<SocketId, seq<RoomId>>, rooms: seq<RoomId>,
                                                     sender: SocketId, s: SocketId)
    requires s !in Members(sids, sender)
    ensures SharedCount(sids, rooms, sender, s) == |RoomsHolding(sids, rooms, s)|
    decreases |rooms|
  {
    if rooms != [] {
      SharedCountIsRoomsHolding(sids, rooms[..|rooms| - 1], sender, s);
    }
  }

  /** The `disconnecting` fan-out: the sockets in the leaving socket's own-id room (the leaving
      socket itself, and any socket that joined that room) hear nothing; every other socket gets
      one `user_left` naming the leaving socket's id for each of the leaving socket's rooms that
      it is in, and nothing else. */
  lemma DisconnectFanOut(sids: map<SocketId, seq<RoomId>>, inbox: map<SocketId, seq<Event>>, leaving: SocketId)
    requires inbox.Keys == sids.Keys && leaving in sids
    ensures var after := EmitEach(sids, inbox, leaving, sids[leaving], UserLeft(leaving));
      && after.Keys == inbox.Keys
      && (forall s :: s in Members(sids, leaving) ==> after[s] == inbox[s])
      && forall s :: s in inbox && s !in Members(sids, leaving) ==>
           after[s] == inbox[s] + Repeat(UserLeft(leaving), |RoomsHolding(sids, sids[leaving], s)|)
  {
    var after := EmitEach(sids, inbox, leaving, sids[leaving], UserLeft(leaving));
    forall s | s in Members(sids, leaving)
      ensures after[s] == inbox[s]
    {
      EmitEachAppends(sids, inbox, leaving, sids[leaving], UserLeft(leaving), s);
      SharedCountIsZeroInSenderRoom(sids, sids[leaving], leaving, s);
    }
    forall s | s in inbox && s !in Members(sids, leaving)
      ensures after[s] == inbox[s] + Repeat(UserLeft(leaving), |RoomsHolding(sids, sids[leaving], s)|)
    {
      EmitEachAppends(sids, inbox, leaving, sids[leaving], UserLeft(leaving), s);
      SharedCountIsRoomsHolding(sids, sids[leaving], leaving, s);
    }
  }

  lemma {:induction false} SharedCountIsZeroInSenderRoom(sids: map<SocketId, seq<RoomId>>, rooms: seq<RoomId>,
                                                         sender: SocketId, s: SocketId)
    requires s in Members(sids, sender)
    ensures SharedCount(sids, rooms, sender, s) == 0
    decreases |rooms|
  {
    if rooms != [] {
      SharedCountIsZeroInSenderRoom(sids, rooms[..|rooms| - 1], sender, s);
    }
  }

  class RoomServer {
    /** For each connected socket, socket.rooms in insertion order. */
    var sids: map<SocketId, seq<RoomId>>
    /** For each connected socket, the events sent to it so far. */
    var inbox: map<SocketId, seq<Event>>

    ghost predicate Valid()
      reads this
    {
      && sids.Keys == inbox.Keys
      && forall s :: s in sids ==> NoDup(sids[s]) && |sids[s]| > 0 && sids[s][0] == s
    }

    constructor ()
      ensures Valid() && sids == map[] && inbox == map[]
    {
      sids := map[];
      inbox := map[];
    }

    /** A connection: socket.io puts every new socket in the room named by its own id. */
    method Connect(s: SocketId)
      requires Valid() && s !in sids
      modifies this
      ensures Valid()
      ensures sids == old(sids)[s := [s]] && inbox == old(inbox)[s := []]
    {
      sids := sids[s := [s]];
      inbox := inbox[s := []];
    }

    /** `join_note {noteId, user}`: join, then announce `user` to the room's earlier members
        outside the joining socket's own-id room. */
    method JoinNote(s: SocketId, noteId: RoomId, user: string)
      requires Valid() && s in sids
      modifies this
      ensures Valid()
      ensures sids == Join(old(sids), s, noteId)
      ensures s in Members(sids, noteId)
      ensures Members(sids, s) == old(Members(sids, s))
      ensures inbox == Emit(sids, old(inbox), s, noteId, UserJoined(user))
      ensures forall x :: x in inbox ==>
        inbox[x] == if x in old(Members(sids, noteId)) - old(Members(sids, s))
                    then old(inbox[x]) + [UserJoined(user)] else old(inbox[x])
    {
      var rooms := sids[s];
      assert s in rooms by { assert rooms[0] == s; }
      if noteId !in rooms {
        NoDupSnoc(rooms, noteId);
        rooms := rooms + [noteId];
      }
      ghost var before := Members(sids, noteId);
      ghost var own := Members(sids, s);
      sids := sids[s := rooms];
      assert sids == Join(old(sids), s, noteId);
      assert Members(sids, s) == own;
      assert Members(sids, noteId) - Members(sids, s) == before - own;
      inbox := Emit(sids, inbox, s, noteId, UserJoined(user));
    }

    /** `edit_note {noteId, content, cursor, user}`: relayed to the room's members outside the
        sender's own-id room; the sender hears nothing back. */
    method EditNote(s: SocketId, noteId: RoomId, content: string, cursor: int, user: string)
      requires Valid() && s in sids
      modifies this`inbox
      ensures Valid()
      ensures inbox == Emit(sids, old(inbox), s, noteId, NoteEdited(content, cursor, user))
      ensures inbox[s] == old(inbox[s])
    {
      assert sids[s][0] == s;
      inbox := Emit(sids, inbox, s, noteId, NoteEdited(content, cursor, user));
    }

    /** `cursor_move {noteId, cursor, user}`: relayed like `edit_note`. */
    method CursorMove(s: SocketId, noteId: RoomId, cursor: int, user: string)
      requires Valid() && s in sids
      modifies this`inbox
      ensures Valid()
      ensures inbox == Emit(sids, old(inbox), s, noteId, CursorMoved(cursor, user))
      ensures inbox[s] == old(inbox[s])
    {
      assert sids[s][0] == s;
      inbox := Emit(sids, inbox, s, noteId, CursorMoved(cursor, user));
    }

    /** `disconnecting`: one `user_left {user: socket.id}` per room in socket.rooms, each to that
        room's members outside the leaving socket's own-id room; membership is left as it was. */
    method Disconnecting(s: SocketId)
      requires Valid() && s in sids
      modifies this`inbox
      ensures Valid()
      ensures inbox == EmitEach(sids, old(inbox), s, sids[s], UserLeft(s))
    {
      var rooms := sids[s];
      var i := 0;
      while i < |rooms|
        invariant 0 <= i <= |rooms|
        invariant inbox == EmitEach(sids, old(inbox), s, rooms[..i], UserLeft(s))
      {
        EmitEachStep(sids, old(inbox), s, rooms, i, UserLeft(s));
        inbox := Emit(sids, inbox, s, rooms[i], UserLeft(s));
        i := i + 1;
      }
      assert rooms[..i] == rooms;
    }

    /** After the `disconnecting` handlers, socket.io removes the socket from every room. */
    method Disconnected(s: SocketId)
      requires Valid()
      modifies this
      ensures Valid()
      ensures sids == old(sids) - {s} && inbox == old(inbox) - {s}
      ensures forall room :: Members(sids, room) == old(Members(sids, room)) - {s}
    {
      sids := sids - {s};
      inbox := inbox - {s};
    }
  }
}
