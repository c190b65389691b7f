/**
  Sockets, the tables of the Socket.IO server, and the broadcast builder
  (engine/src/core/socketio/socket.rs, handler.rs), for calls that run to completion.
  The interleaved form of connect and clean-up is in module Cleanup.
*/
module Sockets {
  import opened Wrappers
  import opened Rooms

  type HandlerId = nat

  /** What user code and clients get to see. */
  datatype Callback = Connected(id: SocketId) | Disconnected(id: SocketId, handler: HandlerId)
  datatype Reply = ConnectOk(namespace: Name, id: SocketId) | ConnectError(namespace: Name, message: string)

  class Socket {
    const id: SocketId
    const engineSid: Name
    const namespace: Name
    const adapter: RoomManager<string>
    var rooms: set<Name>

    constructor (id: SocketId, engineSid: Name, namespace: Name, adapter: RoomManager<string>)
      ensures this.id == id && this.engineSid == engineSid && this.namespace == namespace && this.adapter == adapter
      ensures rooms == {id}
    {
      this.id, this.engineSid, this.namespace, this.adapter := id, engineSid, namespace, adapter;
      rooms := {id};
    }

    /** The socket's own room set says the same as the adapter, and no other namespace lists it. */
    ghost predicate Mirrored()
      reads this, adapter
    {
      && (forall room :: room in rooms <==> id in Members(adapter.rooms, RoomKey(namespace, room)))
      && (forall k <- adapter.rooms :: id in adapter.rooms[k] ==> k.namespace == namespace)
    }

    method Join(room: Name)
      modifies this`rooms, adapter`rooms
      ensures rooms == old(rooms) + {room}
      ensures adapter.rooms == Joined(old(adapter.rooms), RoomKey(namespace, room), id)
    {
      rooms := rooms + {room};
      adapter.Join(namespace, room, id);
    }

    method Leave(room: Name)
      modifies this`rooms, adapter`rooms
      ensures rooms == old(rooms) - {room}
      ensures adapter.rooms == Left(old(adapter.rooms), RoomKey(namespace, room), id)
    {
      rooms := rooms - {room};
      adapter.Leave(namespace, room, id);
    }

    /** When the room sets agree, this alone removes every trace of the socket from the adapter. */
    method LeaveAllRooms()
      requires Mirrored() && NoEmptyRoom(adapter.rooms)
      modifies this`rooms, adapter`rooms
      ensures rooms == {}
      ensures Absent(adapter.rooms, id) && NoEmptyRoom(adapter.rooms)
      ensures adapter.rooms == LeftAll(old(adapter.rooms), id)
      ensures LeftAll(adapter.rooms, id) == adapter.rooms
    {
      var todo := rooms;
      while todo != {}
        invariant todo <= rooms
        invariant rooms == old(rooms)
        invariant NoEmptyRoom(adapter.rooms)
        invariant forall k :: Members(adapter.rooms, k) ==
                    Members(old(adapter.rooms), k) - (if k.namespace == namespace && k.room in rooms - todo then {id} else {})
      {
        var room :| room in todo;
        ghost var before := adapter.rooms;
        adapter.Leave(namespace, room, id);
        todo := todo - {room};
        forall k ensures Members(adapter.rooms, k) ==
                    Members(old(adapter.rooms), k) - (if k.namespace == namespace && k.room in rooms - todo then {id} else {})
        {
          LeftMembers(before, RoomKey(namespace, room), id, k);
        }
        LeftMembers(before, RoomKey(namespace, room), id, RoomKey(namespace, room));
      }
      rooms := {};
      forall k ensures Members(adapter.rooms, k) == Members(LeftAll(old(adapter.rooms), id), k) {
        LeftAllMembers(old(adapter.rooms), id, k);
        assert k == RoomKey(k.namespace, k.room);
        if id in Members(old(adapter.rooms), k) {
          assert k.namespace == namespace && k.room in old(rooms);
        }
      }
      LeftAllMembers(old(adapter.rooms), id, RoomKey(id, id));
      TableExtensionality(adapter.rooms, LeftAll(old(adapter.rooms), id));
      LeaveAllOfAbsent(adapter.rooms, id);
    }
  }

  /**
    What the room tables say, without the objects: the adapter's table, the room set kept by each
    live socket, and the namespace of every socket ever created.
  */
  datatype View = View(table: RoomTable, live: map<SocketId, set<Name>>, namespaceOf: map<SocketId, Name>)

  /** The room set of a live socket and the adapter agree about one room of its namespace. */
  ghost predicate Agrees(v: View, id: SocketId, room: Name) {
    id in v.live ==>
      id in v.namespaceOf && (room in v.live[id] <==> id in Members(v.table, RoomKey(v.namespaceOf[id], room)))
  }

  /** Whoever a room lists is a socket of the room's namespace. */
  ghost predicate OwnNamespace(v: View, key: RoomKey, id: SocketId) {
    id in Members(v.table, key) ==> id in v.namespaceOf && v.namespaceOf[id] == key.namespace
  }

  /**
    A live socket's room set lists exactly the rooms of its namespace that list it, no room is
    empty, and no room lists a socket of another namespace.
  */
  ghost predicate Mirror(v: View) {
    && (forall id, room :: Agrees(v, id, room))
    && (forall key, id :: OwnNamespace(v, key, id))
    && NoEmptyRoom(v.table)
  }

  /** `w` is a mirror when it differs from the mirror `v` only in how it treats the socket `id`. */
  lemma MirrorElsewhere(v: View, w: View, id: SocketId)
    requires Mirror(v) && NoEmptyRoom(w.table)
    requires w.live - {id} == v.live - {id} && w.namespaceOf - {id} == v.namespaceOf - {id}
    requires forall key, i :: i != id ==> (i in Members(w.table, key) <==> i in Members(v.table, key))
    requires forall room :: Agrees(w, id, room)
    requires forall key :: OwnNamespace(w, key, id)
    ensures Mirror(w)
  {
    forall i, room ensures Agrees(w, i, room) {
      if i != id {
        assert Agrees(v, i, room);
        assert i in w.live <==> i in v.live - {id};
        if i in w.live {
          assert (w.live - {id})[i] == (v.live - {id})[i];
          assert i in v.namespaceOf - {id} && (w.namespaceOf - {id})[i] == (v.namespaceOf - {id})[i];
        }
      }
    }
    forall key, i ensures OwnNamespace(w, key, i) {
      if i != id && i in Members(w.table, key) {
        assert OwnNamespace(v, key, i);
        assert i in v.namespaceOf - {id} && (w.namespaceOf - {id})[i] == (v.namespaceOf - {id})[i];
      }
    }
  }

  /** Connect: the socket starts alone in the room named after it. */
  lemma MirrorAfterConnect(v: View, id: SocketId, namespace: Name)
    requires Mirror(v) && id !in v.namespaceOf
    ensures Mirror(View(Joined(v.table, RoomKey(namespace, id), id), v.live[id := {id}], v.namespaceOf[id := namespace]))
  {
    var own := RoomKey(namespace, id);
    var w := View(Joined(v.table, own, id), v.live[id := {id}], v.namespaceOf[id := namespace]);
    JoinedMembers(v.table, own, id, own);
    forall key ensures Members(w.table, key) == Members(v.table, key) + (if key == own then {id} else {})
                    && id !in Members(v.table, key) {
      JoinedMembers(v.table, own, id, key);
      assert OwnNamespace(v, key, id);
    }
    MirrorElsewhere(v, w, id);
  }

  /** The view after a `Socket::join`; a socket already cleaned up has no room set any more. */
  function ViewAfterJoin(v: View, id: SocketId, room: Name): View
    requires id in v.namespaceOf
  {
    View(Joined(v.table, RoomKey(v.namespaceOf[id], room), id),
         if id in v.live then v.live[id := v.live[id] + {room}] else v.live, v.namespaceOf)
  }

  lemma MirrorAfterJoin(v: View, id: SocketId, room: Name)
    requires Mirror(v) && id in v.namespaceOf
    ensures Mirror(ViewAfterJoin(v, id, room))
  {
    var joined, w := RoomKey(v.namespaceOf[id], room), ViewAfterJoin(v, id, room);
    JoinedMembers(v.table, joined, id, joined);
    forall key ensures Members(w.table, key) == Members(v.table, key) + (if key == joined then {id} else {}) {
      JoinedMembers(v.table, joined, id, key);
    }
    forall r ensures Agrees(w, id, r) { assert Agrees(v, id, r); }
    forall key ensures OwnNamespace(w, key, id) { assert OwnNamespace(v, key, id); }
    MirrorElsewhere(v, w, id);
  }

  function ViewAfterLeave(v: View, id: SocketId, room: Name): View
    requires id in v.namespaceOf
  {
    View(Left(v.table, RoomKey(v.namespaceOf[id], room), id),
         if id in v.live then v.live[id := v.live[id] - {room}] else v.live, v.namespaceOf)
  }

  lemma MirrorAfterLeave(v: View, id: SocketId, room: Name)
    requires Mirror(v) && id in v.namespaceOf
    ensures Mirror(ViewAfterLeave(v, id, room))
  {
    var left, w := RoomKey(v.namespaceOf[id], room), ViewAfterLeave(v, id, room);
    LeftMembers(v.table, left, id, left);
    forall key ensures Members(w.table, key) == Members(v.table, key) - (if key == left then {id} else {}) {
      LeftMembers(v.table, left, id, key);
    }
    forall r ensures Agrees(w, id, r) { assert Agrees(v, id, r); }
    forall key ensures OwnNamespace(w, key, id) { assert OwnNamespace(v, key, id); }
    MirrorElsewhere(v, w, id);
  }

  lemma MirrorAfterCleanup(v: View, id: SocketId)
    requires Mirror(v)
    ensures Mirror(View(LeftAll(v.table, id), v.live - {id}, v.namespaceOf))
    ensures Absent(LeftAll(v.table, id), id)
  {
    var w := View(LeftAll(v.table, id), v.live - {id}, v.namespaceOf);
    forall key ensures Members(w.table, key) == Members(v.table, key) - {id} {
      LeftAllMembers(v.table, id, key);
    }
    LeftAllMembers(v.table, id, RoomKey(id, id));
    MirrorElsewhere(v, w, id);
  }

  // ----- any sequence of calls -----

  /** A call that runs to completion; ids are fresh, and a join or leave is on a socket that was handed out. */
  datatype Op =
    | Connect(id: SocketId, namespace: Name)
    | Join(id: SocketId, room: Name)
    | Leave(id: SocketId, room: Name)
    | Cleanup(id: SocketId)

  predicate Possible(v: View, op: Op) {
    match op
    case Connect(id, _) => id !in v.namespaceOf
    case Join(id, _) => id in v.namespaceOf
    case Leave(id, _) => id in v.namespaceOf
    case Cleanup(_) => true
  }

  function AfterOp(v: View, op: Op): View
    requires Possible(v, op)
  {
    match op
    case Connect(id, namespace) =>
      View(Joined(v.table, RoomKey(namespace, id), id), v.live[id := {id}], v.namespaceOf[id := namespace])
    case Join(id, room) => ViewAfterJoin(v, id, room)
    case Leave(id, room) => ViewAfterLeave(v, id, room)
    case Cleanup(id) => View(LeftAll(v.table, id), v.live - {id}, v.namespaceOf)
  }

  const NO_SOCKETS := View(map[], map[], map[])

  ghost predicate AllPossible(ops: seq<Op>) {
    ops == [] ||
    (AllPossible(ops[..|ops| - 1]) && Possible(AfterAll(ops[..|ops| - 1]), ops[|ops| - 1]))
  }

  ghost function AfterAll(ops: seq<Op>): View {
    if ops == [] then NO_SOCKETS
    else
      var v := AfterAll(ops[..|ops| - 1]);
      if Possible(v, ops[|ops| - 1]) then AfterOp(v, ops[|ops| - 1]) else v
  }

  /**
    After any sequence of connects, joins, leaves and clean-ups: a live socket's room set is the rooms of
    its namespace that list it, no room is empty, none lists a socket of another namespace, and a clean-up
    leaves its socket in no room, so that a further one changes nothing.
  */
  lemma {:induction false} MirrorOverAll(ops: seq<Op>)
    requires AllPossible(ops)
    ensures Mirror(AfterAll(ops))
    ensures ops != [] && ops[|ops| - 1].Cleanup? ==>
              var id := ops[|ops| - 1].id;
              Absent(AfterAll(ops).table, id) && LeftAll(AfterAll(ops).table, id) == AfterAll(ops).table
  {
    if ops != [] {
      var v, op := AfterAll(ops[..|ops| - 1]), ops[|ops| - 1];
      MirrorOverAll(ops[..|ops| - 1]);
      match op
      case Connect(id, namespace) => MirrorAfterConnect(v, id, namespace);
      case Join(id, room) => MirrorAfterJoin(v, id, room);
      case Leave(id, room) => MirrorAfterLeave(v, id, room);
      case Cleanup(id) =>
        MirrorAfterCleanup(v, id);
        LeaveAllOfAbsent(LeftAll(v.table, id), id);
    }
  }

  /** The disconnect handlers called for a socket, oldest first. */
  function HandlersCalled(callbacks: seq<Callback>, id: SocketId): seq<HandlerId> {
    if callbacks == [] then []
    else
      var last := callbacks[|callbacks| - 1];
      HandlersCalled(callbacks[..|callbacks| - 1], id) + if last.Disconnected? && last.id == id then [last.handler] else []
  }

  lemma {:induction false} HandlersConcat(a: seq<Callback>, b: seq<Callback>, id: SocketId)
    ensures HandlersCalled(a + b, id) == HandlersCalled(a, id) + HandlersCalled(b, id)
  {
    if b == [] {
      assert a + b == a;
    } else {
      assert (a + b)[..|a + b| - 1] == a + b[..|b| - 1];
      HandlersConcat(a, b[..|b| - 1], id);
    }
  }

  /** The shared tables of one server (`RpressIoInner`). `namespaceOf` remembers every socket ever created,
      `roomsOf` what the live ones have in their room set. */
  class Server {
    const adapter: RoomManager<string>
    const namespaces: set<Name>
    var sessions: map<Name, ChannelId>
    var sockets: map<SocketId, Socket>
    var disconnectHandlers: map<SocketId, Option<HandlerId>>
    var callbacks: seq<Callback>
    var replies: seq<(ChannelId, Reply)>
    ghost var namespaceOf: map<SocketId, Name>
    ghost var roomsOf: map<SocketId, set<Name>>

    constructor (namespaces: set<Name>)
      ensures Valid() && fresh(adapter)
      ensures sockets == map[] && namespaceOf == map[] && callbacks == [] && replies == []
    {
      adapter := new RoomManager<string>();
      this.namespaces := namespaces;
      sessions, sockets, disconnectHandlers, callbacks, replies := map[], map[], map[], [], [];
      namespaceOf, roomsOf := map[], map[];
    }

    /** A socket in the table is filed under its own id and shares the server's adapter. */
    ghost predicate Filed(id: SocketId)
      reads this`sockets, this`namespaceOf, this`roomsOf, sockets.Values
    {
      id in sockets ==>
        && sockets[id].id == id && sockets[id].adapter == adapter
        && id in roomsOf && sockets[id].rooms == roomsOf[id]
        && id in namespaceOf && namespaceOf[id] == sockets[id].namespace
    }

    ghost predicate Wired()
      reads this`sockets, this`namespaceOf, this`roomsOf, sockets.Values
    {
      roomsOf.Keys == sockets.Keys && forall id :: Filed(id)
    }

    /** `s` was handed out by this server, whether or not it is still live. */
    ghost predicate Knows(s: Socket)
      reads this`sockets, this`namespaceOf
    {
      && s.adapter == adapter && s.id in namespaceOf && namespaceOf[s.id] == s.namespace
      && (s.id in sockets ==> sockets[s.id] == s)
    }

    ghost function Rooms(): (v: View)
      reads this`namespaceOf, this`roomsOf, adapter`rooms
    {
      View(adapter.rooms, roomsOf, namespaceOf)
    }

    ghost predicate Valid()
      reads this`sockets, this`namespaceOf, this`roomsOf, adapter`rooms, adapter`senders, sockets.Values
    {
      Wired() && Mirror(Rooms()) && adapter.senders.Keys == sockets.Keys
    }

    /** No session, an unknown namespace or a refused authentication leaves every table as it was. */
    method HandleConnect(engineSid: Name, namespace: Name, refusal: Option<string>, id: SocketId)
      requires Valid() && id !in namespaceOf
      modifies this`sockets, this`replies, this`callbacks, this`namespaceOf, this`roomsOf, adapter`rooms, adapter`senders
      ensures Valid()
      ensures engineSid in sessions && namespace in namespaces && refusal.None? ==>
                && id in sockets && sockets == old(sockets)[id := sockets[id]]
                && Rooms() == AfterOp(old(Rooms()), Connect(id, namespace))
                && sockets[id].namespace == namespace && sockets[id].engineSid == engineSid
                && adapter.senders == old(adapter.senders)[id := sessions[engineSid]]
                && adapter.rooms == Joined(old(adapter.rooms), RoomKey(namespace, id), id)
                && replies == old(replies) + [(sessions[engineSid], ConnectOk(namespace, id))]
                && callbacks == old(callbacks) + [Connected(id)]
      ensures !(engineSid in sessions && namespace in namespaces && refusal.None?) ==>
                && sockets == old(sockets) && Rooms() == old(Rooms()) && callbacks == old(callbacks)
                && adapter.senders == old(adapter.senders)
                && replies == old(replies) +
                     if engineSid !in sessions then []
                     else [(sessions[engineSid],
                            ConnectError(namespace, if namespace !in namespaces then "Invalid namespace" else refusal.value))]
    {
      var hasNamespace := namespace in namespaces;
      if engineSid in sessions {
        var channel := sessions[engineSid];
        if !hasNamespace {
          replies := replies + [(channel, ConnectError(namespace, "Invalid namespace"))];
        } else if refusal.Some? {
          replies := replies + [(channel, ConnectError(namespace, refusal.value))];
        } else {
          AddSocket(engineSid, namespace, id, channel);
          replies := replies + [(channel, ConnectOk(namespace, id))];
          callbacks := callbacks + [Connected(id)];
        }
      }
    }

    /** The accepted connect: sender and own room first, the socket table last. */
    method AddSocket(engineSid: Name, namespace: Name, id: SocketId, channel: ChannelId)
      requires Valid() && id !in namespaceOf
      modifies this`sockets, this`namespaceOf, this`roomsOf, adapter`rooms, adapter`senders
      ensures Valid()
      ensures id in sockets && sockets == old(sockets)[id := sockets[id]]
      ensures Rooms() == AfterOp(old(Rooms()), Connect(id, namespace))
      ensures sockets[id].namespace == namespace && sockets[id].engineSid == engineSid
      ensures adapter.senders == old(adapter.senders)[id := channel]
      ensures adapter.rooms == Joined(old(adapter.rooms), RoomKey(namespace, id), id)
    {
      ghost var before := Rooms();
      var socket := new Socket(id, engineSid, namespace, adapter);
      adapter.RegisterSender(id, channel);
      adapter.Join(namespace, id, id);
      sockets := sockets[id := socket];
      namespaceOf, roomsOf := namespaceOf[id := namespace], roomsOf[id := {id}];
      MirrorAfterConnect(before, id, namespace);
      forall i ensures Filed(i) { assert old(Filed(i)); }
    }

    /** `Socket::join` by any holder of the socket, live or not. */
    method SocketJoin(s: Socket, room: Name)
      requires Valid() && Knows(s)
      modifies this`roomsOf, s`rooms, adapter`rooms
      ensures Valid()
      ensures s.rooms == old(s.rooms) + {room}
      ensures Rooms() == AfterOp(old(Rooms()), Join(s.id, room))
    {
      ghost var before := Rooms();
      assert Filed(s.id);
      s.Join(room);
      roomsOf := if s.id in roomsOf then roomsOf[s.id := s.rooms] else roomsOf;
      assert Rooms() == ViewAfterJoin(before, s.id, room);
      MirrorAfterJoin(before, s.id, room);
      forall i ensures Filed(i) { assert old(Filed(i)); }
    }

    method SocketLeave(s: Socket, room: Name)
      requires Valid() && Knows(s)
      modifies this`roomsOf, s`rooms, adapter`rooms
      ensures Valid()
      ensures s.rooms == old(s.rooms) - {room}
      ensures Rooms() == AfterOp(old(Rooms()), Leave(s.id, room))
    {
      ghost var before := Rooms();
      assert Filed(s.id);
      s.Leave(room);
      roomsOf := if s.id in roomsOf then roomsOf[s.id := s.rooms] else roomsOf;
      assert Rooms() == ViewAfterLeave(before, s.id, room);
      MirrorAfterLeave(before, s.id, room);
      forall i ensures Filed(i) { assert old(Filed(i)); }
    }

    method RegisterDisconnectHandler(id: SocketId, handler: HandlerId)
      modifies this`disconnectHandlers
      ensures disconnectHandlers == old(disconnectHandlers)[id := Some(handler)]
    {
      disconnectHandlers := disconnectHandlers[id := Some(handler)];
    }

    /** One clean-up, uninterrupted: afterwards no table mentions the socket. */
    method CleanupSocket(id: SocketId)
      requires Valid()
      modifies this`sockets, this`roomsOf, this`disconnectHandlers, this`callbacks, adapter`rooms, adapter`senders
      modifies sockets.Values`rooms
      ensures Valid()
      ensures sockets == old(sockets) - {id}
      ensures adapter.senders == old(adapter.senders) - {id}
      ensures Rooms() == AfterOp(old(Rooms()), Cleanup(id)) && Absent(adapter.rooms, id)
      ensures disconnectHandlers == old(disconnectHandlers) - {id}
      ensures id in old(sockets) ==> old(sockets)[id].rooms == {}
      ensures callbacks == old(callbacks) +
                if id in old(sockets) && id in old(disconnectHandlers) && old(disconnectHandlers)[id].Some?
                then [Disconnected(id, old(disconnectHandlers)[id].value)] else []
    {
      ghost var before := Rooms();
      var handler := if id in disconnectHandlers then disconnectHandlers[id] else None;
      var removed: Option<Socket> := None;
      if id in sockets {
        LiveIsMirrored(id);
        assert Filed(id);
        removed := Some(sockets[id]);
      }
      sockets, roomsOf := sockets - {id}, roomsOf - {id};
      Finish(id, removed, handler);
      MirrorAfterCleanup(before, id);
      forall i ensures Filed(i) { assert old(Filed(i)); }
    }

    /** The clean-up behind the removal from the socket table. */
    method Finish(id: SocketId, removed: Option<Socket>, handler: Option<HandlerId>)
      requires NoEmptyRoom(adapter.rooms)
      requires removed.Some? ==> removed.value.id == id && removed.value.adapter == adapter && removed.value.Mirrored()
      modifies this`disconnectHandlers, this`callbacks, adapter`rooms, adapter`senders
      modifies (if removed.Some? then {removed.value} else {})`rooms
      ensures adapter.rooms == LeftAll(old(adapter.rooms), id)
      ensures adapter.senders == old(adapter.senders) - {id}
      ensures disconnectHandlers == old(disconnectHandlers) - {id}
      ensures removed.Some? ==> removed.value.rooms == {}
      ensures callbacks == old(callbacks) +
                if removed.Some? && handler.Some? then [Disconnected(id, handler.value)] else []
    {
      if removed.Some? {
        Retire(removed.value, handler);
      }
      Forget(id);
    }

    /** What every clean-up does, whether or not it found the socket. */
    method Forget(id: SocketId)
      modifies this`disconnectHandlers, adapter`rooms, adapter`senders
      ensures adapter.rooms == LeftAll(old(adapter.rooms), id)
      ensures adapter.senders == old(adapter.senders) - {id}
      ensures disconnectHandlers == old(disconnectHandlers) - {id}
    {
      adapter.LeaveAll(id);
      adapter.UnregisterSender(id);
      disconnectHandlers := disconnectHandlers - {id};
    }

    lemma LiveIsMirrored(id: SocketId)
      requires Valid() && id in sockets
      ensures sockets[id].Mirrored()
    {
      var socket := sockets[id];
      assert Filed(id);
      forall room ensures room in socket.rooms <==> id in Members(adapter.rooms, RoomKey(socket.namespace, room)) {
        assert Agrees(Rooms(), id, room);
      }
      forall k | k in adapter.rooms && id in adapter.rooms[k] ensures k.namespace == socket.namespace {
        assert OwnNamespace(Rooms(), k, id);
      }
    }

    /** What only the clean-up that found the socket does: the user's handler, then its rooms. */
    method Retire(socket: Socket, handler: Option<HandlerId>)
      requires socket.adapter == adapter && socket.Mirrored() && NoEmptyRoom(adapter.rooms)
      modifies this`callbacks, socket`rooms, adapter`rooms
      ensures callbacks == old(callbacks) + if handler.Some? then [Disconnected(socket.id, handler.value)] else []
      ensures socket.rooms == {} && adapter.rooms == LeftAll(old(adapter.rooms), socket.id)
      ensures LeftAll(adapter.rooms, socket.id) == adapter.rooms
    {
      if handler.Some? {
        callbacks := callbacks + [Disconnected(socket.id, handler.value)];
      }
      socket.LeaveAllRooms();
    }

    function SocketsOf(engineSid: Name): (ids: set<SocketId>)
      reads this`sockets
      ensures forall id :: id in ids <==> id in sockets && sockets[id].engineSid == engineSid
    {
      set id | id in sockets && sockets[id].engineSid == engineSid
    }

    ghost function State(): Tables
      reads this`sockets, this`disconnectHandlers, this`callbacks, adapter`rooms, adapter`senders
    {
      Tables(sockets, disconnectHandlers, adapter.senders, adapter.rooms, callbacks)
    }

    /** A session ends: every socket of the session, in any order, and then the session. */
    method HandleDisconnect(engineSid: Name)
      requires Valid()
      modifies this`sockets, this`roomsOf, this`sessions, this`disconnectHandlers, this`callbacks, adapter`rooms, adapter`senders, sockets.Values`rooms
      ensures Valid()
      ensures sessions == old(sessions) - {engineSid}
      ensures Without(old(State()), State(), old(SocketsOf(engineSid)))
    {
      var mine := SocketsOf(engineSid);
      CleanupAll(mine);
      sessions := sessions - {engineSid};
    }

    method CleanupAll(ids: set<SocketId>)
      requires Valid()
      modifies this`sockets, this`roomsOf, this`disconnectHandlers, this`callbacks, adapter`rooms, adapter`senders, sockets.Values`rooms
      ensures Valid()
      ensures Without(old(State()), State(), ids)
    {
      var todo := ids;
      ghost var order: seq<SocketId>, before := [], State();
      while todo != {}
        invariant Valid() && sockets.Values <= old(sockets).Values
        invariant State() == CleanedUp(before, order)
        invariant (forall i <- order :: i !in todo && i in ids) && ids <= todo + Ids(order)
        invariant NoRepeats(order)
      {
        var id :| id in todo;
        CleanupOne(id, before, order);
        order, todo := order + [id], todo - {id};
      }
      CleanedUpIs(before, order);
      assert Ids(order) == ids;
    }

    method CleanupOne(id: SocketId, ghost before: Tables, ghost order: seq<SocketId>)
      requires Valid() && State() == CleanedUp(before, order)
      modifies this`sockets, this`roomsOf, this`disconnectHandlers, this`callbacks, adapter`rooms, adapter`senders, sockets.Values`rooms
      ensures Valid() && sockets.Values <= old(sockets).Values
      ensures State() == CleanedUp(before, order + [id])
    {
      CleanupSocket(id);
      assert (order + [id])[..|order|] == order;
    }
  }

  // ----- several clean-ups in a row -----

  /** All the tables a clean-up touches, and the calls made to user code. */
  datatype Tables = Tables(sockets: map<SocketId, Socket>, handlers: map<SocketId, Option<HandlerId>>,
                           senders: map<SocketId, ChannelId>, rooms: RoomTable, callbacks: seq<Callback>)

  predicate NoRepeats(order: seq<SocketId>) {
    forall i, j :: 0 <= i < j < |order| ==> order[i] != order[j]
  }

  ghost function Ids(order: seq<SocketId>): set<SocketId> {
    set i <- order
  }

  ghost function CallFor(t: Tables, id: SocketId): seq<Callback> {
    if id in t.sockets && id in t.handlers && t.handlers[id].Some? then [Disconnected(id, t.handlers[id].value)] else []
  }

  ghost function CleanedUp(t: Tables, order: seq<SocketId>): Tables {
    if order == [] then t
    else
      var u, id := CleanedUp(t, order[..|order| - 1]), order[|order| - 1];
      Tables(u.sockets - {id}, u.handlers - {id}, u.senders - {id}, LeftAll(u.rooms, id), u.callbacks + CallFor(u, id))
  }

  /** The tables without the sockets `ids`; each of them that was live had its handler called once, and nothing else was called. */
  ghost predicate Without(t: Tables, u: Tables, ids: set<SocketId>) {
    && u.sockets == t.sockets - ids && u.handlers == t.handlers - ids && u.senders == t.senders - ids
    && (forall key :: Members(u.rooms, key) == Members(t.rooms, key) - ids)
    && t.callbacks <= u.callbacks && Reported(t, u.callbacks[|t.callbacks|..], ids)
  }

  /** What is called when a set of sockets goes: each live one's handler, once. */
  ghost predicate Reported(t: Tables, calls: seq<Callback>, ids: set<SocketId>) {
    && (forall c <- calls :: c.Disconnected?)
    && (forall id :: HandlersCalled(calls, id) ==
                     if id in ids && id in t.sockets && id in t.handlers && t.handlers[id].Some? then [t.handlers[id].value] else [])
  }

  /** Clean-ups in any order come to the same. */
  lemma {:induction false} CleanedUpIs(t: Tables, order: seq<SocketId>)
    requires NoRepeats(order)
    ensures Without(t, CleanedUp(t, order), Ids(order))
  {
    if order == [] {
      forall id ensures HandlersCalled(t.callbacks[|t.callbacks|..], id) == [] { }
    } else {
      var init, id := order[..|order| - 1], order[|order| - 1];
      CleanedUpIs(t, init);
      assert order == init + [id];
      assert Ids(order) == Ids(init) + {id};
      WithoutOneMore(t, CleanedUp(t, init), Ids(init), id);
    }
  }

  lemma WithoutOneMore(t: Tables, u: Tables, ids: set<SocketId>, id: SocketId)
    requires Without(t, u, ids) && id !in ids
    ensures Without(t, Tables(u.sockets - {id}, u.handlers - {id}, u.senders - {id}, LeftAll(u.rooms, id),
                              u.callbacks + CallFor(u, id)), ids + {id})
  {
    OneLess(t.sockets, ids, id);
    OneLess(t.handlers, ids, id);
    OneLess(t.senders, ids, id);
    RoomsOneLess(t.rooms, u.rooms, ids, id);
    var n, calls := |t.callbacks|, u.callbacks[|t.callbacks|..];
    assert CallFor(u, id) == CallFor(t, id);
    assert (u.callbacks + CallFor(u, id))[n..] == calls + CallFor(t, id);
    ReportedOneMore(t, calls, CallFor(t, id), ids, id);
  }

  lemma OneLess<V>(m: map<SocketId, V>, ids: set<SocketId>, id: SocketId)
    ensures (m - ids) - {id} == m - (ids + {id})
  {
  }

  lemma RoomsOneLess(before: RoomTable, rooms: RoomTable, ids: set<SocketId>, id: SocketId)
    requires forall key :: Members(rooms, key) == Members(before, key) - ids
    ensures forall key :: Members(LeftAll(rooms, id), key) == Members(before, key) - (ids + {id})
  {
    forall key ensures Members(LeftAll(rooms, id), key) == Members(before, key) - (ids + {id}) {
      LeftAllMembers(rooms, id, key);
    }
  }

  lemma ReportedOneMore(t: Tables, calls: seq<Callback>, more: seq<Callback>, ids: set<SocketId>, id: SocketId)
    requires Reported(t, calls, ids) && id !in ids && more == CallFor(t, id)
    ensures Reported(t, calls + more, ids + {id})
  {
    forall i ensures HandlersCalled(calls + more, i) ==
                     if i in ids + {id} && i in t.sockets && i in t.handlers && t.handlers[i].Some? then [t.handlers[i].value] else [] {
      HandlersConcat(calls, more, i);
      if more != [] { assert more[..0] == []; }
    }
  }

  /** The targets of one emit; `Socket::broadcast` names no room and `Socket::to` names one. */
  datatype BroadcastBuilder = BroadcastBuilder(namespace: Name, exclude: Option<SocketId>, rooms: seq<Name>)

  /** How many copies of one emit reach a socket. */
  ghost function EmitCopies(table: RoomTable, senders: map<SocketId, ChannelId>, b: BroadcastBuilder, id: SocketId): nat {
    if id !in senders || b.exclude == Some(id) then 0
    else if b.rooms == [] then (if id in NamespaceMembers(table, b.namespace) then 1 else 0)
    else RoomsListing(table, b.namespace, b.rooms, id)
  }

  method Emit(b: BroadcastBuilder, adapter: RoomManager<string>, packet: string)
    modifies adapter`outbox
    ensures old(adapter.outbox) <= adapter.outbox
    ensures forall id :: Copies(adapter.outbox[|old(adapter.outbox)|..], id) == EmitCopies(adapter.rooms, adapter.senders, b, id)
    ensures forall d <- adapter.outbox[|old(adapter.outbox)|..] ::
              d.packet == packet && d.to in adapter.senders && adapter.senders[d.to] == d.channel
  {
    if |b.rooms| == 0 {
      adapter.BroadcastNamespace(b.namespace, packet, b.exclude);
    } else {
      ghost var sent: seq<Delivery<string>> := [];
      for i := 0 to |b.rooms|
        invariant adapter.outbox == old(adapter.outbox) + sent
        invariant forall id :: Copies(sent, id) ==
                    if id !in adapter.senders || b.exclude == Some(id) then 0
                    else RoomsListing(adapter.rooms, b.namespace, b.rooms[..i], id)
        invariant forall d <- sent :: d.packet == packet && d.to in adapter.senders && adapter.senders[d.to] == d.channel
      {
        ghost var before := adapter.outbox;
        adapter.BroadcastRoom(b.namespace, b.rooms[i], packet, b.exclude);
        ghost var more := adapter.outbox[|before|..];
        forall id ensures Copies(sent + more, id) ==
                    if id !in adapter.senders || b.exclude == Some(id) then 0
                    else RoomsListing(adapter.rooms, b.namespace, b.rooms[..i + 1], id)
        {
          CopiesConcat(sent, more, id);
          assert b.rooms[..i + 1][..i] == b.rooms[..i];
        }
        sent := sent + more;
        assert adapter.outbox == old(adapter.outbox) + sent;
      }
      assert b.rooms[..|b.rooms|] == b.rooms;
      assert adapter.outbox[|old(adapter.outbox)|..] == sent;
    }
  }

  /** Two entries of the room list share the recipient `id`. */
  ghost predicate SharedBy(table: RoomTable, senders: map<SocketId, ChannelId>, b: BroadcastBuilder, id: SocketId) {
    && id in senders && b.exclude != Some(id)
    && exists i, j :: 0 <= i < j < |b.rooms|
                      && id in Members(table, RoomKey(b.namespace, b.rooms[i]))
                      && id in Members(table, RoomKey(b.namespace, b.rooms[j]))
  }

  /**
    Naming several rooms emits once per room, so a socket can get several copies. The exact
    condition under which one emit gives nobody a second copy:
  */
  lemma EmitAtMostOnceIff(table: RoomTable, senders: map<SocketId, ChannelId>, b: BroadcastBuilder)
    ensures (forall id :: EmitCopies(table, senders, b, id) <= 1) <==> !(exists id :: SharedBy(table, senders, b, id))
  {
    forall id ensures EmitCopies(table, senders, b, id) > 1 <==> SharedBy(table, senders, b, id) {
      RoomsListingBounds(table, b.namespace, b.rooms, id);
    }
  }

  /** A socket in both of two named rooms gets two copies. */
  lemma EmitToTwoRoomsDuplicates(namespace: Name, a: Name, b: Name, id: SocketId, channel: ChannelId)
    ensures var table := map[RoomKey(namespace, a) := {id}, RoomKey(namespace, b) := {id}];
            EmitCopies(table, map[id := channel], BroadcastBuilder(namespace, None, [a, b]), id) == 2
  {
    var table := map[RoomKey(namespace, a) := {id}, RoomKey(namespace, b) := {id}];
    assert [a, b][..1] == [a] && [a][..0] == [];
    assert RoomsListing(table, namespace, [], id) == 0;
    assert RoomsListing(table, namespace, [a], id) == 1;
    assert RoomsListing(table, namespace, [a, b], id) == 2;
  }

  /** Whoever an emit can reach is reached: nobody in a named room is missed, and nobody else is written to. */
  lemma EmitReachesExactlyTargets(table: RoomTable, senders: map<SocketId, ChannelId>, b: BroadcastBuilder, id: SocketId)
    ensures EmitCopies(table, senders, b, id) > 0 <==>
            id in Reachable(
              if b.rooms == [] then NamespaceMembers(table, b.namespace)
              else set i, m | 0 <= i < |b.rooms| && m in Members(table, RoomKey(b.namespace, b.rooms[i])) :: m,
              senders, b.exclude)
  {
    RoomsListingBounds(table, b.namespace, b.rooms, id);
  }
}
