/**
  One socket from its connect to its end, as a run of the interleaved server: the steps of module Cleanup
  can be taken, in this order and to this effect.
*/
module SocketLifetime {
  import opened Wrappers
  import opened Rooms
  import opened Cleanup

  lemma RunOn(states: seq<State>, steps: seq<Step>, step: Step, s: State)
    requires IsRun(states, steps) && Enabled(states[|steps|], step) && s == Apply(states[|steps|], step)
    ensures IsRun(states + [s], steps + [step]) && (states + [s])[|steps| + 1] == s
  {
    forall i | 0 <= i <= |steps| ensures TakesStep(states + [s], steps + [step], i) {
      if i < |steps| { assert TakesStep(states, steps, i); }
    }
  }

  /** A connect has been accepted for the socket, and has come this far. */
  function Arriving(session: Name, namespace: Name, id: SocketId, pc: ConnectPc): State {
    Init().(info := map[id := Info(session, namespace, 0)], sessions := {session}, roomSets := map[id := {id}],
            tasks := map[0 := Connecting(id, pc)],
            senders := if pc.Created? then {} else {id},
            table := if pc.OwnRoomJoined? then map[RoomKey(namespace, id) := {id}] else map[])
  }

  /** The socket is live, in its own room, with a disconnect handler, and no task is under way. */
  function Live(session: Name, namespace: Name, id: SocketId, handler: HandlerId): State {
    Arriving(session, namespace, id, OwnRoomJoined).(
      tasks := map[], sockets := {id}, handlers := map[id := Some(handler)], h := Init().h.(published := {id}))
  }

  lemma Connects(session: Name, namespace: Name, id: SocketId) returns (states: seq<State>, steps: seq<Step>)
    ensures IsRun(states, steps) && states[|steps|] == Arriving(session, namespace, id, OwnRoomJoined)
  {
    states, steps := [Init()], [];
    var s1 := Init().(sessions := {session});
    RunOn(states, steps, OpenSession(session), s1);
    states, steps := states + [s1], steps + [OpenSession(session)];
    var s2 := Arriving(session, namespace, id, Created);
    RunOn(states, steps, BeginConnect(0, id, session, namespace), s2);
    states, steps := states + [s2], steps + [BeginConnect(0, id, session, namespace)];
    var s3 := Arriving(session, namespace, id, SenderRegistered);
    assert s2.senders + {id} == {id};
    RunOn(states, steps, RegisterSender(0), s3);
    states, steps := states + [s3], steps + [RegisterSender(0)];
    var s4, empty: RoomTable := Arriving(session, namespace, id, OwnRoomJoined), map[];
    assert Members(empty, RoomKey(namespace, id)) + {id} == {id};
    RunOn(states, steps, JoinOwnRoom(0), s4);
    states, steps := states + [s4], steps + [JoinOwnRoom(0)];
  }

  lemma GoesLive(session: Name, namespace: Name, id: SocketId, handler: HandlerId) returns (states: seq<State>, steps: seq<Step>)
    ensures IsRun(states, steps) && states[|steps|] == Live(session, namespace, id, handler)
  {
    states, steps := Connects(session, namespace, id);
    var s5 := Live(session, namespace, id, handler).(handlers := map[]);
    RunOn(states, steps, Publish(0), s5);
    states, steps := states + [s5], steps + [Publish(0)];
    var s6 := Live(session, namespace, id, handler);
    RunOn(states, steps, OnDisconnect(id, handler), s6);
    states, steps := states + [s6], steps + [OnDisconnect(id, handler)];
    RunOn(states, steps, OnEvent(id), s6);
    states, steps := states + [s6], steps + [OnEvent(id)];
  }

  /** While it is in a room besides its own. */
  function Visiting(s: State, namespace: Name, id: SocketId, room: Name): State {
    s.(roomSets := map[id := {id, room}], table := map[RoomKey(namespace, id) := {id}, RoomKey(namespace, room) := {id}])
  }

  lemma EntersRoom(states: seq<State>, steps: seq<Step>, s: State, session: Name, namespace: Name, id: SocketId, handler: HandlerId, room: Name)
    returns (states': seq<State>, steps': seq<Step>)
    requires IsRun(states, steps) && states[|steps|] == s == Live(session, namespace, id, handler) && room != id
    ensures IsRun(states', steps') && states'[|steps'|] == Visiting(s, namespace, id, room)
  {
    var own, key := RoomKey(namespace, id), RoomKey(namespace, room);
    var s1 := s.(roomSets := map[id := {id, room}], tasks := map[0 := Joining(id, room)]);
    assert {id} + {room} == {id, room};
    RunOn(states, steps, JoinBegin(0, id, room), s1);
    states', steps' := states + [s1], steps + [JoinBegin(0, id, room)];
    var s2 := Visiting(s, namespace, id, room);
    assert Members(s1.table, key) + {id} == {id};
    RunOn(states', steps', JoinEnd(0), s2);
    states', steps' := states' + [s2], steps' + [JoinEnd(0)];
  }

  lemma LeavesRoom(states: seq<State>, steps: seq<Step>, s: State, session: Name, namespace: Name, id: SocketId, handler: HandlerId, room: Name)
    returns (states': seq<State>, steps': seq<Step>)
    requires IsRun(states, steps) && states[|steps|] == Visiting(s, namespace, id, room) && s == Live(session, namespace, id, handler) && room != id
    ensures IsRun(states', steps') && states'[|steps'|] == s
  {
    var own, key := RoomKey(namespace, id), RoomKey(namespace, room);
    var s1 := Visiting(s, namespace, id, room).(roomSets := map[id := {id}], tasks := map[0 := Quitting(id, room)]);
    assert {id, room} - {room} == {id};
    RunOn(states, steps, LeaveBegin(0, id, room), s1);
    states', steps' := states + [s1], steps + [LeaveBegin(0, id, room)];
    assert {id} - {id} == {} && Left(s1.table, key, id) == map[own := {id}];
    RunOn(states', steps', LeaveEnd(0), s);
    states', steps' := states' + [s], steps' + [LeaveEnd(0)];
  }

  /** A clean-up of the live socket, by a task that ends the whole session or not. */
  function Leaving(s: State, whole: Option<Name>, pending: seq<SocketId>, at: Pc): State {
    s.(tasks := map[1 := Closing(whole, pending, at)])
  }

  lemma BeginsToGo(states: seq<State>, steps: seq<Step>, s: State, session: Name, namespace: Name, id: SocketId, handler: HandlerId, whole: bool)
    returns (states': seq<State>, steps': seq<Step>)
    requires IsRun(states, steps) && states[|steps|] == s == Live(session, namespace, id, handler)
    ensures IsRun(states', steps') && states'[|steps'|] == Leaving(s, if whole then Some(session) else None, [id], Idle)
  {
    var begin := if whole then BeginDisconnect(1, session, [id]) else BeginDisconnectOne(1, id, session, namespace);
    assert SocketsOf(s, session) == {id};
    var leaving := Leaving(s, if whole then Some(session) else None, [id], Idle);
    RunOn(states, steps, begin, leaving);
    states', steps' := states + [leaving], steps + [begin];
  }

  /** Its clean-up has taken it out of the table. */
  function Claimed(s: State, id: SocketId, handler: HandlerId): State {
    s.(sockets := {}, h := s.h.(started := map[id := Some(handler)], claim := map[id := (1, Some(handler))]))
  }

  /** Its handler has been called. */
  function Told(s: State, id: SocketId, handler: HandlerId): State {
    var t := Claimed(s, id, handler);
    t.(calls := [(id, handler)], h := t.h.(called := {id}))
  }

  lemma HandlerIsCalled(states: seq<State>, steps: seq<Step>, s: State, session: Name, namespace: Name, id: SocketId, handler: HandlerId, whole: Option<Name>)
    returns (states': seq<State>, steps': seq<Step>)
    requires IsRun(states, steps) && s == Live(session, namespace, id, handler) && states[|steps|] == Leaving(s, whole, [id], Idle)
    ensures IsRun(states', steps') && states'[|steps'|] == Leaving(Told(s, id, handler), whole, [], ReadRooms(id))
  {
    var s0 := s.(h := s.h.(started := map[id := Some(handler)]));
    var s1 := Leaving(s0, whole, [], Remove(id, Some(handler)));
    assert [id][1..] == [];
    RunOn(states, steps, ReadHandler(1), s1);
    states', steps' := states + [s1], steps + [ReadHandler(1)];
    var s2 := Leaving(Claimed(s, id, handler), whole, [], Call(id, Some(handler)));
    assert s1.sockets - {id} == {};
    RunOn(states', steps', RemoveSocket(1), s2);
    states', steps' := states' + [s2], steps' + [RemoveSocket(1)];
    var s3 := Leaving(Told(s, id, handler), whole, [], ReadRooms(id));
    assert [] + [(id, handler)] == [(id, handler)] && s2.h.called + {id} == {id};
    RunOn(states', steps', CallHandler(1), s3);
    states', steps' := states' + [s3], steps' + [CallHandler(1)];
  }

  /** It is in no room and its own set is empty. */
  function OutOfRooms(s: State, id: SocketId): State {
    s.(table := map[], roomSets := map[id := {}])
  }

  lemma RoomIsLeft(states: seq<State>, steps: seq<Step>, s: State, session: Name, namespace: Name, id: SocketId, handler: HandlerId, whole: Option<Name>)
    returns (states': seq<State>, steps': seq<Step>)
    requires IsRun(states, steps) && s == Told(Live(session, namespace, id, handler), id, handler)
    requires states[|steps|] == Leaving(s, whole, [], LeaveRooms(id, {id}))
    ensures IsRun(states', steps') && states'[|steps'|] == Leaving(s.(table := map[]), whole, [], LeaveRooms(id, {}))
  {
    var s1, s2 := states[|steps|], Leaving(s.(table := map[]), whole, [], LeaveRooms(id, {}));
    assert Left(s1.table, RoomKey(namespace, id), id) == map[] && {id} - {id} == {};
    assert s1.h.rejoined - {(id, id)} == {};
    RunOn(states, steps, LeaveRoom(1, id), s2);
    states', steps' := states + [s2], steps + [LeaveRoom(1, id)];
  }

  lemma RoomsAreLeft(states: seq<State>, steps: seq<Step>, s: State, session: Name, namespace: Name, id: SocketId, handler: HandlerId, whole: Option<Name>)
    returns (states': seq<State>, steps': seq<Step>)
    requires IsRun(states, steps) && s == Told(Live(session, namespace, id, handler), id, handler)
    requires states[|steps|] == Leaving(s, whole, [], ReadRooms(id))
    ensures IsRun(states', steps') && states'[|steps'|] == Leaving(OutOfRooms(s, id), whole, [], LeaveAll(id))
  {
    states', steps' := RoomsAreRead(states, steps, s, session, namespace, id, handler, whole);
    states', steps' := RoomIsLeft(states', steps', s, session, namespace, id, handler, whole);
    var cleared := Leaving(OutOfRooms(s, id), whole, [], LeaveAll(id));
    RunOn(states', steps', ClearRooms(1), cleared);
    states', steps' := states' + [cleared], steps' + [ClearRooms(1)];
  }

  lemma RoomsAreRead(states: seq<State>, steps: seq<Step>, s: State, session: Name, namespace: Name, id: SocketId, handler: HandlerId, whole: Option<Name>)
    returns (states': seq<State>, steps': seq<Step>)
    requires IsRun(states, steps) && s == Told(Live(session, namespace, id, handler), id, handler)
    requires states[|steps|] == Leaving(s, whole, [], ReadRooms(id))
    ensures IsRun(states', steps') && states'[|steps'|] == Leaving(s, whole, [], LeaveRooms(id, {id}))
  {
    var s1 := Leaving(s, whole, [], LeaveRooms(id, {id}));
    RunOn(states, steps, SnapshotRooms(1), s1);
    states', steps' := states + [s1], steps + [SnapshotRooms(1)];
  }

  /** Nothing is left of it but its identity. */
  function Ended(session: Name, namespace: Name, id: SocketId, handler: HandlerId): State {
    Init().(info := map[id := Info(session, namespace, 0)], sessions := {session}, roomSets := map[id := {}], calls := [(id, handler)],
            h := Init().h.(published := {id}, started := map[id := Some(handler)], claim := map[id := (1, Some(handler))],
                           called := {id}, swept := {id}, finished := {id}))
  }

  lemma SenderIsLeft(states: seq<State>, steps: seq<Step>, s: State, session: Name, namespace: Name, id: SocketId, handler: HandlerId, whole: Option<Name>)
    returns (states': seq<State>, steps': seq<Step>)
    requires IsRun(states, steps) && s == OutOfRooms(Told(Live(session, namespace, id, handler), id, handler), id)
    requires states[|steps|] == Leaving(s, whole, [], LeaveAll(id))
    ensures IsRun(states', steps')
    ensures states'[|steps'|] == Leaving(s.(senders := {}, h := s.h.(swept := {id})), whole, [], DropHandlers(id))
  {
    var s1 := Leaving(s.(h := s.h.(swept := {id})), whole, [], Unregister(id));
    assert LeftAll(map[], id) == map[] && s.h.swept + {id} == {id};
    RunOn(states, steps, LeaveEverything(1), s1);
    states', steps' := states + [s1], steps + [LeaveEverything(1)];
    var s2 := Leaving(s.(senders := {}, h := s.h.(swept := {id})), whole, [], DropHandlers(id));
    assert s1.senders - {id} == {};
    RunOn(states', steps', UnregisterSender(1), s2);
    states', steps' := states' + [s2], steps' + [UnregisterSender(1)];
  }

  lemma TablesAreLeft(states: seq<State>, steps: seq<Step>, s: State, session: Name, namespace: Name, id: SocketId, handler: HandlerId, whole: Option<Name>)
    returns (states': seq<State>, steps': seq<Step>)
    requires IsRun(states, steps) && s == OutOfRooms(Told(Live(session, namespace, id, handler), id, handler), id)
    requires states[|steps|] == Leaving(s, whole, [], LeaveAll(id))
    ensures IsRun(states', steps') && states'[|steps'|] == Leaving(Ended(session, namespace, id, handler), whole, [], Idle)
  {
    states', steps' := SenderIsLeft(states, steps, s, session, namespace, id, handler, whole);
    var s2 := states'[|steps'|];
    var s3 := Leaving(Ended(session, namespace, id, handler), whole, [], Idle);
    assert s2.handlers - {id} == map[] && s2.h.finished + {id} == {id} && s2.h.reentered - {id} == {};
    RunOn(states', steps', RemoveHandlers(1), s3);
    states', steps' := states' + [s3], steps' + [RemoveHandlers(1)];
  }

  /**
    A socket connects, registers a handler, joins and leaves a room, and goes, by itself or with its session:
    the handler is called once, no table lists it, no task is left, and the session is gone in the second case only.
  */
  lemma ComesAndGoes(session: Name, namespace: Name, id: SocketId, handler: HandlerId, room: Name, whole: bool) returns (states: seq<State>, steps: seq<Step>)
    requires room != id
    ensures IsRun(states, steps)
    ensures var s := states[|states| - 1];
            && s.calls == [(id, handler)] && s.tasks == map[] && s.sockets == {} && s.senders == {} && s.handlers == map[]
            && s.table == map[] && s.roomSets == map[id := {}] && s.sessions == if whole then {} else {session}
  {
    var live := Live(session, namespace, id, handler);
    states, steps := GoesLive(session, namespace, id, handler);
    states, steps := EntersRoom(states, steps, live, session, namespace, id, handler, room);
    states, steps := LeavesRoom(states, steps, live, session, namespace, id, handler, room);
    var scope := if whole then Some(session) else None;
    states, steps := BeginsToGo(states, steps, live, session, namespace, id, handler, whole);
    states, steps := HandlerIsCalled(states, steps, live, session, namespace, id, handler, scope);
    states, steps := RoomsAreLeft(states, steps, Told(live, id, handler), session, namespace, id, handler, scope);
    states, steps := TablesAreLeft(states, steps, OutOfRooms(Told(live, id, handler), id), session, namespace, id, handler, scope);
    var ended := Ended(session, namespace, id, handler).(sessions := if whole then {} else {session});
    assert {session} - {session} == {};
    RunOn(states, steps, EndSession(1), ended);
    states, steps := states + [ended], steps + [EndSession(1)];
  }
}
