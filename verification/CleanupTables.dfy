/**
  The tables of the Socket.IO server as the steps of a run left them (engine/src/core/socketio/handler.rs,
  socket.rs): who is in them, by the last step that put something in or took it out.
*/
module CleanupTables {
  import opened Wrappers
  import opened Rooms
  import opened Cleanup

  const Never: nat -> bool := (k: nat) => false

  /** The socket that a step of a task is about. */
  function Subject(task: Task): Option<SocketId> {
    match task
    case Connecting(id, _) => Some(id)
    case Joining(id, _) => Some(id)
    case Quitting(id, _) => Some(id)
    case Closing(_, _, at) => if at.Idle? then None else Some(at.id)
  }

  /** A step of a task that is about `id`. */
  ghost predicate On(s: State, step: Step, id: SocketId) {
    TakenBy(step).Some? && step.t in s.tasks && Subject(s.tasks[step.t]) == Some(id)
  }

  // ----- sockets and senders -----

  ghost function Publishes(states: seq<State>, steps: seq<Step>, id: SocketId): nat -> bool {
    (k: nat) => k < |steps| && k < |states| && steps[k].Publish? && On(states[k], steps[k], id)
  }

  ghost function Removes(states: seq<State>, steps: seq<Step>, id: SocketId): nat -> bool {
    (k: nat) => k < |steps| && k < |states| && steps[k].RemoveSocket? && On(states[k], steps[k], id)
  }

  ghost function RegistersSender(states: seq<State>, steps: seq<Step>, id: SocketId): nat -> bool {
    (k: nat) => k < |steps| && k < |states| && steps[k].RegisterSender? && On(states[k], steps[k], id)
  }

  ghost function UnregistersSender(states: seq<State>, steps: seq<Step>, id: SocketId): nat -> bool {
    (k: nat) => k < |steps| && k < |states| && steps[k].UnregisterSender? && On(states[k], steps[k], id)
  }

  /** A socket is in the table exactly if it was published and no clean-up has removed it since; likewise its sender. */
  lemma SocketIff(states: seq<State>, steps: seq<Step>, i: nat, id: SocketId)
    requires IsRun(states, steps) && i < |states|
    ensures id in states[i].sockets <==> Since(i, Publishes(states, steps, id), Removes(states, steps, id))
    ensures id in states[i].senders <==> Since(i, RegistersSender(states, steps, id), UnregistersSender(states, steps, id))
  {
    forall k: nat | k < i
      ensures Tracks(InSockets(states, id), Publishes(states, steps, id), Removes(states, steps, id), k)
           && Tracks(InSenders(states, id), RegistersSender(states, steps, id), UnregistersSender(states, steps, id), k)
    {
      SocketTracks(states, steps, k, id);
    }
    SinceTracks(i, InSockets(states, id), Publishes(states, steps, id), Removes(states, steps, id));
    SinceTracks(i, InSenders(states, id), RegistersSender(states, steps, id), UnregistersSender(states, steps, id));
  }

  ghost function InSockets(states: seq<State>, id: SocketId): nat -> bool {
    (k: nat) => k < |states| && id in states[k].sockets
  }

  ghost function InSenders(states: seq<State>, id: SocketId): nat -> bool {
    (k: nat) => k < |states| && id in states[k].senders
  }

  lemma SocketTracks(states: seq<State>, steps: seq<Step>, k: nat, id: SocketId)
    requires IsRun(states, steps) && k < |steps|
    ensures Tracks(InSockets(states, id), Publishes(states, steps, id), Removes(states, steps, id), k)
    ensures Tracks(InSenders(states, id), RegistersSender(states, steps, id), UnregistersSender(states, steps, id), k)
  {
    assert TakesStep(states, steps, k);
    SocketStep(states[k], steps[k], states[k + 1], id);
  }

  lemma SocketStep(s: State, step: Step, s': State, id: SocketId)
    requires Enabled(s, step) && s'.sockets == SocketsAfter(s, step) && s'.senders == SendersAfter(s, step)
    ensures id in s'.sockets <==>
            (step.Publish? && On(s, step, id)) || (id in s.sockets && !(step.RemoveSocket? && On(s, step, id)))
    ensures id in s'.senders <==>
            (step.RegisterSender? && On(s, step, id)) || (id in s.senders && !(step.UnregisterSender? && On(s, step, id)))
  {
  }

  // ----- handlers -----

  ghost function Sets(steps: seq<Step>, id: SocketId): nat -> bool {
    (k: nat) => k < |steps| && ((steps[k].OnDisconnect? && steps[k].id == id) || (steps[k].OnEvent? && steps[k].id == id))
  }

  ghost function SetsTo(steps: seq<Step>, id: SocketId, handler: HandlerId): nat -> bool {
    (k: nat) => k < |steps| && steps[k] == OnDisconnect(id, handler)
  }

  ghost function Drops(states: seq<State>, steps: seq<Step>, id: SocketId): nat -> bool {
    (k: nat) => k < |steps| && k < |states| && steps[k].RemoveHandlers? && On(states[k], steps[k], id)
  }

  ghost function DropsOrSets(states: seq<State>, steps: seq<Step>, id: SocketId, handler: HandlerId): nat -> bool {
    (k: nat) => k < |steps| && k < |states| &&
                ((steps[k].RemoveHandlers? && On(states[k], steps[k], id)) ||
                 (steps[k].OnDisconnect? && steps[k].id == id && steps[k].handler != handler))
  }

  /** A socket has an entry in the handler table exactly if something was registered for it since the table last dropped it. */
  lemma EntryIff(states: seq<State>, steps: seq<Step>, i: nat, id: SocketId)
    requires IsRun(states, steps) && i < |states|
    ensures id in states[i].handlers <==> Since(i, Sets(steps, id), Drops(states, steps, id))
  {
    forall k: nat | k < i ensures Tracks(HasEntry(states, id), Sets(steps, id), Drops(states, steps, id), k) {
      EntryTracks(states, steps, k, id);
    }
    SinceTracks(i, HasEntry(states, id), Sets(steps, id), Drops(states, steps, id));
  }

  ghost function HasEntry(states: seq<State>, id: SocketId): nat -> bool {
    (k: nat) => k < |states| && id in states[k].handlers
  }

  lemma EntryTracks(states: seq<State>, steps: seq<Step>, k: nat, id: SocketId)
    requires IsRun(states, steps) && k < |steps|
    ensures Tracks(HasEntry(states, id), Sets(steps, id), Drops(states, steps, id), k)
  {
    assert TakesStep(states, steps, k);
    EntryStep(states[k], steps[k], states[k + 1], id);
  }

  lemma EntryStep(s: State, step: Step, s': State, id: SocketId)
    requires Enabled(s, step) && s'.handlers == HandlersAfter(s, step)
    ensures id in s'.handlers <==>
            (step.OnDisconnect? && step.id == id) || (step.OnEvent? && step.id == id) ||
            (id in s.handlers && !(step.RemoveHandlers? && On(s, step, id)))
  {
  }

  /** It has a disconnect handler exactly if that was the last one registered since. */
  lemma HandlerIff(states: seq<State>, steps: seq<Step>, i: nat, id: SocketId, handler: HandlerId)
    requires IsRun(states, steps) && i < |states|
    ensures HandlerOf(states[i], id) == Some(handler) <==> Since(i, SetsTo(steps, id, handler), DropsOrSets(states, steps, id, handler))
  {
    forall k: nat | k < i ensures Tracks(HasHandler(states, id, handler), SetsTo(steps, id, handler), DropsOrSets(states, steps, id, handler), k) {
      HandlerTracks(states, steps, k, id, handler);
    }
    SinceTracks(i, HasHandler(states, id, handler), SetsTo(steps, id, handler), DropsOrSets(states, steps, id, handler));
  }

  ghost function HasHandler(states: seq<State>, id: SocketId, handler: HandlerId): nat -> bool {
    (k: nat) => k < |states| && HandlerOf(states[k], id) == Some(handler)
  }

  lemma HandlerTracks(states: seq<State>, steps: seq<Step>, k: nat, id: SocketId, handler: HandlerId)
    requires IsRun(states, steps) && k < |steps|
    ensures Tracks(HasHandler(states, id, handler), SetsTo(steps, id, handler), DropsOrSets(states, steps, id, handler), k)
  {
    assert TakesStep(states, steps, k);
    HandlerStep(states[k], steps[k], states[k + 1], id, handler);
  }

  lemma HandlerStep(s: State, step: Step, s': State, id: SocketId, handler: HandlerId)
    requires Enabled(s, step) && s'.handlers == HandlersAfter(s, step)
    ensures HandlerOf(s', id) == Some(handler) <==>
            (step == OnDisconnect(id, handler) ||
             (HandlerOf(s, id) == Some(handler) &&
              !(step.RemoveHandlers? && On(s, step, id)) && !(step.OnDisconnect? && step.id == id && step.handler != handler)))
  {
  }

  // ----- rooms -----

  /** The step puts the socket into the room, in the adapter: at connect its own room, later any room it joins. */
  ghost predicate Lists(s: State, step: Step, key: RoomKey, id: SocketId) {
    && On(s, step, id) && id in s.info && s.info[id].namespace == key.namespace
    && ((step.JoinOwnRoom? && key.room == id) || (step.JoinEnd? && s.tasks[step.t].Joining? && s.tasks[step.t].room == key.room))
  }

  /** The step takes it out: a leave, or a clean-up that leaves that room or all rooms. */
  ghost predicate Unlists(s: State, step: Step, key: RoomKey, id: SocketId) {
    && On(s, step, id)
    && (step.LeaveEverything? ||
        (id in s.info && s.info[id].namespace == key.namespace &&
         ((step.LeaveEnd? && s.tasks[step.t].Quitting? && s.tasks[step.t].room == key.room) || (step.LeaveRoom? && step.room == key.room))))
  }

  ghost function ListsAt(states: seq<State>, steps: seq<Step>, key: RoomKey, id: SocketId): nat -> bool {
    (k: nat) => k < |steps| && k < |states| && Lists(states[k], steps[k], key, id)
  }

  ghost function UnlistsAt(states: seq<State>, steps: seq<Step>, key: RoomKey, id: SocketId): nat -> bool {
    (k: nat) => k < |steps| && k < |states| && Unlists(states[k], steps[k], key, id)
  }

  /** The adapter lists a socket in a room exactly if it was put there and has not been taken out since. */
  lemma ListedIff(states: seq<State>, steps: seq<Step>, i: nat, key: RoomKey, id: SocketId)
    requires IsRun(states, steps) && i < |states|
    ensures id in Members(states[i].table, key) <==> Since(i, ListsAt(states, steps, key, id), UnlistsAt(states, steps, key, id))
  {
    forall k: nat | k < i ensures Tracks(IsListed(states, key, id), ListsAt(states, steps, key, id), UnlistsAt(states, steps, key, id), k) {
      ListedTracks(states, steps, k, key, id);
    }
    SinceTracks(i, IsListed(states, key, id), ListsAt(states, steps, key, id), UnlistsAt(states, steps, key, id));
  }

  ghost function IsListed(states: seq<State>, key: RoomKey, id: SocketId): nat -> bool {
    (k: nat) => k < |states| && id in Members(states[k].table, key)
  }

  lemma ListedTracks(states: seq<State>, steps: seq<Step>, k: nat, key: RoomKey, id: SocketId)
    requires IsRun(states, steps) && k < |steps|
    ensures Tracks(IsListed(states, key, id), ListsAt(states, steps, key, id), UnlistsAt(states, steps, key, id), k)
  {
    assert TakesStep(states, steps, k);
    ListedStep(states[k], steps[k], states[k + 1], key, id);
  }

  lemma ListedStep(s: State, step: Step, s': State, key: RoomKey, id: SocketId)
    requires Enabled(s, step) && s'.table == TableAfter(s, step)
    ensures id in Members(s'.table, key) <==>
            Lists(s, step, key, id) || (id in Members(s.table, key) && !Unlists(s, step, key, id))
  {
    match step
    case JoinOwnRoom(t) => JoinedMembers(s.table, RoomKey(s.info[s.tasks[t].id].namespace, s.tasks[t].id), s.tasks[t].id, key);
    case JoinEnd(t) => JoinedMembers(s.table, RoomKey(s.info[s.tasks[t].id].namespace, s.tasks[t].room), s.tasks[t].id, key);
    case LeaveRoom(t, room) => LeftMembers(s.table, RoomKey(s.info[s.tasks[t].at.id].namespace, room), s.tasks[t].at.id, key);
    case LeaveEnd(t) => LeftMembers(s.table, RoomKey(s.info[s.tasks[t].id].namespace, s.tasks[t].room), s.tasks[t].id, key);
    case LeaveEverything(t) => LeftAllMembers(s.table, s.tasks[t].at.id, key);
    case _ =>
  }

  ghost function Enters(steps: seq<Step>, id: SocketId, room: Name): nat -> bool {
    (k: nat) => k < |steps| &&
                ((steps[k].BeginConnect? && steps[k].id == id && room == id) || (steps[k].JoinBegin? && steps[k].id == id && steps[k].room == room))
  }

  ghost function Clears(states: seq<State>, steps: seq<Step>, id: SocketId): nat -> bool {
    (k: nat) => k < |steps| && k < |states| && steps[k].ClearRooms? && On(states[k], steps[k], id)
  }

  ghost function ClearsOrLeaves(states: seq<State>, steps: seq<Step>, id: SocketId, room: Name): nat -> bool {
    (k: nat) => k < |steps| && k < |states| &&
                ((steps[k].ClearRooms? && On(states[k], steps[k], id)) || (steps[k].LeaveBegin? && steps[k].id == id && steps[k].room == room))
  }

  /** The socket's own set holds a room exactly if it entered it and has neither left it nor been cleared since. */
  lemma RoomSetIff(states: seq<State>, steps: seq<Step>, i: nat, id: SocketId, room: Name)
    requires IsRun(states, steps) && i < |states|
    ensures id in states[i].roomSets && room in states[i].roomSets[id] <==>
            Since(i, Enters(steps, id, room), ClearsOrLeaves(states, steps, id, room))
  {
    forall k: nat | k < i ensures Tracks(HasRoom(states, id, room), Enters(steps, id, room), ClearsOrLeaves(states, steps, id, room), k) {
      RoomSetTracks(states, steps, k, id, room);
    }
    SinceTracks(i, HasRoom(states, id, room), Enters(steps, id, room), ClearsOrLeaves(states, steps, id, room));
  }

  ghost function HasRoom(states: seq<State>, id: SocketId, room: Name): nat -> bool {
    (k: nat) => k < |states| && id in states[k].roomSets && room in states[k].roomSets[id]
  }

  lemma RoomSetTracks(states: seq<State>, steps: seq<Step>, k: nat, id: SocketId, room: Name)
    requires IsRun(states, steps) && k < |steps|
    ensures Tracks(HasRoom(states, id, room), Enters(steps, id, room), ClearsOrLeaves(states, steps, id, room), k)
  {
    RunInv(states, steps, k);
    OrderedAt(states[k], id);
    assert TakesStep(states, steps, k);
    RoomSetStep(states[k], steps[k], states[k + 1], id, room);
  }

  lemma OrderedAt(s: State, id: SocketId)
    requires Inv(s)
    ensures Ordered(s, id)
  {
  }

  lemma RoomSetStep(s: State, step: Step, s': State, id: SocketId, room: Name)
    requires Enabled(s, step) && s'.roomSets == RoomSetsAfter(s, step) && Ordered(s, id)
    ensures id in s'.roomSets && room in s'.roomSets[id] <==>
            ((step.BeginConnect? && step.id == id && room == id) || (step.JoinBegin? && step.id == id && step.room == room)) ||
            (id in s.roomSets && room in s.roomSets[id] &&
             !((step.ClearRooms? && On(s, step, id)) || (step.LeaveBegin? && step.id == id && step.room == room)))
  {
  }

  // ----- what the clean-up that finds the socket does -----

  /** It is on its way to clear the room set: it has the handler to call, then the rooms to leave. */
  ghost predicate WillClear(s: State, id: SocketId) {
    && id in s.h.claim && ClosingAt(s, s.h.claim[id].0)
    && var at := s.tasks[s.h.claim[id].0].at; (at.Call? || at.ReadRooms? || at.LeaveRooms?) && at.id == id
  }

  lemma WillClearStep(s: State, step: Step, s': State, id: SocketId, cleared: bool)
    requires Enabled(s, step) && Ordered(s, id)
    requires s'.tasks == TasksAfter(s, step) && s'.h.claim == ClaimAfter(s, step)
    requires id in s.h.claim ==> WillClear(s, id) || cleared
    ensures id in s'.h.claim ==> WillClear(s', id) || cleared || (step.ClearRooms? && On(s, step, id))
  {
    if id in s.h.claim && TakenBy(step) != Some(s.h.claim[id].0) {
      TaskKept(s, step, s'.tasks, s.h.claim[id].0);
    }
  }

  lemma {:induction false} ClaimIsCleared(states: seq<State>, steps: seq<Step>, i: nat, id: SocketId)
    requires IsRun(states, steps) && i < |states|
    ensures id in states[i].h.claim ==> WillClear(states[i], id) || Since(i, Clears(states, steps, id), Never)
  {
    if i > 0 {
      ClaimIsCleared(states, steps, i - 1, id);
      SinceStep(i - 1, Clears(states, steps, id), Never);
      RunInv(states, steps, i - 1);
      OrderedAt(states[i - 1], id);
      assert TakesStep(states, steps, i - 1);
      WillClearStep(states[i - 1], steps[i - 1], states[i], id, Since(i - 1, Clears(states, steps, id), Never));
    }
  }

  /**
    Once a socket has left the table and its clean-ups are over, its own set holds only rooms it entered
    after it was cleared.
  */
  lemma RetiredIsCleared(states: seq<State>, steps: seq<Step>, i: nat, id: SocketId, room: Name) returns (cleared: nat, entered: nat)
    requires IsRun(states, steps) && i < |states|
    requires id in states[i].h.published && id !in states[i].sockets && Quiet(states[i], id)
    requires id in states[i].roomSets && room in states[i].roomSets[id]
    ensures cleared < entered < i && Clears(states, steps, id)(cleared) && Enters(steps, id, room)(entered)
  {
    RunInv(states, steps, i);
    OrderedAt(states[i], id);
    ClaimIsCleared(states, steps, i, id);
    assert !Cleaning(states[i], states[i].h.claim[id].0, id);
    RoomSetIff(states, steps, i, id, room);
    cleared :| cleared < i && Clears(states, steps, id)(cleared);
    entered :| entered < i && Enters(steps, id, room)(entered)
               && forall m: nat | entered < m < i :: !ClearsOrLeaves(states, steps, id, room)(m);
    assert ClearsOrLeaves(states, steps, id, room)(cleared);
  }

  // ----- sessions and identities -----

  ghost function Opens(steps: seq<Step>, session: Name): nat -> bool {
    (k: nat) => k < |steps| && steps[k] == OpenSession(session)
  }

  ghost function Ends(states: seq<State>, steps: seq<Step>, session: Name): nat -> bool {
    (k: nat) => k < |steps| && k < |states| && steps[k].EndSession? && steps[k].t in states[k].tasks
                && states[k].tasks[steps[k].t].Closing? && states[k].tasks[steps[k].t].session == Some(session)
  }

  /** A session is there exactly if it was opened and its disconnect has not ended since. */
  lemma SessionIff(states: seq<State>, steps: seq<Step>, i: nat, session: Name)
    requires IsRun(states, steps) && i < |states|
    ensures session in states[i].sessions <==> Since(i, Opens(steps, session), Ends(states, steps, session))
  {
    forall k: nat | k < i ensures Tracks(IsOpen(states, session), Opens(steps, session), Ends(states, steps, session), k) {
      SessionTracks(states, steps, k, session);
    }
    SinceTracks(i, IsOpen(states, session), Opens(steps, session), Ends(states, steps, session));
  }

  ghost function IsOpen(states: seq<State>, session: Name): nat -> bool {
    (k: nat) => k < |states| && session in states[k].sessions
  }

  lemma SessionTracks(states: seq<State>, steps: seq<Step>, k: nat, session: Name)
    requires IsRun(states, steps) && k < |steps|
    ensures Tracks(IsOpen(states, session), Opens(steps, session), Ends(states, steps, session), k)
  {
    assert TakesStep(states, steps, k);
  }

  ghost function Connects(steps: seq<Step>, id: SocketId, info: Info): nat -> bool {
    (k: nat) => k < |steps| && steps[k] == BeginConnect(info.connector, id, info.session, info.namespace)
  }

  /** A socket's session and namespace are for good those of the one connect that created it. */
  lemma InfoIff(states: seq<State>, steps: seq<Step>, i: nat, id: SocketId, info: Info)
    requires IsRun(states, steps) && i < |states|
    ensures id in states[i].info && states[i].info[id] == info <==> Since(i, Connects(steps, id, info), Never)
  {
    forall k: nat | k < i ensures Tracks(HasInfo(states, id, info), Connects(steps, id, info), Never, k) {
      InfoTracks(states, steps, k, id, info);
    }
    SinceTracks(i, HasInfo(states, id, info), Connects(steps, id, info), Never);
  }

  ghost function HasInfo(states: seq<State>, id: SocketId, info: Info): nat -> bool {
    (k: nat) => k < |states| && id in states[k].info && states[k].info[id] == info
  }

  lemma InfoTracks(states: seq<State>, steps: seq<Step>, k: nat, id: SocketId, info: Info)
    requires IsRun(states, steps) && k < |steps|
    ensures Tracks(HasInfo(states, id, info), Connects(steps, id, info), Never, k)
  {
    assert TakesStep(states, steps, k);
  }
}
