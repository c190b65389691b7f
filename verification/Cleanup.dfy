/**
  Connecting and cleaning up sockets under concurrency (engine/src/core/socketio/handler.rs).

  Every task runs in steps of one lock acquisition, and any number of tasks interleave. The
  tables are those of the server; user callbacks are logged; fields of `History` are only
  written, never read, by the steps.
*/
module Cleanup {
  import opened Wrappers
  import opened Rooms

  type TaskId = nat
  type HandlerId = nat

  /** What a socket is created with; `connector` is the connect task that made it. */
  datatype Info = Info(session: Name, namespace: Name, connector: TaskId)

  datatype ConnectPc = Created | SenderRegistered | OwnRoomJoined

  /** Where a clean-up of one socket stands, named after what it does next. */
  datatype Pc =
    | Idle
    | Remove(id: SocketId, handler: Option<HandlerId>)
    | Call(id: SocketId, handler: Option<HandlerId>)
    | ReadRooms(id: SocketId)
    | LeaveRooms(id: SocketId, todo: set<Name>)
    | LeaveAll(id: SocketId)
    | Unregister(id: SocketId)
    | DropHandlers(id: SocketId)

  datatype Task =
    | Connecting(id: SocketId, pc: ConnectPc)
    | Closing(session: Option<Name>, pending: seq<SocketId>, at: Pc)
    | Joining(id: SocketId, room: Name)
    | Quitting(id: SocketId, room: Name)

  /**
    `published`: ids ever put in the socket table. `started`: ids whose first clean-up has begun,
    with the handler registered at that moment. `claim`: which clean-up took the socket out of the
    table, and the handler it had read; `called`: that clean-up got past its handler.
    `swept`: ids some clean-up of which has left every room; `finished`: ids some clean-up of which
    has ended. `lateHandler`: ids with a disconnect handler registered after `started`. `rejoined`:
    rooms a swept id has joined, and not left, since it was last swept. `reentered`: finished ids with
    a registration since a clean-up of theirs last ended.
  */
  datatype History = History(
    published: set<SocketId>,
    started: map<SocketId, Option<HandlerId>>,
    claim: map<SocketId, (TaskId, Option<HandlerId>)>,
    called: set<SocketId>,
    swept: set<SocketId>,
    finished: set<SocketId>,
    lateHandler: set<SocketId>,
    rejoined: set<(SocketId, Name)>,
    reentered: set<SocketId>)

  datatype State = State(
    info: map<SocketId, Info>,
    sessions: set<Name>,
    sockets: set<SocketId>,
    roomSets: map<SocketId, set<Name>>,
    handlers: map<SocketId, Option<HandlerId>>,
    table: RoomTable,
    senders: set<SocketId>,
    tasks: map<TaskId, Task>,
    calls: seq<(SocketId, HandlerId)>,
    h: History)

  datatype Step =
    | OpenSession(session: Name)
    | BeginConnect(t: TaskId, id: SocketId, session: Name, namespace: Name)
    | RegisterSender(t: TaskId)
    | JoinOwnRoom(t: TaskId)
    | Publish(t: TaskId)
    | BeginDisconnect(t: TaskId, session: Name, order: seq<SocketId>)
    | BeginDisconnectOne(t: TaskId, id: SocketId, session: Name, namespace: Name)
    | ReadHandler(t: TaskId)
    | RemoveSocket(t: TaskId)
    | CallHandler(t: TaskId)
    | SnapshotRooms(t: TaskId)
    | LeaveRoom(t: TaskId, room: Name)
    | ClearRooms(t: TaskId)
    | LeaveEverything(t: TaskId)
    | UnregisterSender(t: TaskId)
    | RemoveHandlers(t: TaskId)
    | EndSession(t: TaskId)
    | OnDisconnect(id: SocketId, handler: HandlerId)
    | OnEvent(id: SocketId)
    | JoinBegin(t: TaskId, id: SocketId, room: Name)
    | JoinEnd(t: TaskId)
    | LeaveBegin(t: TaskId, id: SocketId, room: Name)
    | LeaveEnd(t: TaskId)

  function Init(): State {
    State(map[], {}, {}, map[], map[], map[], {}, map[], [], History({}, map[], map[], {}, {}, {}, {}, {}, {}))
  }

  function HandlerOf(s: State, id: SocketId): Option<HandlerId> {
    if id in s.handlers then s.handlers[id] else None
  }

  predicate ClosingAt(s: State, t: TaskId) {
    t in s.tasks && s.tasks[t].Closing?
  }

  function SocketsOf(s: State, session: Name): set<SocketId> {
    set id | id in s.sockets && id in s.info && s.info[id].session == session
  }

  /** When a step can be taken. */
  ghost predicate Enabled(s: State, step: Step) {
    match step
    case OpenSession(_) => true
    case BeginConnect(t, id, session, _) => t !in s.tasks && id !in s.info && session in s.sessions
    case RegisterSender(t) => t in s.tasks && s.tasks[t].Connecting? && s.tasks[t].pc.Created?
    case JoinOwnRoom(t) => t in s.tasks && s.tasks[t].Connecting? && s.tasks[t].pc.SenderRegistered? && s.tasks[t].id in s.info
    case Publish(t) => t in s.tasks && s.tasks[t].Connecting? && s.tasks[t].pc.OwnRoomJoined?
    case BeginDisconnect(t, session, order) =>
      && t !in s.tasks && (forall id :: id in order <==> id in SocketsOf(s, session))
      && (forall i, j :: 0 <= i < j < |order| ==> order[i] != order[j])
    case BeginDisconnectOne(t, id, session, namespace) =>
      t !in s.tasks && id in SocketsOf(s, session) && s.info[id].namespace == namespace
    case ReadHandler(t) => ClosingAt(s, t) && s.tasks[t].at.Idle? && s.tasks[t].pending != []
    case RemoveSocket(t) => ClosingAt(s, t) && s.tasks[t].at.Remove?
    case CallHandler(t) => ClosingAt(s, t) && s.tasks[t].at.Call?
    case SnapshotRooms(t) => ClosingAt(s, t) && s.tasks[t].at.ReadRooms? && s.tasks[t].at.id in s.roomSets
    case LeaveRoom(t, room) => ClosingAt(s, t) && s.tasks[t].at.LeaveRooms? && room in s.tasks[t].at.todo && s.tasks[t].at.id in s.info
    case ClearRooms(t) => ClosingAt(s, t) && s.tasks[t].at.LeaveRooms? && s.tasks[t].at.todo == {}
    case LeaveEverything(t) => ClosingAt(s, t) && s.tasks[t].at.LeaveAll?
    case UnregisterSender(t) => ClosingAt(s, t) && s.tasks[t].at.Unregister?
    case RemoveHandlers(t) => ClosingAt(s, t) && s.tasks[t].at.DropHandlers?
    case EndSession(t) => ClosingAt(s, t) && s.tasks[t].at.Idle? && s.tasks[t].pending == []
    case OnDisconnect(id, _) => id in s.h.published
    case OnEvent(id) => id in s.h.published
    case JoinBegin(t, id, _) => t !in s.tasks && id in s.h.published && id in s.roomSets
    case JoinEnd(t) => t in s.tasks && s.tasks[t].Joining? && s.tasks[t].id in s.info
    case LeaveBegin(t, id, _) => t !in s.tasks && id in s.h.published && id in s.roomSets
    case LeaveEnd(t) => t in s.tasks && s.tasks[t].Quitting? && s.tasks[t].id in s.info
  }

  // ----- what the steps do, table by table -----

  function TakenBy(step: Step): Option<TaskId> {
    if step.OpenSession? || step.OnDisconnect? || step.OnEvent? then None else Some(step.t)
  }

  ghost function InfoAfter(s: State, step: Step): map<SocketId, Info> {
    match step
    case BeginConnect(t, id, session, namespace) => s.info[id := Info(session, namespace, t)]
    case _ => s.info
  }

  /** A clean-up that empties a whole session ends it. */
  ghost function SessionsAfter(s: State, step: Step): set<Name>
    requires Enabled(s, step)
  {
    match step
    case OpenSession(session) => s.sessions + {session}
    case EndSession(t) => if s.tasks[t].session.Some? then s.sessions - {s.tasks[t].session.value} else s.sessions
    case _ => s.sessions
  }

  ghost function SocketsAfter(s: State, step: Step): set<SocketId>
    requires Enabled(s, step)
  {
    match step
    case Publish(t) => s.sockets + {s.tasks[t].id}
    case RemoveSocket(t) => s.sockets - {s.tasks[t].at.id}
    case _ => s.sockets
  }

  ghost function RoomSetsAfter(s: State, step: Step): map<SocketId, set<Name>>
    requires Enabled(s, step)
  {
    match step
    case BeginConnect(_, id, _, _) => s.roomSets[id := {id}]
    case ClearRooms(t) => s.roomSets[s.tasks[t].at.id := {}]
    case JoinBegin(_, id, room) => s.roomSets[id := s.roomSets[id] + {room}]
    case LeaveBegin(_, id, room) => s.roomSets[id := s.roomSets[id] - {room}]
    case _ => s.roomSets
  }

  ghost function HandlersAfter(s: State, step: Step): map<SocketId, Option<HandlerId>>
    requires Enabled(s, step)
  {
    match step
    case RemoveHandlers(t) => s.handlers - {s.tasks[t].at.id}
    case OnDisconnect(id, handler) => s.handlers[id := Some(handler)]
    case OnEvent(id) => s.handlers[id := HandlerOf(s, id)]
    case _ => s.handlers
  }

  ghost function TableAfter(s: State, step: Step): RoomTable
    requires Enabled(s, step)
  {
    match step
    case JoinOwnRoom(t) => Joined(s.table, RoomKey(s.info[s.tasks[t].id].namespace, s.tasks[t].id), s.tasks[t].id)
    case LeaveRoom(t, room) => Left(s.table, RoomKey(s.info[s.tasks[t].at.id].namespace, room), s.tasks[t].at.id)
    case LeaveEverything(t) => LeftAll(s.table, s.tasks[t].at.id)
    case JoinEnd(t) => Joined(s.table, RoomKey(s.info[s.tasks[t].id].namespace, s.tasks[t].room), s.tasks[t].id)
    case LeaveEnd(t) => Left(s.table, RoomKey(s.info[s.tasks[t].id].namespace, s.tasks[t].room), s.tasks[t].id)
    case _ => s.table
  }

  ghost function SendersAfter(s: State, step: Step): set<SocketId>
    requires Enabled(s, step)
  {
    match step
    case RegisterSender(t) => s.senders + {s.tasks[t].id}
    case UnregisterSender(t) => s.senders - {s.tasks[t].at.id}
    case _ => s.senders
  }

  /** User code sees the disconnect handler called between the socket's removal and its leaving the rooms. */
  ghost function CallsAfter(s: State, step: Step): seq<(SocketId, HandlerId)>
    requires Enabled(s, step)
  {
    match step
    case CallHandler(t) => if s.tasks[t].at.handler.Some? then s.calls + [(s.tasks[t].at.id, s.tasks[t].at.handler.value)] else s.calls
    case _ => s.calls
  }

  function Goto(s: State, t: TaskId, pc: Pc): map<TaskId, Task>
    requires ClosingAt(s, t)
  {
    s.tasks[t := s.tasks[t].(at := pc)]
  }

  /** Where every task is: a clean-up takes its sockets one after the other, each through the same places. */
  ghost function TasksAfter(s: State, step: Step): map<TaskId, Task>
    requires Enabled(s, step)
  {
    match step
    case OpenSession(_) => s.tasks
    case OnDisconnect(_, _) => s.tasks
    case OnEvent(_) => s.tasks
    case BeginConnect(t, id, _, _) => s.tasks[t := Connecting(id, Created)]
    case RegisterSender(t) => s.tasks[t := s.tasks[t].(pc := SenderRegistered)]
    case JoinOwnRoom(t) => s.tasks[t := s.tasks[t].(pc := OwnRoomJoined)]
    case Publish(t) => s.tasks - {t}
    case BeginDisconnect(t, session, order) => s.tasks[t := Closing(Some(session), order, Idle)]
    case BeginDisconnectOne(t, id, _, _) => s.tasks[t := Closing(None, [id], Idle)]
    case ReadHandler(t) =>
      var id := s.tasks[t].pending[0];
      s.tasks[t := Closing(s.tasks[t].session, s.tasks[t].pending[1..], Remove(id, HandlerOf(s, id)))]
    case RemoveSocket(t) =>
      var id := s.tasks[t].at.id;
      Goto(s, t, if id in s.sockets then Call(id, s.tasks[t].at.handler) else LeaveAll(id))
    case CallHandler(t) => Goto(s, t, ReadRooms(s.tasks[t].at.id))
    case SnapshotRooms(t) => Goto(s, t, LeaveRooms(s.tasks[t].at.id, s.roomSets[s.tasks[t].at.id]))
    case LeaveRoom(t, room) => Goto(s, t, LeaveRooms(s.tasks[t].at.id, s.tasks[t].at.todo - {room}))
    case ClearRooms(t) => Goto(s, t, LeaveAll(s.tasks[t].at.id))
    case LeaveEverything(t) => Goto(s, t, Unregister(s.tasks[t].at.id))
    case UnregisterSender(t) => Goto(s, t, DropHandlers(s.tasks[t].at.id))
    case RemoveHandlers(t) => Goto(s, t, Idle)
    case EndSession(t) => s.tasks - {t}
    case JoinBegin(t, id, room) => s.tasks[t := Joining(id, room)]
    case JoinEnd(t) => s.tasks - {t}
    case LeaveBegin(t, id, room) => s.tasks[t := Quitting(id, room)]
    case LeaveEnd(t) => s.tasks - {t}
  }

  ghost function StartedAfter(s: State, step: Step): map<SocketId, Option<HandlerId>>
    requires Enabled(s, step)
  {
    match step
    case ReadHandler(t) =>
      var id := s.tasks[t].pending[0];
      if id in s.h.started then s.h.started else s.h.started[id := HandlerOf(s, id)]
    case _ => s.h.started
  }

  ghost function ClaimAfter(s: State, step: Step): map<SocketId, (TaskId, Option<HandlerId>)>
    requires Enabled(s, step)
  {
    match step
    case RemoveSocket(t) =>
      if s.tasks[t].at.id in s.sockets then s.h.claim[s.tasks[t].at.id := (t, s.tasks[t].at.handler)] else s.h.claim
    case _ => s.h.claim
  }

  ghost function SweptAfter(s: State, step: Step): set<SocketId>
    requires Enabled(s, step)
  {
    if step.LeaveEverything? then s.h.swept + {s.tasks[step.t].at.id} else s.h.swept
  }

  ghost function FinishedAfter(s: State, step: Step): set<SocketId>
    requires Enabled(s, step)
  {
    if step.RemoveHandlers? then s.h.finished + {s.tasks[step.t].at.id} else s.h.finished
  }

  ghost function LateHandlerAfter(s: State, step: Step): set<SocketId> {
    if step.OnDisconnect? && step.id in s.h.started then s.h.lateHandler + {step.id} else s.h.lateHandler
  }

  ghost function RejoinedAfter(s: State, step: Step): set<(SocketId, Name)>
    requires Enabled(s, step)
  {
    match step
    case JoinEnd(t) => if s.tasks[t].id in s.h.swept then s.h.rejoined + {(s.tasks[t].id, s.tasks[t].room)} else s.h.rejoined
    case LeaveEnd(t) => s.h.rejoined - {(s.tasks[t].id, s.tasks[t].room)}
    case LeaveRoom(t, room) => s.h.rejoined - {(s.tasks[t].at.id, room)}
    case LeaveEverything(t) => set p | p in s.h.rejoined && p.0 != s.tasks[t].at.id
    case _ => s.h.rejoined
  }

  ghost function ReenteredAfter(s: State, step: Step): set<SocketId>
    requires Enabled(s, step)
  {
    match step
    case OnDisconnect(id, _) => if id in s.h.finished then s.h.reentered + {id} else s.h.reentered
    case OnEvent(id) => if id in s.h.finished then s.h.reentered + {id} else s.h.reentered
    case RemoveHandlers(t) => s.h.reentered - {s.tasks[t].at.id}
    case _ => s.h.reentered
  }

  ghost function HistoryAfter(s: State, step: Step): History
    requires Enabled(s, step)
  {
    History(
      if step.Publish? then s.h.published + {s.tasks[step.t].id} else s.h.published,
      StartedAfter(s, step),
      ClaimAfter(s, step),
      if step.CallHandler? then s.h.called + {s.tasks[step.t].at.id} else s.h.called,
      SweptAfter(s, step),
      FinishedAfter(s, step),
      LateHandlerAfter(s, step),
      RejoinedAfter(s, step),
      ReenteredAfter(s, step))
  }

  /** The effect of a step. */
  ghost function Apply(s: State, step: Step): State
    requires Enabled(s, step)
  {
    State(
      InfoAfter(s, step), SessionsAfter(s, step), SocketsAfter(s, step), RoomSetsAfter(s, step), HandlersAfter(s, step),
      TableAfter(s, step), SendersAfter(s, step), TasksAfter(s, step), CallsAfter(s, step), HistoryAfter(s, step))
  }

  /** A run from the empty server: `states[i + 1]` results from taking `steps[i]` in `states[i]`. */
  ghost predicate IsRun(states: seq<State>, steps: seq<Step>) {
    && |states| == |steps| + 1
    && states[0] == Init()
    && forall i | 0 <= i < |steps| :: TakesStep(states, steps, i)
  }

  ghost predicate TakesStep(states: seq<State>, steps: seq<Step>, i: int) {
    && 0 <= i < |steps| && i + 1 < |states|
    && Enabled(states[i], steps[i]) && states[i + 1] == Apply(states[i], steps[i])
  }

  // ----- what is claimed -----

  /** The disconnect handlers called for `id`, oldest first. */
  function CallsFor(calls: seq<(SocketId, HandlerId)>, id: SocketId): seq<HandlerId> {
    if calls == [] then []
    else
      var last := calls[|calls| - 1];
      CallsFor(calls[..|calls| - 1], id) + if last.0 == id then [last.1] else []
  }

  function OptSeq(handler: Option<HandlerId>): seq<HandlerId> {
    if handler.Some? then [handler.value] else []
  }

  /** Some clean-up of `id` is between its first and its last step. */
  ghost predicate Cleaning(s: State, t: TaskId, id: SocketId) {
    ClosingAt(s, t) && !s.tasks[t].at.Idle? && s.tasks[t].at.id == id
  }

  ghost predicate Quiet(s: State, id: SocketId) {
    forall t :: !Cleaning(s, t, id)
  }

  // ----- the invariant -----

  ghost predicate Reading(s: State, t: TaskId, id: SocketId) {
    ClosingAt(s, t) && s.tasks[t].at.Remove? && s.tasks[t].at.id == id
  }

  /** A swept socket is in exactly the rooms of its namespace that it has rejoined. */
  ghost predicate RoomOk(s: State, id: SocketId, key: RoomKey) {
    id in s.h.swept ==>
      (id in Members(s.table, key) <==> id in s.info && s.info[id].namespace == key.namespace && (id, key.room) in s.h.rejoined)
  }

  /** Publication, clean-up and removal of a socket happen in this order. */
  ghost predicate Ordered(s: State, id: SocketId) {
    && (id in s.sockets ==> id in s.h.published)
    && (id in s.h.published ==> id in s.info)
    && (id in s.info <==> id in s.roomSets)
    && (id in s.h.started ==> id in s.h.published)
    && (id in s.h.claim <==> id in s.h.published && id !in s.sockets)
    && (id in s.h.claim ==> id in s.h.started)
    && (id in s.h.lateHandler ==> id in s.h.started)
  }

  /** The call log against the clean-up that claimed the socket. */
  ghost predicate CallsOk(s: State, id: SocketId) {
    && (id in s.h.called ==> id in s.h.claim)
    && CallsFor(s.calls, id) == if id in s.h.called then OptSeq(s.h.claim[id].1) else []
  }

  /** A claimed socket whose handler is still to be called has its claimant about to call it. */
  ghost predicate HasCaller(s: State, id: SocketId) {
    id in s.h.claim && id !in s.h.called ==>
      ClosingAt(s, s.h.claim[id].0) && s.tasks[s.h.claim[id].0].at == Call(id, s.h.claim[id].1)
  }

  /** The handler present when clean-up began is the one that will be, or was, claimed. */
  ghost predicate HandlerKept(s: State, id: SocketId) {
    id in s.h.started && id !in s.h.lateHandler ==>
      && (id in s.sockets ==> HandlerOf(s, id) == s.h.started[id])
      && (id in s.h.claim ==> s.h.claim[id].1 == s.h.started[id])
  }

  /** What the ends of clean-ups have taken away, and what has come back since. */
  ghost predicate Swept(s: State, id: SocketId) {
    && (id in s.h.swept ==> id in s.h.claim)
    && (id in s.h.finished ==>
          id in s.h.swept && id !in s.senders && (id in s.handlers <==> id in s.h.reentered))
  }

  /** A socket still in the table after its clean-up began has a clean-up about to remove it. */
  ghost predicate HasReader(s: State, id: SocketId) {
    id in s.h.started && id in s.sockets ==> exists t :: Reading(s, t, id)
  }

  ghost predicate PcOk(s: State, t: TaskId, pc: Pc) {
    match pc
    case Idle => true
    case Remove(id, handler) =>
      id in s.h.started && (id in s.sockets && id !in s.h.lateHandler ==> handler == s.h.started[id])
    case Call(id, handler) => id in s.h.claim && id !in s.h.called && s.h.claim[id] == (t, handler)
    case ReadRooms(id) => id in s.h.claim
    case LeaveRooms(id, _) => id in s.h.claim
    case LeaveAll(id) => id in s.h.claim
    case Unregister(id) => id in s.h.claim && id in s.h.swept
    case DropHandlers(id) => id in s.h.claim && id in s.h.swept && id !in s.senders
  }

  ghost predicate TaskOk(s: State, t: TaskId) {
    t in s.tasks ==>
      match s.tasks[t]
      case Connecting(id, _) => id in s.info && s.info[id].connector == t && id !in s.h.published
      case Closing(_, pending, at) => (forall id <- pending :: id in s.h.published) && PcOk(s, t, at)
      case Joining(id, _) => id in s.h.published
      case Quitting(id, _) => id in s.h.published
  }

  ghost predicate Inv(s: State) {
    && (forall id :: Ordered(s, id))
    && (forall id :: CallsOk(s, id))
    && (forall id :: HandlerKept(s, id))
    && (forall id :: Swept(s, id))
    && (forall id, key :: RoomOk(s, id, key))
    && (forall id :: HasReader(s, id))
    && (forall id :: HasCaller(s, id))
    && (forall t :: TaskOk(s, t))
  }

  lemma InitInv()
    ensures Inv(Init())
  {
  }

  lemma CallsForAppend(calls: seq<(SocketId, HandlerId)>, id: SocketId, other: SocketId, handler: HandlerId)
    ensures CallsFor(calls + [(other, handler)], id) == CallsFor(calls, id) + if other == id then [handler] else []
  {
    assert (calls + [(other, handler)])[..|calls|] == calls;
  }

  lemma InvAt(s: State, id: SocketId)
    requires Inv(s)
    ensures Ordered(s, id) && CallsOk(s, id) && HandlerKept(s, id) && Swept(s, id) && HasReader(s, id) && HasCaller(s, id)
  {
  }

  lemma InvRoom(s: State, id: SocketId, key: RoomKey)
    requires Inv(s)
    ensures RoomOk(s, id, key)
  {
  }

  lemma InvTask(s: State, t: TaskId)
    requires Inv(s)
    ensures TaskOk(s, t)
  {
  }

  /** The socket a task is currently working on. */
  ghost function Subject(task: Task): Option<SocketId> {
    match task
    case Connecting(id, _) => Some(id)
    case Closing(_, pending, Idle) => if pending == [] then None else Some(pending[0])
    case Closing(_, _, at) => Some(at.id)
    case Joining(id, _) => Some(id)
    case Quitting(id, _) => Some(id)
  }

  /** What the invariant says about the task that takes the step and the socket it works on. */
  ghost predicate ActorOk(s: State, step: Step) {
    step.OpenSession? || step.OnDisconnect? || step.OnEvent? ||
    (&& TaskOk(s, step.t)
     && (step.t in s.tasks ==>
           var subject := Subject(s.tasks[step.t]);
           subject.Some? ==>
             var id := subject.value;
             Ordered(s, id) && HandlerKept(s, id) && Swept(s, id)
             && (s.tasks[step.t].Closing? ==> id in s.h.published)))
  }

  lemma ActorFacts(s: State, step: Step)
    requires Inv(s) && Enabled(s, step)
    ensures ActorOk(s, step)
  {
    if !step.OpenSession? && !step.OnDisconnect? && !step.OnEvent? {
      InvTask(s, step.t);
      if step.t in s.tasks && Subject(s.tasks[step.t]).Some? {
        var id := Subject(s.tasks[step.t]).value;
        InvAt(s, id);
        if s.tasks[step.t].Closing? && s.tasks[step.t].at.Idle? {
          assert id in s.tasks[step.t].pending;
        }
      }
    }
  }

  /** A step and what it results in, with what is known about the task that takes it. */
  ghost predicate Taken(s: State, step: Step, s': State) {
    Enabled(s, step) && s' == Apply(s, step) && ActorOk(s, step)
  }

  lemma OrderedStep(s: State, step: Step, s': State, id: SocketId)
    requires Enabled(s, step) && ActorOk(s, step) && Ordered(s, id)
    requires s'.info == InfoAfter(s, step) && s'.sockets == SocketsAfter(s, step) && s'.roomSets == RoomSetsAfter(s, step)
    requires s'.h == HistoryAfter(s, step)
    ensures Ordered(s', id)
  {
  }

  lemma CallsStep(s: State, step: Step, s': State, id: SocketId)
    requires Taken(s, step, s') && Ordered(s, id) && CallsOk(s, id)
    ensures CallsOk(s', id)
  {
    if step.CallHandler? && s.tasks[step.t].at.handler.Some? {
      CallsForAppend(s.calls, id, s.tasks[step.t].at.id, s.tasks[step.t].at.handler.value);
    }
  }

  /** A step moves the task that takes it, and no other. */
  lemma TaskKept(s: State, step: Step, tasks: map<TaskId, Task>, t: TaskId)
    requires Enabled(s, step) && tasks == TasksAfter(s, step) && TakenBy(step) != Some(t)
    ensures (t in tasks <==> t in s.tasks) && (t in s.tasks ==> tasks[t] == s.tasks[t])
  {
  }

  lemma HasCallerStep(s: State, step: Step, s': State, id: SocketId)
    requires Enabled(s, step) && s'.tasks == TasksAfter(s, step)
    requires s'.h.claim == ClaimAfter(s, step) && (s'.h.called == if step.CallHandler? then s.h.called + {s.tasks[step.t].at.id} else s.h.called)
    requires HasCaller(s, id)
    ensures HasCaller(s', id)
  {
    if id in s.h.claim && TakenBy(step) != Some(s.h.claim[id].0) {
      TaskKept(s, step, s'.tasks, s.h.claim[id].0);
    }
  }

  lemma HandlerStep(s: State, step: Step, s': State, id: SocketId)
    requires Taken(s, step, s') && Ordered(s, id) && HandlerKept(s, id)
    ensures HandlerKept(s', id)
  {
  }

  lemma RoomStep(s: State, step: Step, s': State, id: SocketId, key: RoomKey)
    requires Enabled(s, step) && ActorOk(s, step) && Ordered(s, id) && Swept(s, id) && RoomOk(s, id, key)
    requires s'.info == InfoAfter(s, step) && s'.table == TableAfter(s, step)
    requires s'.h.swept == SweptAfter(s, step) && s'.h.rejoined == RejoinedAfter(s, step)
    ensures RoomOk(s', id, key)
  {
    match step
    case JoinOwnRoom(t) => JoinedMembers(s.table, RoomKey(s.info[s.tasks[t].id].namespace, s.tasks[t].id), s.tasks[t].id, key);
    case JoinEnd(t) => JoinedMembers(s.table, RoomKey(s.info[s.tasks[t].id].namespace, s.tasks[t].room), s.tasks[t].id, key);
    case LeaveEnd(t) => LeftMembers(s.table, RoomKey(s.info[s.tasks[t].id].namespace, s.tasks[t].room), s.tasks[t].id, key);
    case LeaveRoom(t, room) => LeftMembers(s.table, RoomKey(s.info[s.tasks[t].at.id].namespace, room), s.tasks[t].at.id, key);
    case LeaveEverything(t) => LeftAllMembers(s.table, s.tasks[t].at.id, key);
    case _ =>
  }

  lemma SweptStep(s: State, step: Step, s': State, id: SocketId)
    requires Enabled(s, step) && ActorOk(s, step) && Ordered(s, id) && Swept(s, id)
    requires s'.senders == SendersAfter(s, step) && s'.handlers == HandlersAfter(s, step)
    requires s'.h == HistoryAfter(s, step)
    ensures Swept(s', id)
  {
  }

  lemma HasReaderStep(s: State, step: Step, s': State, id: SocketId)
    requires Enabled(s, step) && s'.tasks == TasksAfter(s, step)
    requires s'.sockets == SocketsAfter(s, step) && s'.h.started == StartedAfter(s, step)
    requires Ordered(s, id) && HasReader(s, id) && (step.Publish? ==> s.tasks[step.t].id !in s.h.published)
    ensures HasReader(s', id)
  {
    if id in s'.h.started && id in s'.sockets {
      if id in s.h.started && id in s.sockets {
        var t: TaskId :| Reading(s, t, id);
        if TakenBy(step) != Some(t) { TaskKept(s, step, s'.tasks, t); }
        assert Reading(s', t, id);
      } else if step.ReadHandler? {
        assert Reading(s', step.t, id);
      }
    }
  }

  /** Sockets waiting for clean-up were waiting before, or are in the table. */
  lemma PendingStep(s: State, step: Step, s': State, t: TaskId, id: SocketId)
    requires Enabled(s, step) && s'.tasks == TasksAfter(s, step) && TaskOk(s, t) && Ordered(s, id)
    requires ClosingAt(s', t) && id in s'.tasks[t].pending
    ensures id in s.h.published
  {
    if TakenBy(step) != Some(t) {
      TaskKept(s, step, s'.tasks, t);
    } else if step.ReadHandler? {
      assert id in s.tasks[t].pending;
    }
  }

  /** A clean-up keeps its place while another task steps. */
  lemma PcKept(s: State, step: Step, s': State, t: TaskId)
    requires Taken(s, step, s') && TaskOk(s, t) && ClosingAt(s, t) && TakenBy(step) != Some(t)
    requires !s.tasks[t].at.Idle? ==> Ordered(s, s.tasks[t].at.id)
    ensures PcOk(s', t, s.tasks[t].at)
  {
  }

  /** The task that steps gets to where its next step is prepared for. */
  lemma PcMoved(s: State, step: Step, s': State, t: TaskId)
    requires Taken(s, step, s') && ClosingAt(s', t) && TakenBy(step) == Some(t)
    requires step.RemoveSocket? ==> CallsOk(s, s.tasks[t].at.id)
    ensures PcOk(s', t, s'.tasks[t].at)
  {
  }

  lemma PcStep(s: State, step: Step, s': State, t: TaskId)
    requires Inv(s) && Taken(s, step, s') && ClosingAt(s', t)
    ensures PcOk(s', t, s'.tasks[t].at)
  {
    if TakenBy(step) == Some(t) {
      if step.RemoveSocket? { InvAt(s, s.tasks[t].at.id); }
      PcMoved(s, step, s', t);
    } else {
      TaskKept(s, step, s'.tasks, t);
      InvTask(s, t);
      if !s.tasks[t].at.Idle? {
        InvAt(s, s.tasks[t].at.id);
      }
      PcKept(s, step, s', t);
    }
  }

  /** Tasks other than clean-ups stay in order, too. */
  lemma OtherTaskKept(s: State, step: Step, s': State, t: TaskId)
    requires Taken(s, step, s') && TaskOk(s, t) && !ClosingAt(s', t) && TakenBy(step) != Some(t)
    ensures TaskOk(s', t)
  {
    TaskKept(s, step, s'.tasks, t);
  }

  lemma OtherTaskMoved(s: State, step: Step, s': State, t: TaskId)
    requires Taken(s, step, s') && TaskOk(s, t) && !ClosingAt(s', t) && TakenBy(step) == Some(t)
    requires step.BeginConnect? ==> Ordered(s, step.id)
    ensures TaskOk(s', t)
  {
  }

  lemma TaskStep(s: State, step: Step, s': State, t: TaskId)
    requires Inv(s) && Taken(s, step, s')
    ensures TaskOk(s', t)
  {
    InvTask(s, t);
    if ClosingAt(s', t) {
      PcStep(s, step, s', t);
      forall id | id in s'.tasks[t].pending ensures id in s'.h.published {
        InvAt(s, id);
        PendingStep(s, step, s', t, id);
        GrowsStep(s, step);
      }
    } else {
      if step.BeginConnect? { InvAt(s, step.id); }
      if TakenBy(step) == Some(t) { OtherTaskMoved(s, step, s', t); } else { OtherTaskKept(s, step, s', t); }
    }
  }

  lemma SocketStep(s: State, step: Step, s': State, id: SocketId)
    requires Inv(s) && Taken(s, step, s')
    ensures Ordered(s', id) && CallsOk(s', id) && HandlerKept(s', id) && Swept(s', id) && HasReader(s', id) && HasCaller(s', id)
  {
    InvAt(s, id);
    OrderedStep(s, step, s', id);
    CallsStep(s, step, s', id);
    HandlerStep(s, step, s', id);
    SweptStep(s, step, s', id);
    HasReaderStep(s, step, s', id);
    HasCallerStep(s, step, s', id);
  }

  lemma StepInv(s: State, step: Step, s': State)
    requires Inv(s) && Enabled(s, step) && s' == Apply(s, step)
    ensures Inv(s')
  {
    ActorFacts(s, step);
    forall id ensures Ordered(s', id) && CallsOk(s', id) && HandlerKept(s', id) && Swept(s', id) && HasReader(s', id) && HasCaller(s', id) {
      SocketStep(s, step, s', id);
    }
    forall id, key ensures RoomOk(s', id, key) {
      InvAt(s, id);
      InvRoom(s, id, key);
      RoomStep(s, step, s', id, key);
    }
    forall t ensures TaskOk(s', t) {
      TaskStep(s, step, s', t);
    }
  }

  // ----- runs -----

  lemma {:induction false} RunInv(states: seq<State>, steps: seq<Step>, i: nat)
    requires IsRun(states, steps) && i < |states|
    ensures Inv(states[i])
  {
    if i == 0 {
      InitInv();
    } else {
      RunInv(states, steps, i - 1);
      assert TakesStep(states, steps, i - 1);
      StepInv(states[i - 1], steps[i - 1], states[i]);
    }
  }

  /** The log of a state is a prefix of every later log, and history only grows. */
  ghost predicate Grows(s: State, later: State) {
    && s.calls <= later.calls
    && s.h.published <= later.h.published
    && s.h.started.Keys <= later.h.started.Keys && (forall id <- s.h.started :: later.h.started[id] == s.h.started[id])
    && s.h.finished <= later.h.finished
  }

  lemma GrowsStep(s: State, step: Step)
    requires Enabled(s, step)
    ensures Grows(s, Apply(s, step))
  {
    match step
    case ReadHandler(_) =>
    case RemoveSocket(_) =>
    case CallHandler(_) =>
    case JoinEnd(_) =>
    case OnDisconnect(_, _) =>
    case OnEvent(_) =>
    case _ => assert Apply(s, step).calls == s.calls;
  }

  lemma {:induction false} RunGrows(states: seq<State>, steps: seq<Step>, i: nat, j: nat)
    requires IsRun(states, steps) && i <= j < |states|
    ensures Grows(states[i], states[j])
    decreases j
  {
    if i < j {
      RunGrows(states, steps, i, j - 1);
      assert TakesStep(states, steps, j - 1);
      GrowsStep(states[j - 1], steps[j - 1]);
    }
  }

  /** Over every run, whatever is registered and whenever, no socket's disconnect is reported twice. */
  lemma AtMostOneCall(states: seq<State>, steps: seq<Step>, i: nat, id: SocketId)
    requires IsRun(states, steps) && i < |states|
    ensures |CallsFor(states[i].calls, id)| <= 1
  {
    RunInv(states, steps, i);
    InvAt(states[i], id);
  }

  /** No disconnect handler is registered for `id` by the steps `i` to `j`. */
  ghost predicate NoRegistration(steps: seq<Step>, i: nat, j: nat, id: SocketId) {
    forall k | i <= k < j && k < |steps| :: !(steps[k].OnDisconnect? && steps[k].id == id)
  }

  /** `handler` is what the first clean-up of `id` will find, or found, and nothing has come late. */
  ghost predicate Awaits(s: State, id: SocketId, handler: Option<HandlerId>) {
    && id !in s.h.lateHandler
    && (if id in s.h.started then s.h.started[id] == handler else HandlerOf(s, id) == handler)
  }

  lemma AwaitsStep(s: State, step: Step, s': State, id: SocketId, handler: Option<HandlerId>)
    requires Taken(s, step, s') && Ordered(s, id) && HandlerKept(s, id)
    requires Awaits(s, id, handler)
    requires !(step.OnDisconnect? && step.id == id)
    ensures Awaits(s', id, handler)
  {
  }

  /** Without a registration, the handler of a socket whose clean-up has not begun stays. */
  lemma {:induction false} HandlerPersists(states: seq<State>, steps: seq<Step>, i: nat, j: nat, id: SocketId)
    requires IsRun(states, steps) && i <= j < |states|
    requires id !in states[i].h.started && NoRegistration(steps, i, j, id)
    ensures Awaits(states[j], id, HandlerOf(states[i], id))
    decreases j
  {
    if i == j {
      RunInv(states, steps, i);
      InvAt(states[i], id);
    } else {
      HandlerPersists(states, steps, i, j - 1, id);
      RunInv(states, steps, j - 1);
      InvAt(states[j - 1], id);
      assert TakesStep(states, steps, j - 1);
      ActorFacts(states[j - 1], steps[j - 1]);
      AwaitsStep(states[j - 1], steps[j - 1], states[j], id, HandlerOf(states[i], id));
    }
  }

  /**
    A disconnect handler present when the clean-up of a socket has not begun, and not replaced
    later, has been called exactly once whenever clean-up has begun and none of that socket's
    clean-ups is under way; a socket without a handler gets no call.
  */
  lemma ExactlyOneCall(states: seq<State>, steps: seq<Step>, i: nat, j: nat, id: SocketId)
    requires IsRun(states, steps) && i <= j < |states|
    requires id !in states[i].h.started && NoRegistration(steps, i, j, id)
    requires id in states[j].h.started && Quiet(states[j], id)
    ensures CallsFor(states[j].calls, id) == OptSeq(HandlerOf(states[i], id))
  {
    HandlerPersists(states, steps, i, j, id);
    var s := states[j];
    RunInv(states, steps, j);
    InvAt(s, id);
    if id in s.sockets {
      var t :| Reading(s, t, id);
      assert Cleaning(s, t, id);
    }
    if id !in s.h.called {
      assert Cleaning(s, s.h.claim[id].0, id);
    }
  }

  /** No trace of the socket in any table. */
  ghost predicate Gone(s: State, id: SocketId) {
    id !in s.sockets && id !in s.senders && Absent(s.table, id) && id !in s.handlers
  }

  /**
    As soon as any one clean-up of a socket has ended, and from then on, the socket is in the socket
    and sender tables no more, it is in exactly the rooms it has rejoined since it was last swept, and
    it has an entry in the handler table exactly if there was a registration since a clean-up last ended.
  */
  lemma GoneForGood(states: seq<State>, steps: seq<Step>, i: nat, j: nat, id: SocketId)
    requires IsRun(states, steps) && i <= j < |states|
    requires id in states[i].h.finished
    ensures var s := states[j];
            && id !in s.sockets && id !in s.senders && id in s.info
            && (forall key :: id in Members(s.table, key) <==> key.namespace == s.info[id].namespace && (id, key.room) in s.h.rejoined)
            && (id in s.handlers <==> id in s.h.reentered)
    ensures Gone(states[j], id) <==> id !in states[j].h.reentered && forall room :: (id, room) !in states[j].h.rejoined
  {
    var s := states[j];
    RunGrows(states, steps, i, j);
    RunInv(states, steps, j);
    InvAt(s, id);
    forall key ensures id in Members(s.table, key) <==> key.namespace == s.info[id].namespace && (id, key.room) in s.h.rejoined {
      InvRoom(s, id, key);
    }
    if Absent(s.table, id) {
      forall room ensures (id, room) !in s.h.rejoined {
        assert id !in Members(s.table, RoomKey(s.info[id].namespace, room));
      }
    } else {
      var key :| key in s.table && id in s.table[key];
      assert id in Members(s.table, key);
    }
  }

  /** A join that ends for a swept socket, or a registration for one that some clean-up is done with. */
  ghost predicate LateStep(s: State, step: Step, id: SocketId) {
    || (id in s.h.finished && (step.OnDisconnect? || step.OnEvent?) && step.id == id)
    || (id in s.h.swept && step.JoinEnd? && step.t in s.tasks && s.tasks[step.t].Joining? && s.tasks[step.t].id == id)
  }

  lemma OnlyLateSteps(s: State, step: Step, id: SocketId)
    requires Enabled(s, step) && !LateStep(s, step, id)
    ensures forall room :: (id, room) in Apply(s, step).h.rejoined ==> (id, room) in s.h.rejoined
    ensures id in Apply(s, step).h.reentered ==> id in s.h.reentered
  {
  }

  /** Nothing comes back except by such a step: whatever user code joins or registers before is swept too. */
  lemma {:induction false} NotLate(states: seq<State>, steps: seq<Step>, j: nat, id: SocketId)
    requires IsRun(states, steps) && j < |states|
    requires forall k | 0 <= k < j :: !LateStep(states[k], steps[k], id)
    ensures id !in states[j].h.reentered && forall room :: (id, room) !in states[j].h.rejoined
  {
    if j > 0 {
      NotLate(states, steps, j - 1, id);
      assert TakesStep(states, steps, j - 1);
      OnlyLateSteps(states[j - 1], steps[j - 1], id);
    }
  }

  // ----- sessions -----

  /** `t` still has to take `id` out of the socket table, or somebody has. */
  ghost predicate WillTake(s: State, t: TaskId, id: SocketId) {
    id in s.h.published && (id !in s.sockets || (ClosingAt(s, t) && (id in s.tasks[t].pending || Reading(s, t, id))))
  }

  lemma WillTakeStep(s: State, step: Step, s': State, t: TaskId, id: SocketId)
    requires Enabled(s, step) && ActorOk(s, step) && WillTake(s, t, id)
    requires s'.tasks == TasksAfter(s, step) && s'.sockets == SocketsAfter(s, step) && s.h.published <= s'.h.published
    ensures WillTake(s', t, id)
    ensures step == EndSession(t) ==> id !in s'.sockets
  {
    if TakenBy(step) != Some(t) {
      TaskKept(s, step, s'.tasks, t);
    } else if step.ReadHandler? && id in s.tasks[t].pending {
      assert s.tasks[t].pending == [s.tasks[t].pending[0]] + s.tasks[t].pending[1..];
    }
  }

  lemma {:induction false} WillTakeLater(states: seq<State>, steps: seq<Step>, i: nat, j: nat, t: TaskId, id: SocketId)
    requires IsRun(states, steps) && i <= j < |states| && WillTake(states[i], t, id)
    ensures WillTake(states[j], t, id)
    ensures forall k | i <= k < j :: steps[k] == EndSession(t) ==> id !in states[j].sockets
    decreases j
  {
    if i < j {
      WillTakeLater(states, steps, i, j - 1, t, id);
      RunInv(states, steps, j - 1);
      assert TakesStep(states, steps, j - 1);
      ActorFacts(states[j - 1], steps[j - 1]);
      GrowsStep(states[j - 1], steps[j - 1]);
      WillTakeStep(states[j - 1], steps[j - 1], states[j], t, id);
      if id !in states[j - 1].sockets { StaysOut(states[j - 1], steps[j - 1], states[j], id); }
    }
  }

  /** A socket that has left the table does not come back. */
  lemma StaysOut(s: State, step: Step, s': State, id: SocketId)
    requires Enabled(s, step) && ActorOk(s, step) && s'.sockets == SocketsAfter(s, step)
    requires id in s.h.published && id !in s.sockets
    ensures id !in s'.sockets
  {
  }

  /**
    When the disconnect of a session has ended, the sockets of that session that are in the table were
    all published after it began.
  */
  lemma SessionIsEmptied(states: seq<State>, steps: seq<Step>, b: nat, e: nat, j: nat, t: TaskId, session: Name, order: seq<SocketId>, id: SocketId)
    requires IsRun(states, steps) && b < e < j < |states|
    requires steps[b] == BeginDisconnect(t, session, order) && steps[e] == EndSession(t)
    requires id in SocketsOf(states[j], session)
    ensures id !in states[b].h.published
  {
    RunInv(states, steps, b);
    InvAt(states[b], id);
    if id in states[b].h.published {
      InfoStays(states, steps, b, j, id);
      assert TakesStep(states, steps, b);
      if id in states[b].sockets {
        assert id in SocketsOf(states[b], session);
        assert id in order;
      }
      assert WillTake(states[b + 1], t, id);
      WillTakeLater(states, steps, b + 1, j, t, id);
    }
  }

  lemma {:induction false} InfoStays(states: seq<State>, steps: seq<Step>, i: nat, j: nat, id: SocketId)
    requires IsRun(states, steps) && i <= j < |states| && id in states[i].info
    ensures id in states[j].info && states[j].info[id] == states[i].info[id]
    decreases j
  {
    if i < j {
      InfoStays(states, steps, i, j - 1, id);
      assert TakesStep(states, steps, j - 1);
    }
  }

  // ----- what the proviso is for -----

  ghost predicate NotAbout(task: Task, id: SocketId) {
    task.Closing? ==> id !in task.pending && (task.at.Idle? || task.at.id != id)
  }

  /** No clean-up task has `id` in hand or in its queue. */
  ghost predicate NoCleanupOf(s: State, id: SocketId) {
    forall t :: ClosingAt(s, t) ==> NotAbout(s.tasks[t], id)
  }

  lemma StillNotAbout(s: State, step: Step, tasks: map<TaskId, Task>, t: TaskId, id: SocketId)
    requires Enabled(s, step) && tasks == TasksAfter(s, step) && TakenBy(step) == Some(t) && t in tasks
    requires t in s.tasks ==> NotAbout(s.tasks[t], id)
    requires id !in s.sockets
    ensures NotAbout(tasks[t], id)
  {
    if step.ReadHandler? { assert s.tasks[t].pending[0] in s.tasks[t].pending; }
    if step.BeginDisconnect? { assert id !in SocketsOf(s, step.session); }
  }

  /** After a socket has left the table and its clean-ups are over, no clean-up of it can begin. */
  lemma NoCleanupStep(s: State, step: Step, s': State, id: SocketId)
    requires Inv(s) && Enabled(s, step) && s'.tasks == TasksAfter(s, step)
    requires id in s.h.finished && NoCleanupOf(s, id)
    ensures NoCleanupOf(s', id)
  {
    InvAt(s, id);
    forall t: TaskId | ClosingAt(s', t) ensures NotAbout(s'.tasks[t], id) {
      assert ClosingAt(s, t) ==> NotAbout(s.tasks[t], id);
      if TakenBy(step) == Some(t) {
        StillNotAbout(s, step, s'.tasks, t, id);
      } else {
        TaskKept(s, step, s'.tasks, t);
      }
    }
  }

  lemma EntryKept(s: State, step: Step, s': State, id: SocketId)
    requires Enabled(s, step) && s'.handlers == HandlersAfter(s, step) && s'.calls == CallsAfter(s, step)
    requires NoCleanupOf(s, id)
    ensures id in s.handlers ==> id in s'.handlers
    ensures CallsFor(s'.calls, id) == CallsFor(s.calls, id)
  {
    if TakenBy(step).Some? { assert ClosingAt(s, step.t) ==> s.tasks[step.t].at.Idle? || s.tasks[step.t].at.id != id; }
    if step.CallHandler? {
      var at := s.tasks[step.t].at;
      if at.handler.Some? { CallsForAppend(s.calls, id, at.id, at.handler.value); }
    }
  }

  /**
    A handler registered for a socket whose clean-ups are over is never called and never removed:
    the entry stays in the handler table of every later state.
  */
  lemma {:induction false} LateRegistrationStays(states: seq<State>, steps: seq<Step>, i: nat, j: nat, id: SocketId)
    requires IsRun(states, steps) && i < j < |states|
    requires id in states[i].h.finished && NoCleanupOf(states[i], id)
    requires steps[i].OnDisconnect? && steps[i].id == id
    ensures id in states[j].handlers && NoCleanupOf(states[j], id)
    ensures CallsFor(states[j].calls, id) == CallsFor(states[i].calls, id)
    decreases j
  {
    RunInv(states, steps, j - 1);
    RunGrows(states, steps, i, j - 1);
    if i + 1 < j {
      LateRegistrationStays(states, steps, i, j - 1, id);
    }
    assert TakesStep(states, steps, j - 1);
    NoCleanupStep(states[j - 1], steps[j - 1], states[j], id);
    EntryKept(states[j - 1], steps[j - 1], states[j], id);
  }
}
