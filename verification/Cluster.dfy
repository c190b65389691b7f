/**
  Broadcasts in a cluster of nodes joined by publish/subscribe
  (engine/src/core/socketio/redis_adapter.rs over room.rs).

  Any number of nodes, calls and subscriber tasks interleave at lock granularity, membership may
  change between any two steps, and a published message reaches each subscriber at most once. A
  node is named by its `node_id`. The fields of `History` are written and never read by the steps.
*/
module Cluster {
  import opened Wrappers
  import opened Rooms
  import EngineIo

  type NodeId = Name
  type CallId = nat
  type Packet = EngineIo.EioPacket

  datatype Node = Node(rooms: RoomTable, senders: map<SocketId, ChannelId>)

  datatype Target = ToRoom(room: Name) | ToNamespace

  /** The arguments of one `broadcast_room` or `broadcast_namespace` call, and the node it is made on. */
  datatype Call = Call(origin: NodeId, namespace: Name, target: Target, packet: Packet, exclude: Option<SocketId>)

  /** The message on the channel, field by field. */
  datatype BroadcastMessage = BroadcastMessage(
    nodeId: NodeId, namespace: Name, rooms: Option<seq<Name>>,
    packetType: nat, packetData: Option<string>, exclude: Option<SocketId>)

  /** How far one node is with one call: room members not read yet, read, or all packets sent. */
  datatype Phase = Pending(what: Target, namespace: Name, packet: Packet, exclude: Option<SocketId>)
                 | Holding(members: set<SocketId>, packet: Packet, exclude: Option<SocketId>)
                 | Delivered

  /**
    `home`: the one node a socket lives on. `stable`: calls during which no membership changed.
    `published`: who was sent the message of a call. `lost`: calls some copy of whose message was dropped.
  */
  datatype History = History(
    home: map<SocketId, NodeId>,
    stable: set<CallId>,
    published: map<CallId, set<NodeId>>,
    lost: set<CallId>)

  datatype State = State(
    nodes: map<NodeId, Node>,
    calls: map<CallId, Call>,
    phases: map<(CallId, NodeId), Phase>,
    flights: map<(CallId, NodeId), BroadcastMessage>,
    logs: map<CallId, seq<Delivery<Packet>>>,
    h: History)

  datatype Step =
    | StartNode(n: NodeId)
    | NewSocket(n: NodeId, id: SocketId)
    | Register(n: NodeId, id: SocketId, channel: ChannelId)
    | Unregister(n: NodeId, id: SocketId)
    | JoinRoom(n: NodeId, key: RoomKey, id: SocketId)
    | LeaveRoom(n: NodeId, key: RoomKey, id: SocketId)
    | LeaveRooms(n: NodeId, id: SocketId)
    | Begin(c: CallId, call: Call)
    | ReadMembers(c: CallId, n: NodeId)
    | SendAll(c: CallId, n: NodeId, sent: seq<Delivery<Packet>>)
    | Publish(c: CallId, receivers: set<NodeId>)
    | Lose(c: CallId, n: NodeId)
    | Receive(c: CallId, n: NodeId)

  function Init(): State {
    State(map[], map[], map[], map[], map[], History(map[], {}, map[], {}))
  }

  /** `publish_broadcast`: a room call names its one room, a namespace call names none. */
  function MessageOf(call: Call): BroadcastMessage {
    BroadcastMessage(call.origin, call.namespace,
                     if call.target.ToRoom? then Some([call.target.room]) else None,
                     EngineIo.TypeNumber(call.packet.packetType), call.packet.data, call.exclude)
  }

  /** The subscriber goes through a list of rooms; only lists of one are ever published. */
  predicate Readable(msg: BroadcastMessage) {
    msg.rooms.Some? ==> |msg.rooms.value| == 1
  }

  /** The subscriber rebuilds the packet; a type it does not know becomes a plain message. */
  function PacketOf(msg: BroadcastMessage): Packet {
    EngineIo.EioPacket(
      match EngineIo.FromByte(msg.packetType + 48) case Some(t) => t case None => EngineIo.Message,
      msg.packetData)
  }

  ghost function TargetMembers(node: Node, namespace: Name, target: Target): set<SocketId> {
    match target
    case ToRoom(room) => Members(node.rooms, RoomKey(namespace, room))
    case ToNamespace => NamespaceMembers(node.rooms, namespace)
  }

  /** Who a call is meant to reach on one node. */
  ghost function Audience(node: Node, call: Call): set<SocketId> {
    Reachable(TargetMembers(node, call.namespace, call.target), node.senders, call.exclude)
  }

  /** Members as the send step knows them: read earlier for a room, read together with the senders for a namespace. */
  ghost function MembersNow(node: Node, phase: Phase): set<SocketId>
    requires !phase.Delivered?
  {
    if phase.Holding? then phase.members else NamespaceMembers(node.rooms, phase.namespace)
  }

  ghost predicate Enabled(s: State, step: Step) {
    match step
    case StartNode(n) => n !in s.nodes
    case NewSocket(n, id) => n in s.nodes && id !in s.h.home
    case Register(n, id, _) => n in s.nodes && id in s.h.home && s.h.home[id] == n
    case Unregister(n, _) => n in s.nodes
    case JoinRoom(n, _, id) => n in s.nodes && id in s.h.home && s.h.home[id] == n
    case LeaveRoom(n, _, _) => n in s.nodes
    case LeaveRooms(n, _) => n in s.nodes
    case Begin(c, call) => c !in s.calls && call.origin in s.nodes
    case ReadMembers(c, n) =>
      n in s.nodes && (c, n) in s.phases && s.phases[(c, n)].Pending? && s.phases[(c, n)].what.ToRoom?
    case SendAll(c, n, sent) =>
      && n in s.nodes && c in s.logs && (c, n) in s.phases
      && var phase := s.phases[(c, n)];
      && (phase.Holding? || (phase.Pending? && phase.what.ToNamespace?))
      && OnePerRecipient(sent, Reachable(MembersNow(s.nodes[n], phase), s.nodes[n].senders, phase.exclude), s.nodes[n].senders, phase.packet)
    case Publish(c, receivers) =>
      && c in s.calls && c !in s.h.published && receivers <= s.nodes.Keys
      && (c, s.calls[c].origin) in s.phases && s.phases[(c, s.calls[c].origin)].Delivered?
    case Lose(c, n) => (c, n) in s.flights
    case Receive(c, n) => n in s.nodes && (c, n) in s.flights && Readable(s.flights[(c, n)])
  }

  ghost function Apply(s: State, step: Step): State
    requires Enabled(s, step)
  {
    match step
    case StartNode(n) => s.(nodes := s.nodes[n := Node(map[], map[])], h := s.h.(stable := {}))
    case NewSocket(n, id) => s.(h := s.h.(home := s.h.home[id := n]))
    case Register(n, id, channel) =>
      s.(nodes := s.nodes[n := s.nodes[n].(senders := s.nodes[n].senders[id := channel])], h := s.h.(stable := {}))
    case Unregister(n, id) =>
      s.(nodes := s.nodes[n := s.nodes[n].(senders := s.nodes[n].senders - {id})], h := s.h.(stable := {}))
    case JoinRoom(n, key, id) =>
      s.(nodes := s.nodes[n := s.nodes[n].(rooms := Joined(s.nodes[n].rooms, key, id))], h := s.h.(stable := {}))
    case LeaveRoom(n, key, id) =>
      s.(nodes := s.nodes[n := s.nodes[n].(rooms := Left(s.nodes[n].rooms, key, id))], h := s.h.(stable := {}))
    case LeaveRooms(n, id) =>
      s.(nodes := s.nodes[n := s.nodes[n].(rooms := LeftAll(s.nodes[n].rooms, id))], h := s.h.(stable := {}))
    case Begin(c, call) =>
      s.(calls := s.calls[c := call], logs := s.logs[c := []],
         phases := s.phases[(c, call.origin) := Pending(call.target, call.namespace, call.packet, call.exclude)],
         h := s.h.(stable := s.h.stable + {c}))
    case ReadMembers(c, n) =>
      var phase := s.phases[(c, n)];
      s.(phases := s.phases[(c, n) :=
           Holding(Members(s.nodes[n].rooms, RoomKey(phase.namespace, phase.what.room)), phase.packet, phase.exclude)])
    case SendAll(c, n, sent) =>
      s.(phases := s.phases[(c, n) := Delivered], logs := s.logs[c := s.logs[c] + sent])
    case Publish(c, receivers) =>
      s.(flights := s.flights + map n | n in receivers :: (c, n) := MessageOf(s.calls[c]),
         h := s.h.(published := s.h.published[c := receivers]))
    case Lose(c, n) =>
      s.(flights := s.flights - {(c, n)}, h := s.h.(lost := s.h.lost + {c}))
    case Receive(c, n) =>
      var msg := s.flights[(c, n)];
      var rest := s.(flights := s.flights - {(c, n)});
      if msg.nodeId == n then rest
      else rest.(phases := rest.phases[(c, n) :=
             Pending(if msg.rooms.Some? then ToRoom(msg.rooms.value[0]) else ToNamespace,
                     msg.namespace, PacketOf(msg), msg.exclude)])
  }

  ghost predicate IsRun(states: seq<State>, steps: seq<Step>) {
    && |states| == |steps| + 1
    && states[0] == Init()
    && forall i | 0 <= i < |steps| :: TakesStep(states, steps, i)
  }

  ghost predicate TakesStep(states: seq<State>, steps: seq<Step>, i: int) {
    && 0 <= i < |steps| && i + 1 < |states|
    && Enabled(states[i], steps[i]) && states[i + 1] == Apply(states[i], steps[i])
  }

  // ----- the invariant -----

  /** Sockets are listed and registered on their own node only. */
  ghost predicate AtHome(s: State, n: NodeId, id: SocketId) {
    n in s.nodes && (id in s.nodes[n].senders || exists k :: id in Members(s.nodes[n].rooms, k)) ==>
      id in s.h.home && s.h.home[id] == n
  }

  /** What a node is doing for a call is what the call asked for. */
  ghost predicate PhaseOk(s: State, c: CallId, n: NodeId) {
    (c, n) in s.phases ==>
      && c in s.calls && n in s.nodes
      && (n == s.calls[c].origin || c in s.h.published)
      && match s.phases[(c, n)]
         case Pending(what, namespace, packet, exclude) =>
           what == s.calls[c].target && namespace == s.calls[c].namespace && packet == s.calls[c].packet && exclude == s.calls[c].exclude
         case Holding(members, packet, exclude) =>
           && packet == s.calls[c].packet && exclude == s.calls[c].exclude
           && (c in s.h.stable ==> members == TargetMembers(s.nodes[n], s.calls[c].namespace, s.calls[c].target))
         case Delivered => true
  }

  ghost predicate FlightOk(s: State, c: CallId, n: NodeId) {
    (c, n) in s.flights ==>
      && c in s.calls && c in s.h.published && n in s.nodes
      && s.flights[(c, n)] == MessageOf(s.calls[c])
      && (n != s.calls[c].origin ==> (c, n) !in s.phases)
  }

  ghost predicate Done(s: State, c: CallId, n: NodeId) {
    (c, n) in s.phases && s.phases[(c, n)].Delivered?
  }

  /** Deliveries of a call: never twice, only on nodes that are done with it, and complete there if membership was stable. */
  ghost predicate LogOk(s: State, c: CallId, id: SocketId) {
    && (c in s.logs <==> c in s.calls)
    && (id in s.h.home ==> s.h.home[id] in s.nodes)
    && (c in s.calls ==>
          && s.calls[c].origin in s.nodes && (c, s.calls[c].origin) in s.phases
          && (forall d <- s.logs[c] :: d.packet == s.calls[c].packet)
          && Copies(s.logs[c], id) <= 1
          && (s.calls[c].exclude == Some(id) ==> Copies(s.logs[c], id) == 0)
          && (Copies(s.logs[c], id) > 0 ==> id in s.h.home && Done(s, c, s.h.home[id]))
          && (c in s.h.stable && id in s.h.home && Done(s, c, s.h.home[id]) ==>
                Copies(s.logs[c], id) == if id in Audience(s.nodes[s.h.home[id]], s.calls[c]) then 1 else 0))
    && (c in s.h.published ==> c in s.calls)
    && (c in s.h.stable ==> c in s.calls)
  }

  /** A subscriber that was sent the message still has it, lost it, or has taken the call up. */
  ghost predicate Tracked(s: State, c: CallId, n: NodeId) {
    c in s.h.published && n in s.h.published[c] && c in s.calls && n != s.calls[c].origin ==>
      (c, n) in s.flights || (c, n) in s.phases || c in s.h.lost
  }

  ghost predicate Inv(s: State) {
    && (forall n, id :: AtHome(s, n, id))
    && (forall c, n :: PhaseOk(s, c, n))
    && (forall c, n :: FlightOk(s, c, n))
    && (forall c, id :: LogOk(s, c, id))
    && (forall c, n :: Tracked(s, c, n))
  }

  lemma InitInv()
    ensures Inv(Init())
  {
  }

  /** The wire form keeps the packet: its type and data come back unchanged. */
  lemma PacketSurvives(call: Call)
    ensures PacketOf(MessageOf(call)) == call.packet
  {
    EngineIo.TypeRoundTrip(call.packet.packetType);
  }

  lemma AtHomeStep(s: State, step: Step, n: NodeId, id: SocketId)
    requires Inv(s) && Enabled(s, step)
    ensures AtHome(Apply(s, step), n, id)
  {
    assert AtHome(s, n, id);
    var s' := Apply(s, step);
    if n in s.nodes {
      forall k | id in Members(s'.nodes[n].rooms, k) && !(step.JoinRoom? && step.n == n && step.id == id)
        ensures id in Members(s.nodes[n].rooms, k)
      {
        match step
        case JoinRoom(_, key, i) => JoinedMembers(s.nodes[step.n].rooms, key, i, k);
        case LeaveRoom(_, key, i) => LeftMembers(s.nodes[step.n].rooms, key, i, k);
        case LeaveRooms(_, i) => LeftAllMembers(s.nodes[step.n].rooms, i, k);
        case _ =>
      }
    }
  }

  lemma PhaseStep(s: State, step: Step, c: CallId, n: NodeId)
    requires Inv(s) && Enabled(s, step)
    ensures PhaseOk(Apply(s, step), c, n)
  {
    assert PhaseOk(s, c, n);
    match step
    case Receive(d, m) =>
      assert FlightOk(s, d, m);
      PacketSurvives(s.calls[d]);
    case Begin(d, call) => assert LogOk(s, d, n);
    case _ =>
  }

  lemma FlightStep(s: State, step: Step, c: CallId, n: NodeId)
    requires Inv(s) && Enabled(s, step)
    ensures FlightOk(Apply(s, step), c, n)
  {
    assert FlightOk(s, c, n) && PhaseOk(s, c, n);
  }

  lemma TrackedStep(s: State, step: Step, c: CallId, n: NodeId)
    requires Inv(s) && Enabled(s, step)
    ensures Tracked(Apply(s, step), c, n)
  {
    assert Tracked(s, c, n) && FlightOk(s, c, n) && LogOk(s, c, n);
  }

  /** Sending on one node adds one copy for that node's audience, none of whom had one. */
  lemma SendStep(s: State, s': State, c: CallId, n: NodeId, sent: seq<Delivery<Packet>>, id: SocketId)
    requires Inv(s) && Enabled(s, SendAll(c, n, sent)) && s' == Apply(s, SendAll(c, n, sent))
    ensures LogOk(s', c, id)
  {
    var phase := s.phases[(c, n)];
    var recipients := Reachable(MembersNow(s.nodes[n], phase), s.nodes[n].senders, phase.exclude);
    assert LogOk(s, c, id) && PhaseOk(s, c, n) && AtHome(s, n, id);
    CopiesConcat(s.logs[c], sent, id);
    assert Copies(sent, id) == if id in recipients then 1 else 0;
    if c in s.h.stable {
      assert recipients == Audience(s.nodes[n], s.calls[c]);
    }
  }

  /** Any other step leaves the call's log alone, or starts it. */
  lemma QuietLogStep(s: State, step: Step, s': State, c: CallId, id: SocketId)
    requires Enabled(s, step) && s' == Apply(s, step) && !(step.SendAll? && step.c == c)
    requires LogOk(s, c, id)
    requires step.NewSocket? ==> AtHome(s, step.n, id)
    requires step.Begin? && id in s.h.home ==> PhaseOk(s, c, s.h.home[id])
    requires step.Receive? ==> FlightOk(s, step.c, step.n)
    ensures LogOk(s', c, id)
  {
  }

  lemma LogStep(s: State, step: Step, s': State, c: CallId, id: SocketId)
    requires Inv(s) && Enabled(s, step) && s' == Apply(s, step)
    ensures LogOk(s', c, id)
  {
    LogAt(s, c, id);
    if step.SendAll? && step.c == c {
      SendStep(s, s', c, step.n, step.sent, id);
    } else {
      if step.NewSocket? { HomeAt(s, step.n, id); }
      if step.Begin? && id in s.h.home { PhaseAt(s, c, s.h.home[id]); }
      if step.Receive? { PhaseAt(s, step.c, step.n); }
      QuietLogStep(s, step, s', c, id);
    }
  }

  lemma HomeAt(s: State, n: NodeId, id: SocketId)
    requires Inv(s)
    ensures AtHome(s, n, id)
  {
  }

  lemma PhaseAt(s: State, c: CallId, n: NodeId)
    requires Inv(s)
    ensures PhaseOk(s, c, n) && FlightOk(s, c, n)
  {
  }

  lemma StepInv(s: State, step: Step)
    requires Inv(s) && Enabled(s, step)
    ensures Inv(Apply(s, step))
  {
    var s' := Apply(s, step);
    forall n, id ensures AtHome(s', n, id) { AtHomeStep(s, step, n, id); }
    forall c, n ensures PhaseOk(s', c, n) { PhaseStep(s, step, c, n); }
    forall c, n ensures FlightOk(s', c, n) { FlightStep(s, step, c, n); }
    forall c, id ensures LogOk(s', c, id) { LogStep(s, step, s', c, id); }
    forall c, n ensures Tracked(s', c, n) { TrackedStep(s, step, c, n); }
  }

  // ----- runs -----

  lemma {:induction false} RunInv(states: seq<State>, steps: seq<Step>, i: nat)
    requires IsRun(states, steps) && i < |states|
    ensures Inv(states[i])
  {
    if i == 0 {
      InitInv();
    } else {
      RunInv(states, steps, i - 1);
      assert TakesStep(states, steps, i - 1);
      StepInv(states[i - 1], steps[i - 1]);
    }
  }

  /** Whatever is under way can be taken up by its subscriber. */
  lemma FlightsAreReceivable(states: seq<State>, steps: seq<Step>, i: nat, c: CallId, n: NodeId)
    requires IsRun(states, steps) && i < |states| && (c, n) in states[i].flights
    ensures Enabled(states[i], Receive(c, n))
  {
    RunInv(states, steps, i);
    assert FlightOk(states[i], c, n);
  }

  /**
    Over every run, with membership changing and messages lost at will, one call gives any socket
    of the cluster at most one copy, the excluded socket none, and the packet as it was sent.
  */
  lemma AtMostOneCopy(states: seq<State>, steps: seq<Step>, i: nat, c: CallId, id: SocketId)
    requires IsRun(states, steps) && i < |states|
    requires c in states[i].calls
    ensures c in states[i].logs && Copies(states[i].logs[c], id) <= 1
    ensures states[i].calls[c].exclude == Some(id) ==> Copies(states[i].logs[c], id) == 0
    ensures forall d <- states[i].logs[c] :: d.packet == states[i].calls[c].packet
  {
    RunInv(states, steps, i);
    assert LogOk(states[i], c, id);
  }

  /** The call's message went to every node and none was dropped. */
  ghost predicate Lossless(s: State, c: CallId) {
    c in s.h.published && s.h.published[c] == s.nodes.Keys && c !in s.h.lost
  }

  /** No node still has something to do for the call. */
  ghost predicate Settled(s: State, c: CallId) {
    forall n <- s.nodes :: (c, n) !in s.flights && ((c, n) in s.phases ==> s.phases[(c, n)].Delivered?)
  }

  /** Somewhere in the cluster the socket is a registered member the call does not exclude. */
  ghost predicate Addressed(s: State, call: Call, id: SocketId) {
    exists n <- s.nodes :: id in Audience(s.nodes[n], call)
  }

  /**
    With stable membership and no loss, once the call has settled every addressed socket has
    exactly one copy and nobody else has any.
  */
  lemma ExactlyOneCopy(states: seq<State>, steps: seq<Step>, i: nat, c: CallId, id: SocketId)
    requires IsRun(states, steps) && i < |states|
    requires c in states[i].calls && c in states[i].h.stable
    requires Lossless(states[i], c) && Settled(states[i], c)
    ensures c in states[i].logs
    ensures Copies(states[i].logs[c], id) == if Addressed(states[i], states[i].calls[c], id) then 1 else 0
  {
    var s := states[i];
    RunInv(states, steps, i);
    assert LogOk(s, c, id);
    forall n <- s.nodes ensures Done(s, c, n) {
      assert Tracked(s, c, n);
      assert (c, n) in s.phases;
    }
    forall n <- s.nodes ensures id in Audience(s.nodes[n], s.calls[c]) ==> id in s.h.home && s.h.home[id] == n {
      assert AtHome(s, n, id);
    }
    if id in s.h.home {
      var n := s.h.home[id];
      assert n in s.nodes;
    }
  }

  /** The message of call `c` was dropped on its way to `n`, the node of `id`, which has not taken the call up. */
  ghost predicate Stranded(s: State, c: CallId, n: NodeId, id: SocketId) {
    && c in s.calls && n != s.calls[c].origin && c in s.h.published && (c, n) !in s.flights && (c, n) !in s.phases
    && id in s.h.home && s.h.home[id] == n
  }

  /** Nothing is sent again, and a socket never moves to another node. */
  lemma StrandedStep(s: State, step: Step, s': State, c: CallId, n: NodeId, id: SocketId)
    requires Enabled(s, step) && s' == Apply(s, step)
    requires Stranded(s, c, n, id)
    ensures Stranded(s', c, n, id)
  {
    if step.Publish? {
      assert step.c != c;
    }
  }

  lemma {:induction false} StrandedForGood(states: seq<State>, steps: seq<Step>, i: nat, j: nat, c: CallId, n: NodeId, id: SocketId)
    requires IsRun(states, steps) && i <= j < |states|
    requires Stranded(states[i], c, n, id)
    ensures Stranded(states[j], c, n, id)
    decreases j
  {
    if i < j {
      StrandedForGood(states, steps, i, j - 1, c, n, id);
      assert TakesStep(states, steps, j - 1);
      StrandedStep(states[j - 1], steps[j - 1], states[j], c, n, id);
    }
  }

  /**
    If a node's copy of the message is dropped, the sockets that live on that node never get a
    copy of the call, in any later state.
  */
  lemma DroppedMeansNoCopy(states: seq<State>, steps: seq<Step>, i: nat, j: nat, c: CallId, n: NodeId, id: SocketId)
    requires IsRun(states, steps) && i < j < |states|
    requires steps[i] == Lose(c, n) && c in states[i].calls && n != states[i].calls[c].origin
    requires id in states[i].h.home && states[i].h.home[id] == n
    ensures c in states[j].logs && Copies(states[j].logs[c], id) == 0
  {
    RunInv(states, steps, i);
    assert FlightOk(states[i], c, n);
    assert TakesStep(states, steps, i);
    assert Stranded(states[i + 1], c, n, id);
    StrandedForGood(states, steps, i + 1, j, c, n, id);
    RunInv(states, steps, j);
    LogAt(states[j], c, id);
  }

  lemma LogAt(s: State, c: CallId, id: SocketId)
    requires Inv(s)
    ensures LogOk(s, c, id)
  {
  }

  // ----- the tables as the steps left them -----

  /** The `k`-th step is this one. */
  function Did(steps: seq<Step>, step: Step): nat -> bool {
    (k: nat) => k < |steps| && steps[k] == step
  }

  function TakesOut(steps: seq<Step>, n: NodeId, key: RoomKey, id: SocketId): nat -> bool {
    (k: nat) => k < |steps| && (steps[k] == LeaveRoom(n, key, id) || steps[k] == LeaveRooms(n, id))
  }

  function Reregisters(steps: seq<Step>, n: NodeId, id: SocketId, channel: ChannelId): nat -> bool {
    (k: nat) => k < |steps| &&
                (steps[k] == Unregister(n, id) || (steps[k].Register? && steps[k].n == n && steps[k].id == id && steps[k].channel != channel))
  }

  function ChangesMembership(steps: seq<Step>): nat -> bool {
    (k: nat) => k < |steps| &&
                (steps[k].StartNode? || steps[k].Register? || steps[k].Unregister? || steps[k].JoinRoom? || steps[k].LeaveRoom? || steps[k].LeaveRooms?)
  }

  function Began(steps: seq<Step>, c: CallId): nat -> bool {
    (k: nat) => k < |steps| && steps[k].Begin? && steps[k].c == c
  }

  function LostSome(steps: seq<Step>, c: CallId): nat -> bool {
    (k: nat) => k < |steps| && steps[k].Lose? && steps[k].c == c
  }

  const Never: nat -> bool := (k: nat) => false

  /** A room lists a socket exactly if it joined and has not left it since. */
  lemma {:induction false} ListedIff(states: seq<State>, steps: seq<Step>, i: nat, n: NodeId, key: RoomKey, id: SocketId)
    requires IsRun(states, steps) && i < |states|
    ensures n in states[i].nodes && id in Members(states[i].nodes[n].rooms, key) <==>
            Since(i, Did(steps, JoinRoom(n, key, id)), TakesOut(steps, n, key, id))
  {
    SinceStep(if i == 0 then 0 else i - 1, Did(steps, JoinRoom(n, key, id)), TakesOut(steps, n, key, id));
    if i > 0 {
      ListedIff(states, steps, i - 1, n, key, id);
      assert TakesStep(states, steps, i - 1);
      ListedStep(states[i - 1], steps[i - 1], states[i], n, key, id);
    }
  }

  lemma ListedStep(s: State, step: Step, s': State, n: NodeId, key: RoomKey, id: SocketId)
    requires Enabled(s, step) && s' == Apply(s, step)
    ensures n in s'.nodes && id in Members(s'.nodes[n].rooms, key) <==>
            step == JoinRoom(n, key, id) ||
            (n in s.nodes && id in Members(s.nodes[n].rooms, key) && !(step == LeaveRoom(n, key, id) || step == LeaveRooms(n, id)))
  {
    if n in s.nodes {
      match step
      case JoinRoom(_, joined, id') => JoinedMembers(s.nodes[n].rooms, joined, id', key);
      case LeaveRoom(_, left, id') => LeftMembers(s.nodes[n].rooms, left, id', key);
      case LeaveRooms(_, id') => LeftAllMembers(s.nodes[n].rooms, id', key);
      case _ =>
    }
  }

  /** A node has a socket's sender exactly if it was registered and has not been replaced or removed since. */
  lemma {:induction false} SenderIff(states: seq<State>, steps: seq<Step>, i: nat, n: NodeId, id: SocketId, channel: ChannelId)
    requires IsRun(states, steps) && i < |states|
    ensures n in states[i].nodes && id in states[i].nodes[n].senders && states[i].nodes[n].senders[id] == channel <==>
            Since(i, Did(steps, Register(n, id, channel)), Reregisters(steps, n, id, channel))
  {
    SinceStep(if i == 0 then 0 else i - 1, Did(steps, Register(n, id, channel)), Reregisters(steps, n, id, channel));
    if i > 0 {
      SenderIff(states, steps, i - 1, n, id, channel);
      assert TakesStep(states, steps, i - 1);
    }
  }

  /** The histories that the claims above speak of, by the steps there have been. */
  lemma {:induction false} HistoryIff(states: seq<State>, steps: seq<Step>, i: nat, c: CallId)
    requires IsRun(states, steps) && i < |states|
    ensures c in states[i].h.stable <==> Since(i, Began(steps, c), ChangesMembership(steps))
    ensures c in states[i].h.lost <==> Since(i, LostSome(steps, c), Never)
    ensures forall call :: c in states[i].calls && states[i].calls[c] == call <==> Since(i, Did(steps, Begin(c, call)), Never)
    ensures forall receivers :: c in states[i].h.published && states[i].h.published[c] == receivers <==> Since(i, Did(steps, Publish(c, receivers)), Never)
  {
    var j := if i == 0 then 0 else i - 1;
    SinceStep(j, Began(steps, c), ChangesMembership(steps));
    SinceStep(j, LostSome(steps, c), Never);
    forall call ensures !Since(0, Did(steps, Begin(c, call)), Never)
                     && (Since(j + 1, Did(steps, Begin(c, call)), Never) <==> (Did(steps, Begin(c, call))(j) || Since(j, Did(steps, Begin(c, call)), Never))) {
      SinceStep(j, Did(steps, Begin(c, call)), Never);
    }
    forall receivers ensures !Since(0, Did(steps, Publish(c, receivers)), Never)
                          && (Since(j + 1, Did(steps, Publish(c, receivers)), Never) <==>
                              (Did(steps, Publish(c, receivers))(j) || Since(j, Did(steps, Publish(c, receivers)), Never))) {
      SinceStep(j, Did(steps, Publish(c, receivers)), Never);
    }
    if i > 0 {
      HistoryIff(states, steps, i - 1, c);
      assert TakesStep(states, steps, i - 1);
      HistoryStep(states[i - 1], steps[i - 1], states[i], c);
    }
  }

  lemma HistoryStep(s: State, step: Step, s': State, c: CallId)
    requires Enabled(s, step) && s' == Apply(s, step)
    ensures c in s'.h.stable <==>
            (step.Begin? && step.c == c) ||
            (c in s.h.stable && !(step.StartNode? || step.Register? || step.Unregister? || step.JoinRoom? || step.LeaveRoom? || step.LeaveRooms?))
    ensures c in s'.h.lost <==> ((step.Lose? && step.c == c) || c in s.h.lost)
    ensures forall call :: c in s'.calls && s'.calls[c] == call <==> step == Begin(c, call) || (c in s.calls && s.calls[c] == call)
    ensures forall receivers :: c in s'.h.published && s'.h.published[c] == receivers <==>
              (step == Publish(c, receivers) || (c in s.h.published && s.h.published[c] == receivers))
  {
  }

  /** The message goes out only when the call's own node has sent all its packets. */
  lemma {:induction false} PublishedWhenDelivered(states: seq<State>, steps: seq<Step>, i: nat, c: CallId)
    requires IsRun(states, steps) && i < |states|
    ensures c in states[i].h.published ==> c in states[i].calls && Done(states[i], c, states[i].calls[c].origin)
  {
    if i > 0 {
      PublishedWhenDelivered(states, steps, i - 1, c);
      RunInv(states, steps, i - 1);
      assert TakesStep(states, steps, i - 1);
      FlightsAt(states[i - 1], c);
    }
  }

  lemma FlightsAt(s: State, c: CallId)
    requires Inv(s)
    ensures c in s.calls ==> FlightOk(s, c, s.calls[c].origin)
    ensures c in s.calls && s.calls[c].origin in s.nodes && (c, s.calls[c].origin) in s.flights ==>
              s.flights[(c, s.calls[c].origin)].nodeId == s.calls[c].origin
  {
  }

  // ----- a call that succeeds -----

  lemma RunOn(states: seq<State>, steps: seq<Step>, step: Step, s: State)
    requires IsRun(states, steps) && Enabled(states[|steps|], step) && s == Apply(states[|steps|], step)
    ensures IsRun(states + [s], steps + [step]) && (states + [s])[|steps| + 1] == s
  {
    forall i | 0 <= i <= |steps| ensures TakesStep(states + [s], steps + [step], i) {
      if i < |steps| { assert TakesStep(states, steps, i); }
    }
  }

  /** Two nodes, and on the second one a socket in a room. */
  function TwoNodes(n: NodeId, m: NodeId, key: RoomKey, id: SocketId, channel: ChannelId): State {
    State(map[n := Node(map[], map[]), m := Node(map[key := {id}], map[id := channel])], map[], map[], map[], map[],
          History(map[id := m], {}, map[], {}))
  }

  lemma Arranged(n: NodeId, m: NodeId, key: RoomKey, id: SocketId, channel: ChannelId) returns (states: seq<State>, steps: seq<Step>)
    requires n != m
    ensures IsRun(states, steps) && states[|steps|] == TwoNodes(n, m, key, id, channel)
  {
    states, steps := [Init()], [];
    var s1 := Init().(nodes := map[n := Node(map[], map[])]);
    RunOn(states, steps, StartNode(n), s1);
    states, steps := states + [s1], steps + [StartNode(n)];
    var s2 := s1.(nodes := map[n := Node(map[], map[]), m := Node(map[], map[])]);
    RunOn(states, steps, StartNode(m), s2);
    states, steps := states + [s2], steps + [StartNode(m)];
    var s3 := s2.(h := s2.h.(home := map[id := m]));
    RunOn(states, steps, NewSocket(m, id), s3);
    states, steps := states + [s3], steps + [NewSocket(m, id)];
    var s4 := s3.(nodes := map[n := Node(map[], map[]), m := Node(map[], map[id := channel])]);
    RunOn(states, steps, Register(m, id, channel), s4);
    states, steps := states + [s4], steps + [Register(m, id, channel)];
    var s5 := TwoNodes(n, m, key, id, channel);
    var empty: RoomTable := map[];
    assert Members(empty, key) + {id} == {id} && empty[key := {id}] == map[key := {id}];
    RunOn(states, steps, JoinRoom(m, key, id), s5);
    states, steps := states + [s5], steps + [JoinRoom(m, key, id)];
  }

  /** A call on the first node, while it is served there, and once it is published. */
  function Serving(s: State, c: CallId, call: Call, phase: Phase): State {
    s.(calls := map[c := call], phases := map[(c, call.origin) := phase], logs := map[c := []], h := s.h.(stable := {c}))
  }

  lemma ServedAtHome(states: seq<State>, steps: seq<Step>, s: State, n: NodeId, m: NodeId, key: RoomKey, id: SocketId, channel: ChannelId, c: CallId, call: Call)
    returns (states': seq<State>, steps': seq<Step>)
    requires n != m && IsRun(states, steps) && states[|steps|] == s == TwoNodes(n, m, key, id, channel)
    requires call.origin == n && call.target == ToRoom(key.room) && call.namespace == key.namespace
    ensures IsRun(states', steps') && states'[|steps'|] == Serving(s, c, call, Delivered)
  {
    states', steps' := states, steps;
    var s1 := Serving(s, c, call, Pending(call.target, call.namespace, call.packet, call.exclude));
    RunOn(states', steps', Begin(c, call), s1);
    states', steps' := states' + [s1], steps' + [Begin(c, call)];
    var s2 := Serving(s, c, call, Holding({}, call.packet, call.exclude));
    RunOn(states', steps', ReadMembers(c, n), s2);
    states', steps' := states' + [s2], steps' + [ReadMembers(c, n)];
    var s3 := Serving(s, c, call, Delivered);
    var none: seq<Delivery<Packet>> := [];
    assert none + none == none;
    RunOn(states', steps', SendAll(c, n, []), s3);
    states', steps' := states' + [s3], steps' + [SendAll(c, n, [])];
  }

  function Published(s: State, n: NodeId, m: NodeId, c: CallId, call: Call, flights: map<(CallId, NodeId), BroadcastMessage>): State {
    Serving(s, c, call, Delivered).(flights := flights, h := s.h.(stable := {c}, published := map[c := {n, m}]))
  }

  lemma PublishesToBoth(s: State, n: NodeId, m: NodeId, key: RoomKey, id: SocketId, channel: ChannelId, c: CallId, call: Call)
    requires n != m && s == TwoNodes(n, m, key, id, channel) && call.origin == n
    ensures var served, message := Serving(s, c, call, Delivered), MessageOf(call);
            && Enabled(served, Publish(c, {n, m}))
            && Apply(served, Publish(c, {n, m})) == Published(s, n, m, c, call, map[(c, n) := message, (c, m) := message])
  {
    var none: map<(CallId, NodeId), BroadcastMessage> := map[];
    assert none + (map k | k in {n, m} :: (c, k) := MessageOf(call)) == map[(c, n) := MessageOf(call), (c, m) := MessageOf(call)];
  }

  lemma IgnoresOwn(s: State, n: NodeId, m: NodeId, key: RoomKey, id: SocketId, channel: ChannelId, c: CallId, call: Call)
    requires n != m && s == TwoNodes(n, m, key, id, channel) && call.origin == n
    ensures var message := MessageOf(call);
            var sent := Published(s, n, m, c, call, map[(c, n) := message, (c, m) := message]);
            Enabled(sent, Receive(c, n)) && Apply(sent, Receive(c, n)) == Published(s, n, m, c, call, map[(c, m) := message])
  {
    var message := MessageOf(call);
    assert map[(c, n) := message, (c, m) := message] - {(c, n)} == map[(c, m) := message];
  }

  lemma TakesUp(s: State, n: NodeId, m: NodeId, key: RoomKey, id: SocketId, channel: ChannelId, c: CallId, call: Call)
    requires n != m && s == TwoNodes(n, m, key, id, channel) && call.origin == n
    ensures var sent := Published(s, n, m, c, call, map[(c, m) := MessageOf(call)]);
            && Enabled(sent, Receive(c, m))
            && Apply(sent, Receive(c, m)) == Published(s, n, m, c, call, map[]).(
                 phases := map[(c, n) := Delivered, (c, m) := Pending(call.target, call.namespace, call.packet, call.exclude)])
  {
    EngineIo.TypeRoundTrip(call.packet.packetType);
    assert map[(c, m) := MessageOf(call)] - {(c, m)} == map[];
  }

  lemma ServedAway(states: seq<State>, steps: seq<Step>, s: State, n: NodeId, m: NodeId, key: RoomKey, id: SocketId, channel: ChannelId, c: CallId, call: Call)
    returns (states': seq<State>, steps': seq<Step>)
    requires n != m && IsRun(states, steps) && states[|steps|] == Serving(s, c, call, Delivered)
    requires s == TwoNodes(n, m, key, id, channel) && call.origin == n
    ensures IsRun(states', steps')
    ensures states'[|steps'|] == Published(s, n, m, c, call, map[]).(
              phases := map[(c, n) := Delivered, (c, m) := Pending(call.target, call.namespace, call.packet, call.exclude)])
  {
    PublishesToBoth(s, n, m, key, id, channel, c, call);
    IgnoresOwn(s, n, m, key, id, channel, c, call);
    TakesUp(s, n, m, key, id, channel, c, call);
    var s1 := Apply(states[|steps|], Publish(c, {n, m}));
    RunOn(states, steps, Publish(c, {n, m}), s1);
    states', steps' := states + [s1], steps + [Publish(c, {n, m})];
    var s2 := Apply(s1, Receive(c, n));
    RunOn(states', steps', Receive(c, n), s2);
    states', steps' := states' + [s2], steps' + [Receive(c, n)];
    var s3 := Apply(s2, Receive(c, m));
    RunOn(states', steps', Receive(c, m), s3);
    states', steps' := states' + [s3], steps' + [Receive(c, m)];
  }

  /** A broadcast made on one node reaches a socket in the room on another. */
  lemma BroadcastCrosses(n: NodeId, m: NodeId, key: RoomKey, id: SocketId, channel: ChannelId, packet: Packet) returns (states: seq<State>, steps: seq<Step>)
    requires n != m
    ensures IsRun(states, steps)
    ensures var s := states[|states| - 1];
            0 in s.calls && s.calls[0].origin == n && s.logs == map[0 := [Delivery(id, channel, packet)]] && Lossless(s, 0) && Settled(s, 0) && 0 in s.h.stable
  {
    var call := Call(n, key.namespace, ToRoom(key.room), packet, None);
    var s := TwoNodes(n, m, key, id, channel);
    states, steps := Arranged(n, m, key, id, channel);
    states, steps := ServedAtHome(states, steps, s, n, m, key, id, channel, 0, call);
    var published := Published(s, n, m, 0, call, map[]);
    states, steps := ServedAway(states, steps, s, n, m, key, id, channel, 0, call);
    var s1 := published.(phases := map[(0, n) := Delivered, (0, m) := Holding({id}, packet, None)]);
    RunOn(states, steps, ReadMembers(0, m), s1);
    states, steps := states + [s1], steps + [ReadMembers(0, m)];
    var sent := [Delivery(id, channel, packet)];
    OneDelivery(id, channel, packet);
    var s2 := published.(phases := map[(0, n) := Delivered, (0, m) := Delivered], logs := map[0 := sent]);
    assert [] + sent == sent;
    RunOn(states, steps, SendAll(0, m, sent), s2);
    states, steps := states + [s2], steps + [SendAll(0, m, sent)];
  }

  lemma OneDelivery(id: SocketId, channel: ChannelId, packet: Packet)
    ensures OnePerRecipient([Delivery(id, channel, packet)], Reachable({id}, map[id := channel], None), map[id := channel], packet)
  {
    assert [Delivery(id, channel, packet)][..0] == [];
  }
}
