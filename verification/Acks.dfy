/**
  Acknowledged events between one client and its socket in one namespace: `emit_with_ack_timeout` and
  the ack branch of `dispatch_loop` (rpress-client/src/client.rs), and the server's `handle_sio_event`
  (engine/src/core/socketio/handler.rs). Packets travel unordered and may be dropped.
*/
module Acks {
  import opened Wrappers
  import SocketIo

  type Value = SocketIo.Value
  type Packet = SocketIo.SioPacket<Value>

  /** One emit; calls are numbered in the order in which they take their id. */
  type CallNo = nat

  /** The counter is an AtomicU64, whose `fetch_add` wraps. */
  const ID_LIMIT: nat := 0x1_0000_0000_0000_0000

  datatype Call = Call(event: string, data: Value)

  datatype Pc =
    | Fetched
    | Inserted
    | Waiting
    | SendFailed
    | TimedOut
    | Returned(value: Value)

  /** What a handler was called with and what it answered. */
  datatype Handled = Handled(event: string, arguments: seq<Value>, result: Option<Value>)

  datatype State = State(
    namespace: string,
    calls: seq<Call>,
    ids: seq<nat>,
    pcs: seq<Pc>,
    counter: nat,
    pending: map<nat, CallNo>,
    events: map<CallNo, Packet>,
    acks: map<CallNo, Packet>,
    handled: map<CallNo, Handled>,
    consumed: seq<CallNo>)

  function Init(namespace: string): State {
    State(namespace, [], [], [], 0, map[], map[], map[], map[], [])
  }

  datatype Step =
    | Fetch(call: Call)
    | Insert(k: CallNo)
    | Send(k: CallNo)
    | FailSend(k: CallNo)
    | TimeOut(k: CallNo)
    | Drop(k: CallNo)
    | Handle(k: CallNo, result: Option<Value>)
    | DropAck(k: CallNo)
    | Dispatch(k: CallNo)

  ghost predicate Enabled(s: State, step: Step) {
    && |s.calls| == |s.pcs| == |s.ids|
    && match step
       case Fetch(_) => true
       case Insert(k) => k < |s.pcs| && s.pcs[k] == Fetched
       case Send(k) => k < |s.pcs| && s.pcs[k] == Inserted
       case FailSend(k) => k < |s.pcs| && s.pcs[k] == Inserted
       case TimeOut(k) => k < |s.pcs| && s.pcs[k] == Waiting
       case Drop(k) => k in s.events
       case Handle(k, _) => k in s.events
       case DropAck(k) => k in s.acks
       case Dispatch(k) => k in s.acks
  }

  /** `handle_sio_event` once a handler is found: it answers only if there is an id and a result. */
  function Answer(p: Packet, result: Option<Value>): Option<Packet> {
    if p.id.Some? && result.Some? then Some(SocketIo.AckPacket(p.namespace, p.id.value, result.value)) else None
  }

  /** The packets that the server hands to an event handler. */
  predicate IsEvent(p: Packet) {
    p.packetType.Event? || p.packetType.BinaryEvent? || p.packetType.BinaryAck?
  }

  function Handling(s: State, k: CallNo, result: Option<Value>): State
    requires k in s.events
  {
    var p := s.events[k];
    var (name, arguments) := (SocketIo.EventName(p), SocketIo.EventData(p));
    var taken := s.(events := s.events - {k});
    if !IsEvent(p) || name.None? || arguments.None? then taken
    else
      var answer := Answer(p, result);
      taken.(handled := s.handled[k := Handled(name.value, arguments.value, result)],
             acks := if answer.Some? then s.acks[k := answer.value] else s.acks)
  }

  /**
    `dispatch_loop` of the client: only an ack looks for a pending sender; an id without one is ignored,
    and so is a sender nobody waits for.
  */
  function Dispatching(s: State, k: CallNo): State
    requires k in s.acks
  {
    var p := s.acks[k];
    var taken := s.(acks := s.acks - {k});
    if !p.packetType.Ack? || p.id.None? || p.id.value !in s.pending then taken
    else
      var w := s.pending[p.id.value];
      taken.(pending := s.pending - {p.id.value},
             consumed := s.consumed + [w],
             pcs := if w < |s.pcs| && s.pcs[w] == Waiting then s.pcs[w := Returned(p.data.GetOr(SocketIo.Other("null")))] else s.pcs)
  }

  function Apply(s: State, step: Step): State
    requires Enabled(s, step)
  {
    match step
    case Fetch(call) =>
      s.(calls := s.calls + [call], ids := s.ids + [s.counter], pcs := s.pcs + [Fetched], counter := (s.counter + 1) % ID_LIMIT)
    case Insert(k) => s.(pending := s.pending[s.ids[k] := k], pcs := s.pcs[k := Inserted])
    case Send(k) =>
      s.(events := s.events[k := SocketIo.EventPacket(s.namespace, s.calls[k].event, s.calls[k].data, Some(s.ids[k]))],
         pcs := s.pcs[k := Waiting])
    case FailSend(k) => s.(pcs := s.pcs[k := SendFailed])
    case TimeOut(k) => s.(pcs := s.pcs[k := TimedOut])
    case Drop(k) => s.(events := s.events - {k})
    case Handle(k, result) => Handling(s, k, result)
    case DropAck(k) => s.(acks := s.acks - {k})
    case Dispatch(k) => Dispatching(s, k)
  }

  ghost predicate IsRun(states: seq<State>, steps: seq<Step>) {
    && |states| == |steps| + 1
    && states[0] == Init(states[0].namespace)
    && forall i | 0 <= i < |steps| :: TakesStep(states, steps, i)
  }

  ghost predicate TakesStep(states: seq<State>, steps: seq<Step>, i: int) {
    && 0 <= i < |steps| && i + 1 < |states|
    && Enabled(states[i], steps[i]) && states[i + 1] == Apply(states[i], steps[i])
  }

  // ----- the invariant -----

  /** A call whose pending entry is there, as long as no ack took it away. */
  ghost predicate Entered(s: State, k: CallNo) {
    k < |s.pcs| && s.pcs[k] != Fetched && k !in s.consumed
  }

  /** The array a handler's result is sent back as. */
  function Wrapped(v: Value): Value {
    if v.Arr? then v else SocketIo.Arr([v])
  }

  /** The array an event is sent as: its name, then the arguments. */
  function EventArray(call: Call): Value {
    SocketIo.Arr([SocketIo.Str(call.event)] + if call.data.Arr? then call.data.items else [call.data])
  }

  ghost predicate RightResult(s: State, k: CallNo, v: Value) {
    && k < |s.calls| && k in s.handled
    && s.handled[k].event == s.calls[k].event
    && s.handled[k].arguments == SocketIo.Arguments(s.calls[k].data)
    && s.handled[k].result.Some? && v == Wrapped(s.handled[k].result.value)
  }

  /** While the counter has not wrapped, a call's id is its number. */
  ghost predicate IdOk(s: State, k: CallNo) {
    k < |s.ids| ==> s.ids[k] == k
  }

  ghost predicate CallOk(s: State, k: CallNo)
    requires |s.calls| == |s.pcs| == |s.ids|
  {
    && (k in s.events ==>
          && k < |s.calls| && Entered(s, k) && s.pcs[k] != Inserted && k !in s.acks && k !in s.handled
          && s.events[k] == SocketIo.SioPacket(SocketIo.Event, s.namespace, Some(EventArray(s.calls[k])), Some(s.ids[k]), 0))
    && (k in s.acks ==>
          && k < |s.calls| && Entered(s, k) && s.pcs[k] != Inserted
          && s.acks[k].packetType == SocketIo.Ack && s.acks[k].namespace == s.namespace && s.acks[k].attachments == 0
          && s.acks[k].id == Some(s.ids[k]) && s.acks[k].data.Some? && RightResult(s, k, s.acks[k].data.value))
    && (k in s.handled ==> k < |s.pcs| && s.pcs[k] != Fetched && s.pcs[k] != Inserted)
    && (k < |s.pcs| && s.pcs[k].Returned? ==> k in s.consumed && RightResult(s, k, s.pcs[k].value))
    && (k in s.consumed ==> k < |s.pcs| && s.pcs[k] != Fetched && s.pcs[k] != Inserted)
    && (Entered(s, k) ==> k in s.pending && s.pending[k] == k)
  }

  ghost predicate NoRepeats(ks: seq<CallNo>) {
    forall i, j | 0 <= i < j < |ks| :: ks[i] != ks[j]
  }

  ghost predicate Inv(s: State) {
    && |s.calls| == |s.pcs| == |s.ids| && |s.calls| <= ID_LIMIT
    && (forall k :: IdOk(s, k))
    && s.counter == |s.calls| % ID_LIMIT
    && (forall k :: CallOk(s, k))
    && (forall id :: PendingOk(s, id))
    && NoRepeats(s.consumed)
  }

  /** What a step needs to know of the call it is about. */
  ghost predicate Known(s: State, k: CallNo)
    requires |s.calls| == |s.pcs| == |s.ids|
  {
    CallOk(s, k) && IdOk(s, k)
  }

  lemma ClientStep(s: State, step: Step, s': State, k: CallNo)
    requires |s.calls| == |s.pcs| == |s.ids| && Known(s, k) && (!step.Fetch? ==> Known(s, step.k))
    requires step.Fetch? || step.Insert? || step.Send? || step.FailSend? || step.TimeOut?
    requires Enabled(s, step) && s' == Apply(s, step)
    ensures CallOk(s', k)
  {
  }

  lemma ServerStep(s: State, step: Step, s': State, k: CallNo)
    requires |s.calls| == |s.pcs| == |s.ids| && Known(s, k) && (step.Drop? || step.Handle? || step.DropAck?) && Known(s, step.k)
    requires Enabled(s, step) && s' == Apply(s, step)
    ensures CallOk(s', k)
  {
    if step.Handle? {
      SocketIo.EventCarries(s.namespace, s.calls[step.k].event, s.calls[step.k].data, Some(s.ids[step.k]));
    }
  }

  lemma DispatchStep(s: State, step: Step, s': State, k: CallNo)
    requires |s.calls| == |s.pcs| == |s.ids| && Known(s, k) && step.Dispatch? && Known(s, step.k)
    requires Enabled(s, step) && s' == Apply(s, step)
    ensures CallOk(s', k)
  {
  }

  lemma IdStep(s: State, step: Step, s': State, k: CallNo)
    requires |s.calls| == |s.pcs| == |s.ids| && IdOk(s, k) && s.counter == |s.calls| % ID_LIMIT
    requires Enabled(s, step) && s' == Apply(s, step) && |s'.calls| <= ID_LIMIT
    ensures IdOk(s', k)
    ensures |s'.calls| == |s'.pcs| == |s'.ids| && s'.counter == |s'.calls| % ID_LIMIT
  {
  }

  ghost predicate PendingOk(s: State, id: nat) {
    id in s.pending ==> s.pending[id] == id && Entered(s, id)
  }

  lemma PendingStep(s: State, step: Step, s': State, id: nat)
    requires |s.calls| == |s.pcs| == |s.ids| && Known(s, id) && PendingOk(s, id) && (!step.Fetch? ==> Known(s, step.k) && PendingOk(s, step.k))
    requires Enabled(s, step) && s' == Apply(s, step)
    ensures PendingOk(s', id)
  {
  }

  lemma RepeatsStep(s: State, step: Step, s': State)
    requires |s.calls| == |s.pcs| == |s.ids| && NoRepeats(s.consumed) && (!step.Fetch? ==> Known(s, step.k))
    requires Enabled(s, step) && s' == Apply(s, step)
    ensures NoRepeats(s'.consumed)
  {
  }

  lemma StepInv(s: State, step: Step, s': State)
    requires Inv(s) && Enabled(s, step) && s' == Apply(s, step) && |s'.calls| <= ID_LIMIT
    ensures Inv(s')
  {
    if !step.Fetch? { KnownAt(s, step.k); }
    forall k ensures IdOk(s', k) && CallOk(s', k) && PendingOk(s', k) {
      KnownAt(s, k);
      IdStep(s, step, s', k);
      PendingStep(s, step, s', k);
      if step.Drop? || step.Handle? || step.DropAck? {
        ServerStep(s, step, s', k);
      } else if step.Dispatch? {
        DispatchStep(s, step, s', k);
      } else {
        ClientStep(s, step, s', k);
      }
    }
    IdStep(s, step, s', 0);
    RepeatsStep(s, step, s');
  }

  lemma KnownAt(s: State, k: CallNo)
    requires Inv(s)
    ensures Known(s, k) && PendingOk(s, k)
  {
    assert IdOk(s, k) && CallOk(s, k) && PendingOk(s, k);
  }

  lemma {:induction false} RunInv(states: seq<State>, steps: seq<Step>, i: nat)
    requires IsRun(states, steps) && i < |states| && |states[i].calls| <= ID_LIMIT
    ensures Inv(states[i])
  {
    if i > 0 {
      assert TakesStep(states, steps, i - 1);
      CallsGrow(states[i - 1], steps[i - 1], states[i]);
      RunInv(states, steps, i - 1);
      StepInv(states[i - 1], steps[i - 1], states[i]);
    }
  }

  lemma CallsGrow(s: State, step: Step, s': State)
    requires Enabled(s, step) && s' == Apply(s, step)
    ensures |s.calls| <= |s'.calls|
  {
  }

  // ----- what is claimed -----

  /**
    Until 2^64 calls have been made: the id of every event and ack under way is pending, for the call
    it belongs to; no two calls pend under one id, and every pending id is below the counter's count.
  */
  lemma PendingIds(states: seq<State>, steps: seq<Step>, i: nat, k: CallNo)
    requires IsRun(states, steps) && i < |states| && |states[i].calls| <= ID_LIMIT
    ensures var s := states[i];
            && (k in s.events ==> s.events[k].id.Some? && s.events[k].id.value in s.pending && s.pending[s.events[k].id.value] == k)
            && (k in s.acks ==> s.acks[k].id.Some? && s.acks[k].id.value in s.pending && s.pending[s.acks[k].id.value] == k)
            && (forall id <- s.pending :: id < |s.calls|)
            && (forall id, other | id in s.pending && other in s.pending :: s.pending[id] == s.pending[other] ==> id == other)
  {
    RunInv(states, steps, i);
    KnownAt(states[i], k);
    forall id <- states[i].pending ensures states[i].pending[id] == id < |states[i].calls| {
      KnownAt(states[i], id);
    }
  }

  /** What travels for a call: its event as an event packet, and the answer as an ack packet with the same id. */
  lemma UnderWay(states: seq<State>, steps: seq<Step>, i: nat, k: CallNo)
    requires IsRun(states, steps) && i < |states| && |states[i].calls| <= ID_LIMIT
    ensures var s := states[i];
            && (k in s.events ==>
                  && k < |s.calls| && k < |s.ids|
                  && s.events[k] == SocketIo.SioPacket(SocketIo.Event, s.namespace, Some(EventArray(s.calls[k])), Some(s.ids[k]), 0))
            && (k in s.acks ==>
                  && k < |s.ids| && k in s.handled && s.handled[k].result.Some?
                  && s.acks[k] == SocketIo.SioPacket(SocketIo.Ack, s.namespace, Some(Wrapped(s.handled[k].result.value)), Some(s.ids[k]), 0))
  {
    RunInv(states, steps, i);
    KnownAt(states[i], k);
  }

  /** Both survive the wire, in any namespace that is written as one, for any way of printing and parsing arrays. */
  lemma UnderWaySurvives(states: seq<State>, steps: seq<Step>, i: nat, k: CallNo, p: Packet, show: Value -> string, parse: string -> Option<Value>)
    requires IsRun(states, steps) && i < |states| && |states[i].calls| <= ID_LIMIT
    requires (k in states[i].events && p == states[i].events[k]) || (k in states[i].acks && p == states[i].acks[k])
    requires states[i].namespace != "" && states[i].namespace[0] == '/' && ',' !in states[i].namespace
    requires SocketIo.Structured(p, show, parse)
    ensures SocketIo.Decode(SocketIo.Encode(p, show), parse) == Some(p)
  {
    RunInv(states, steps, i);
    UnderWay(states, steps, i, k);
    KnownAt(states[i], k);
    SocketIo.SioRoundTrip(p, show, parse);
  }

  /** An event that arrives is handed to the handler with its own arguments, and a result is sent back. */
  lemma EventReachesHandler(states: seq<State>, steps: seq<Step>, i: nat)
    requires IsRun(states, steps) && i < |steps| && steps[i].Handle? && |states[i].calls| <= ID_LIMIT
    ensures var k, s, t := steps[i].k, states[i], states[i + 1];
            && k < |s.calls| && k !in s.handled
            && t.handled == s.handled[k := Handled(s.calls[k].event, if s.calls[k].data.Arr? then s.calls[k].data.items else [s.calls[k].data], steps[i].result)]
            && k !in t.events && (k in t.acks <==> steps[i].result.Some?)
  {
    RunInv(states, steps, i);
    assert TakesStep(states, steps, i);
    KnownAt(states[i], steps[i].k);
    assert TakesStep(states, steps, i);
    var k, s := steps[i].k, states[i];
    SocketIo.EventCarries(s.namespace, s.calls[k].event, s.calls[k].data, Some(s.ids[k]));
  }

  /** An ack that arrives resolves the one call it answers, and that call is resolved by no other. */
  lemma AckFindsItsCall(states: seq<State>, steps: seq<Step>, i: nat)
    requires IsRun(states, steps) && i < |steps| && steps[i].Dispatch? && |states[i].calls| <= ID_LIMIT
    ensures var k := steps[i].k;
            && k in states[i].acks && k !in states[i].consumed
            && states[i + 1].consumed == states[i].consumed + [k]
            && (k < |states[i].pcs| && states[i].pcs[k] == Waiting ==>
                  states[i + 1].pcs == states[i].pcs[k := Returned(states[i].acks[k].data.GetOr(SocketIo.Other("null")))])
  {
    RunInv(states, steps, i);
    assert TakesStep(states, steps, i);
    KnownAt(states[i], steps[i].k);
    assert TakesStep(states, steps, i);
  }

  /** Each pending entry is consumed at most once. */
  lemma ConsumedOnce(states: seq<State>, steps: seq<Step>, i: nat)
    requires IsRun(states, steps) && i < |states| && |states[i].calls| <= ID_LIMIT
    ensures NoRepeats(states[i].consumed)
  {
    RunInv(states, steps, i);
  }

  /** A waiter that returns has the handler's result for its own event and arguments, as an array. */
  lemma ReturnsOwnResult(states: seq<State>, steps: seq<Step>, i: nat, k: CallNo)
    requires IsRun(states, steps) && i < |states| && |states[i].calls| <= ID_LIMIT
    requires k < |states[i].pcs| && states[i].pcs[k].Returned?
    ensures RightResult(states[i], k, states[i].pcs[k].value)
  {
    RunInv(states, steps, i);
    KnownAt(states[i], k);
  }

  // ----- entries that stay -----

  /** Exactly the calls that have entered, and that no ack has consumed, are pending. */
  lemma PendingIff(states: seq<State>, steps: seq<Step>, i: nat, id: nat)
    requires IsRun(states, steps) && i < |states| && |states[i].calls| <= ID_LIMIT
    ensures var s := states[i];
            id in s.pending <==> id < |s.pcs| && s.pcs[id] != Fetched && id !in s.consumed
  {
    RunInv(states, steps, i);
    KnownAt(states[i], id);
  }

  /** An entry leaves only by the arrival of the ack to its own call. */
  lemma LeavesOnlyByItsAck(states: seq<State>, steps: seq<Step>, i: nat, id: nat)
    requires IsRun(states, steps) && i < |steps| && |states[i].calls| <= ID_LIMIT
    requires id in states[i].pending
    ensures id !in states[i + 1].pending <==> steps[i] == Dispatch(id)
  {
    RunInv(states, steps, i);
    KnownAt(states[i], id);
    assert TakesStep(states, steps, i);
    if !steps[i].Fetch? { KnownAt(states[i], steps[i].k); }
    assert TakesStep(states, steps, i);
  }

  /** The call entered its pending entry, and neither its event nor its ack is under way or to come. */
  ghost predicate Forgotten(s: State, k: CallNo) {
    && k in s.pending && s.pending[k] == k && k < |s.pcs|
    && s.pcs[k] != Fetched && s.pcs[k] != Inserted
    && k !in s.events && k !in s.acks
  }

  /** The step after which no ack to call `k` can come any more. */
  predicate LosesCall(step: Step, k: CallNo) {
    step == Drop(k) || step == DropAck(k) || step == Handle(k, None) || step == FailSend(k)
  }

  lemma LossForgets(states: seq<State>, steps: seq<Step>, i: nat, k: CallNo)
    requires IsRun(states, steps) && i < |steps| && |states[i].calls| <= ID_LIMIT
    requires LosesCall(steps[i], k)
    ensures Forgotten(states[i + 1], k)
  {
    RunInv(states, steps, i);
    KnownAt(states[i], k);
    assert TakesStep(states, steps, i);
  }

  lemma ForgottenStep(s: State, step: Step, s': State, k: CallNo)
    requires |s.calls| == |s.pcs| == |s.ids| && Forgotten(s, k) && (!step.Fetch? ==> Known(s, step.k))
    requires Enabled(s, step) && s' == Apply(s, step)
    ensures Forgotten(s', k)
  {
  }

  lemma {:induction false} ForgottenStays(states: seq<State>, steps: seq<Step>, i: nat, j: nat, k: CallNo)
    requires IsRun(states, steps) && i <= j < |states| && |states[j].calls| <= ID_LIMIT
    requires Forgotten(states[i], k)
    ensures Forgotten(states[j], k)
  {
    if i < j {
      assert TakesStep(states, steps, j - 1);
      CallsGrow(states[j - 1], steps[j - 1], states[j]);
      ForgottenStays(states, steps, i, j - 1, k);
      RunInv(states, steps, j - 1);
      if !steps[j - 1].Fetch? { KnownAt(states[j - 1], steps[j - 1].k); }
      ForgottenStep(states[j - 1], steps[j - 1], states[j], k);
    }
  }

  /** A call whose event is lost or fails to be sent, whose handler answers nothing, or whose ack is lost
      leaves its pending entry behind in every later state, whether or not it times out. */
  lemma LostCallLeaksEntry(states: seq<State>, steps: seq<Step>, i: nat, j: nat, k: CallNo)
    requires IsRun(states, steps) && i < j < |states| && |states[j].calls| <= ID_LIMIT
    requires LosesCall(steps[i], k)
    ensures k in states[j].pending && states[j].pending[k] == k && k !in states[j].consumed
  {
    CallsGrowOver(states, steps, i, j);
    LossForgets(states, steps, i, k);
    ForgottenStays(states, steps, i + 1, j, k);
    PendingIff(states, steps, j, k);
  }

  lemma {:induction false} CallsGrowOver(states: seq<State>, steps: seq<Step>, i: nat, j: nat)
    requires IsRun(states, steps) && i <= j < |states|
    ensures |states[i].calls| <= |states[j].calls|
  {
    if i < j {
      CallsGrowOver(states, steps, i, j - 1);
      assert TakesStep(states, steps, j - 1);
      CallsGrow(states[j - 1], steps[j - 1], states[j]);
    }
  }

  /** A waiter whose time is up stays without a result, whatever arrives later. */
  lemma {:induction false} TimedOutForGood(states: seq<State>, steps: seq<Step>, i: nat, j: nat, k: CallNo)
    requires IsRun(states, steps) && i < j < |states| && steps[i] == TimeOut(k)
    ensures k < |states[j].pcs| && states[j].pcs[k] == TimedOut
  {
    assert TakesStep(states, steps, j - 1);
    if i + 1 < j {
      TimedOutForGood(states, steps, i, j - 1, k);
    }
  }

  /** The server's side of a first call. */
  function FirstSent(namespace: string, call: Call): State {
    State(namespace, [call], [0], [Waiting], 1, map[0 := 0],
          map[0 := SocketIo.EventPacket(namespace, call.event, call.data, Some(0))], map[], map[], [])
  }

  function FirstHandled(namespace: string, call: Call, result: Value): State {
    FirstSent(namespace, call).(
      events := map[], acks := map[0 := SocketIo.AckPacket(namespace, 0, result)],
      handled := map[0 := Handled(call.event, SocketIo.Arguments(call.data), Some(result))])
  }

  lemma SendsFirst(namespace: string, call: Call) returns (states: seq<State>, steps: seq<Step>)
    ensures IsRun(states, steps) && |steps| == 3 && states[3] == FirstSent(namespace, call)
  {
    var s0 := Init(namespace);
    var s1 := s0.(calls := [call], ids := [0], pcs := [Fetched], counter := 1);
    var s2 := s1.(pending := map[0 := 0], pcs := [Inserted]);
    states, steps := [s0, s1, s2, FirstSent(namespace, call)], [Fetch(call), Insert(0), Send(0)];
    assert TakesStep(states, steps, 0) && TakesStep(states, steps, 1) && TakesStep(states, steps, 2);
  }

  lemma HandlesFirst(namespace: string, call: Call, result: Value)
    ensures Enabled(FirstSent(namespace, call), Handle(0, Some(result)))
    ensures Apply(FirstSent(namespace, call), Handle(0, Some(result))) == FirstHandled(namespace, call, result)
  {
    SocketIo.EventCarries(namespace, call.event, call.data, Some(0));
  }

  lemma RunOn(states: seq<State>, steps: seq<Step>, step: Step, s: State)
    requires IsRun(states, steps) && Enabled(states[|steps|], step) && s == Apply(states[|steps|], step)
    ensures IsRun(states + [s], steps + [step])
  {
    forall i | 0 <= i <= |steps| ensures TakesStep(states + [s], steps + [step], i) {
      if i < |steps| { assert TakesStep(states, steps, i); }
    }
  }

  /** The call by itself, from the emit to the result. */
  lemma CallSucceeds(namespace: string, call: Call, result: Value) returns (states: seq<State>, steps: seq<Step>)
    ensures IsRun(states, steps)
    ensures var s := states[|states| - 1];
            && s.pcs == [Returned(if result.Arr? then result else SocketIo.Arr([result]))] && s.pending == map[]
            && s.handled == map[0 := Handled(call.event, SocketIo.Arguments(call.data), Some(result))]
  {
    var sent, handled := FirstSent(namespace, call), FirstHandled(namespace, call, result);
    states, steps := SendsFirst(namespace, call);
    HandlesFirst(namespace, call, result);
    RunOn(states, steps, Handle(0, Some(result)), handled);
    states, steps := states + [handled], steps + [Handle(0, Some(result))];
    RunOn(states, steps, Dispatch(0), Apply(handled, Dispatch(0)));
    states, steps := states + [Apply(handled, Dispatch(0))], steps + [Dispatch(0)];
  }
}
