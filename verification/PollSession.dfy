/**
  One live Engine.IO session: the session loop, the tasks that push pongs, the polling GETs and the
  WebSocket writers, one step per channel operation, buffer access or notification
  (`run_session_loop`, `handle_polling_get` and `handle_websocket_connection`,
  engine/src/core/socketio/handler.rs).
*/
module PollSession {
  import opened Wrappers
  import opened EngineIo

  /** The channel's bound (engine/src/core/socketio/engine_io.rs). */
  const CAPACITY: nat := 64

  type Packet = EioPacket

  const PING := EioPacket(Ping, None)
  const NOOP := EioPacket(Noop, None)

  /** A polling GET waits with a time-out; a writer waits without one and can be aborted. */
  datatype Consumer = Get(n: nat) | Writer(n: nat)

  /** What the buffer holds: packets that came over the channel, or were pushed directly. */
  datatype Source = Channel | Tick | Task(n: nat) | Late

  datatype Item = Item(source: Source, packet: Packet)

  /** Who asks for the buffer's lock; a late reader is a GET that timed out. */
  datatype Holder = TheLoop | Pusher(n: nat) | Reader(consumer: Consumer, late: bool)

  /** A place in the lock's queue; the one in front has been handed the lock, and is inside once it runs. */
  datatype Request = Request(who: Holder, inside: bool)

  datatype LoopPc = Selecting | Pushing(item: Item) | Pushed | SendingPing

  /**
    A consumer that waits is woken in two steps: it is notified, and then it runs and asks for the
    lock. The lock is fair and hands itself on to the next in its queue.
  */
  datatype State = State(
    queue: seq<Packet>,
    buffer: seq<Item>,
    lock: seq<Request>,
    loop: LoopPc,
    pushing: map<nat, Packet>,
    pushers: set<nat>,
    permit: bool,
    waiting: seq<Consumer>,
    notified: set<Consumer>,
    sent: seq<Packet>,
    drained: seq<Item>)

  const START := State([], [], [], Selecting, map[], {}, false, [], {}, [], [])

  datatype Step =
    | Send(packet: Packet)
    | Receive
    | TickPolling
    | TickWebSocket
    | PingSent
    | LoopNotify
    | PushDirect(pusher: nat, packet: Packet)
    | Enter
    | Push
    | Notify(pusher: nat)
    | Arrive(consumer: Consumer)
    | Poll(consumer: Consumer)
    | TimeOut(consumer: Consumer)
    | Take
    | Abort(consumer: Consumer)

  predicate About(r: Request, c: Consumer) {
    r.who.Reader? && r.who.consumer == c
  }

  /** The consumer is in the lock's queue. */
  predicate Has(lock: seq<Request>, c: Consumer) {
    exists r <- lock :: About(r, c)
  }

  ghost predicate Enabled(s: State, step: Step) {
    match step
    case Send(_) => |s.queue| < CAPACITY
    case Receive => s.loop == Selecting && s.queue != []
    case TickPolling => s.loop == Selecting
    case TickWebSocket => s.loop == Selecting
    case PingSent => s.loop == SendingPing && |s.queue| < CAPACITY
    case LoopNotify => s.loop == Pushed
    case PushDirect(p, _) => p !in s.pushing && p !in s.pushers
    case Enter => s.lock != [] && !s.lock[0].inside
    case Push =>
      && s.lock != [] && s.lock[0].inside
      && ((s.lock[0].who.TheLoop? && s.loop.Pushing?) || (s.lock[0].who.Pusher? && s.lock[0].who.n in s.pushing))
    case Notify(p) => p in s.pushers
    case Arrive(c) => c !in s.waiting && c !in s.notified && !Has(s.lock, c)
    case Poll(c) => c in s.notified
    case TimeOut(c) => c.Get? && c in s.waiting
    case Take => s.lock != [] && s.lock[0].inside && s.lock[0].who.Reader?
    case Abort(c) => c.Writer? && forall r <- s.lock :: About(r, c) ==> !r.inside
  }

  /** `notify_one`: the longest waiter is notified, or the one permit is stored. */
  function Notified(s: State): State {
    if s.waiting != [] then s.(notified := s.notified + {s.waiting[0]}, waiting := s.waiting[1..])
    else s.(permit := true)
  }

  function Without(waiting: seq<Consumer>, c: Consumer): (r: seq<Consumer>)
    ensures forall d :: d in r <==> d in waiting && d != c
    ensures |r| <= |waiting|
    ensures multiset(r) == multiset(waiting)[c := 0]
  {
    if waiting == [] then []
    else
      assert waiting == [waiting[0]] + waiting[1..];
      (if waiting[0] == c then [] else [waiting[0]]) + Without(waiting[1..], c)
  }

  function LockWithout(lock: seq<Request>, c: Consumer): (r: seq<Request>)
    ensures forall q :: q in r <==> q in lock && !About(q, c)
  {
    if lock == [] then []
    else (if About(lock[0], c) then [] else [lock[0]]) + LockWithout(lock[1..], c)
  }

  /** Asking for the lock: at once when it is free, else behind the others. */
  function Asked(lock: seq<Request>, who: Holder): seq<Request> {
    lock + [Request(who, lock == [])]
  }

  /** The whole buffer is taken; a GET that timed out on an empty one takes the noop it put there. */
  function Taken(s: State, late: bool): seq<Item> {
    if s.buffer == [] && late then [Item(Late, NOOP)] else s.buffer
  }

  /** An aborted writer gives a notification on, but not a wakeup it has used up. */
  function Aborted(s: State, c: Consumer): State {
    if c in s.notified then Notified(s.(notified := s.notified - {c}))
    else s.(waiting := Without(s.waiting, c), lock := LockWithout(s.lock, c))
  }

  ghost function Apply(s: State, step: Step): State
    requires Enabled(s, step)
  {
    match step
    case Send(p) => s.(queue := s.queue + [p], sent := s.sent + [p])
    case Receive => s.(queue := s.queue[1..], loop := Pushing(Item(Channel, s.queue[0])), lock := Asked(s.lock, TheLoop))
    case TickPolling => s.(loop := Pushing(Item(Tick, PING)), lock := Asked(s.lock, TheLoop))
    case TickWebSocket => s.(loop := SendingPing)
    case PingSent => s.(queue := s.queue + [PING], sent := s.sent + [PING], loop := Selecting)
    case LoopNotify => Notified(s.(loop := Selecting))
    case PushDirect(p, packet) => s.(pushing := s.pushing[p := packet], lock := Asked(s.lock, Pusher(p)))
    case Enter => s.(lock := [s.lock[0].(inside := true)] + s.lock[1..])
    case Push =>
      if s.lock[0].who.TheLoop? then s.(buffer := s.buffer + [s.loop.item], loop := Pushed, lock := s.lock[1..])
      else
        var p := s.lock[0].who.n;
        s.(buffer := s.buffer + [Item(Task(p), s.pushing[p])], pushing := s.pushing - {p}, pushers := s.pushers + {p}, lock := s.lock[1..])
    case Notify(p) => Notified(s.(pushers := s.pushers - {p}))
    case Arrive(c) =>
      if s.permit then s.(permit := false, lock := Asked(s.lock, Reader(c, false))) else s.(waiting := s.waiting + [c])
    case Poll(c) => s.(notified := s.notified - {c}, lock := Asked(s.lock, Reader(c, false)))
    case TimeOut(c) => s.(waiting := Without(s.waiting, c), lock := Asked(s.lock, Reader(c, true)))
    case Take => s.(buffer := [], drained := s.drained + Taken(s, s.lock[0].who.late), lock := s.lock[1..])
    case Abort(c) => Aborted(s, c)
  }

  ghost predicate IsRun(states: seq<State>, steps: seq<Step>) {
    Follows(states, steps) && states[0] == START
  }

  ghost predicate TakesStep(states: seq<State>, steps: seq<Step>, i: int) {
    && 0 <= i < |steps| && i + 1 < |states|
    && Enabled(states[i], steps[i]) && states[i + 1] == Apply(states[i], steps[i])
  }

  ghost predicate Follows(states: seq<State>, steps: seq<Step>) {
    && |states| == |steps| + 1
    && forall i | 0 <= i < |steps| :: TakesStep(states, steps, i)
  }

  // ----- no lost wakeup -----

  /** Nobody is between a push and its notification, or between a notification and taking the buffer. */
  ghost predicate Settled(s: State) {
    s.notified == {} && s.lock == [] && s.pushers == {} && s.loop != Pushed
  }

  /** Buffered packets are announced, or about to be seen; and no permit is kept from a waiter. */
  ghost predicate Awake(s: State) {
    && (s.buffer != [] ==> s.permit || !Settled(s))
    && (s.waiting != [] ==> !s.permit)
  }

  /** The abort of a writer that waits for the lock, alone, with packets buffered and nothing else under way. */
  ghost predicate Losing(s: State, step: Step) {
    && step.Abort? && step.consumer !in s.notified
    && s.buffer != [] && !s.permit && s.notified == {} && s.pushers == {} && s.loop != Pushed
    && forall r <- s.lock :: About(r, step.consumer)
  }

  /** Only such an abort loses a wakeup, and it always does. */
  lemma StepKeepsAwakeIff(s: State, step: Step, s': State)
    requires Awake(s) && Enabled(s, step) && s' == Apply(s, step)
    ensures Awake(s') <==> !Losing(s, step)
  {
    if step.Abort? {
      var left := LockWithout(s.lock, step.consumer);
      assert left == [] <==> forall r <- s.lock :: About(r, step.consumer) by {
        if left != [] { assert left[0] in left; }
      }
    }
  }

  ghost predicate NothingLost(states: seq<State>, steps: seq<Step>, i: nat) {
    forall k | 0 <= k < i && k < |steps| && k < |states| :: !Losing(states[k], steps[k])
  }

  lemma {:induction false} RunKeepsAwake(states: seq<State>, steps: seq<Step>, i: nat)
    requires IsRun(states, steps) && i < |states| && NothingLost(states, steps, i)
    ensures Awake(states[i])
  {
    if i > 0 {
      RunKeepsAwake(states, steps, i - 1);
      assert TakesStep(states, steps, i - 1);
      StepKeepsAwakeIff(states[i - 1], steps[i - 1], states[i]);
    }
  }

  lemma SettledIsAnnounced(s: State, c: Consumer)
    requires Awake(s) && s.buffer != [] && Settled(s)
    ensures s.permit && s.waiting == [] && Enabled(s, Arrive(c))
    ensures var t := Apply(s, Arrive(c));
            Enabled(t, Take) && Apply(t, Take).buffer == [] && Apply(t, Take).drained == s.drained + s.buffer
  {
  }

  /**
    Over every run without such an abort: in a settled session nobody sleeps while packets are
    buffered, and whoever comes next takes all of them at once.
  */
  lemma NoLostWakeup(states: seq<State>, steps: seq<Step>, i: nat, c: Consumer)
    requires IsRun(states, steps) && i < |states| && NothingLost(states, steps, i)
    requires states[i].buffer != [] && Settled(states[i])
    ensures states[i].permit && states[i].waiting == [] && Enabled(states[i], Arrive(c))
    ensures var t := Apply(states[i], Arrive(c));
            Enabled(t, Take) && Apply(t, Take).buffer == [] && Apply(t, Take).drained == states[i].drained + states[i].buffer
  {
    RunKeepsAwake(states, steps, i);
    SettledIsAnnounced(states[i], c);
  }

  // ----- a session with one writer -----

  /** No writer but `w` ever comes. */
  ghost predicate OnlyWriter(steps: seq<Step>, w: Consumer, i: nat) {
    forall k | 0 <= k < i && k < |steps| :: steps[k].Arrive? && steps[k].consumer.Writer? ==> steps[k].consumer == w
  }

  /** A consumer is in one place at a time, and a writer is `w`. */
  ghost predicate Placed(s: State, w: Consumer, c: Consumer) {
    && (c in s.waiting || c in s.notified || Has(s.lock, c) ==> c.Get? || c == w)
    && (c in s.notified ==> c !in s.waiting && !Has(s.lock, c))
    && (c in s.waiting ==> !Has(s.lock, c))
    && multiset(s.waiting)[c] <= 1
  }

  ghost predicate WaitsForLock(s: State, w: Consumer) {
    exists r <- s.lock :: About(r, w) && !r.inside
  }

  /** While `w` waits for the lock and packets are buffered, somebody else is under way to them. */
  ghost predicate Backed(s: State, w: Consumer) {
    WaitsForLock(s, w) && s.buffer != [] ==>
      s.permit || s.notified != {} || s.pushers != {} || s.loop == Pushed || exists r <- s.lock :: !About(r, w)
  }

  lemma AskedLock(lock: seq<Request>, who: Holder)
    ensures forall r <- lock :: r in Asked(lock, who)
    ensures Request(who, lock == []) in Asked(lock, who)
    ensures forall r <- Asked(lock, who) :: r in lock || r == Request(who, lock == [])
  {
    var r := Request(who, lock == []);
    assert Asked(lock, who)[|lock|] == r;
    forall q <- lock ensures q in Asked(lock, who) {
      var i :| 0 <= i < |lock| && lock[i] == q;
      assert Asked(lock, who)[i] == q;
    }
  }

  lemma LockPopped(lock: seq<Request>)
    requires lock != []
    ensures forall r <- lock[1..] :: r in lock
    ensures forall r <- lock :: r == lock[0] || r in lock[1..]
    ensures var entered := [lock[0].(inside := true)] + lock[1..];
            && entered[0] in entered
            && (forall r <- entered :: r == entered[0] || r in lock)
            && (forall r <- lock :: r == lock[0] || r in entered)
  {
    assert lock == [lock[0]] + lock[1..];
  }

  lemma HasAsked(lock: seq<Request>, who: Holder, c: Consumer)
    ensures Has(Asked(lock, who), c) <==> Has(lock, c) || (who.Reader? && who.consumer == c)
  {
    AskedLock(lock, who);
  }

  lemma HasPopped(lock: seq<Request>, c: Consumer)
    requires lock != []
    ensures Has(lock[1..], c) ==> Has(lock, c)
    ensures Has([lock[0].(inside := true)] + lock[1..], c) ==> Has(lock, c)
  {
    LockPopped(lock);
    assert lock[0] in lock;
  }

  lemma HasWithout(lock: seq<Request>, d: Consumer, c: Consumer)
    ensures Has(LockWithout(lock, d), c) ==> Has(lock, c)
  {
  }

  lemma WokenOnce(waiting: seq<Consumer>, c: Consumer)
    requires waiting != []
    ensures multiset(waiting[1..])[c] == multiset(waiting)[c] - if waiting[0] == c then 1 else 0
    ensures c in waiting[1..] ==> c in waiting
    ensures waiting[0] == c && multiset(waiting)[c] <= 1 ==> c !in waiting[1..]
  {
    assert waiting == [waiting[0]] + waiting[1..];
    assert multiset(waiting) == multiset{waiting[0]} + multiset(waiting[1..]);
  }

  lemma PlacedNotified(s: State, w: Consumer, c: Consumer)
    requires Placed(s, w, c)
    ensures Placed(Notified(s), w, c)
  {
    if s.waiting != [] { WokenOnce(s.waiting, c); }
  }

  /** A step that puts a request at the end of the lock's queue. */
  lemma PlacedAsking(s: State, step: Step, s': State, w: Consumer, c: Consumer)
    requires Enabled(s, step) && s' == Apply(s, step) && Placed(s, w, c)
    requires step == Arrive(c) && c.Writer? ==> c == w
    requires step.Receive? || step.TickPolling? || step.PushDirect? || step.Arrive? || step.Poll? || step.TimeOut?
    ensures Placed(s', w, c)
  {
    var who :=
      if step.PushDirect? then Pusher(step.pusher)
      else if step.Receive? || step.TickPolling? then TheLoop
      else Reader(step.consumer, step.TimeOut?);
    HasAsked(s.lock, who, c);
    if step.Arrive? {
      assert multiset(s.waiting + [step.consumer]) == multiset(s.waiting) + multiset{step.consumer};
      assert c in s.waiting <==> multiset(s.waiting)[c] > 0;
    }
  }

  lemma PlacedStep(s: State, step: Step, s': State, w: Consumer, c: Consumer)
    requires Enabled(s, step) && s' == Apply(s, step) && Placed(s, w, c)
    requires step == Arrive(c) && c.Writer? ==> c == w
    ensures Placed(s', w, c)
  {
    match step
    case LoopNotify => PlacedNotified(s.(loop := Selecting), w, c);
    case Notify(p) => PlacedNotified(s.(pushers := s.pushers - {p}), w, c);
    case Abort(d) =>
      if d in s.notified {
        PlacedNotified(s.(notified := s.notified - {d}), w, c);
      } else {
        HasWithout(s.lock, d, c);
      }
    case Send(_) =>
    case TickWebSocket =>
    case PingSent =>
    case Enter => HasPopped(s.lock, c);
    case Push => HasPopped(s.lock, c);
    case Take => HasPopped(s.lock, c);
    case _ => PlacedAsking(s, step, s', w, c);
  }

  lemma BackedStep(s: State, step: Step, s': State, w: Consumer)
    requires Enabled(s, step) && s' == Apply(s, step) && Placed(s, w, w) && Backed(s, w) && w.Writer?
    requires step.Abort? ==> Placed(s, w, step.consumer)
    ensures Backed(s', w)
  {
    if s.lock != [] { LockPopped(s.lock); }
    match step
    case Receive => AskedLock(s.lock, TheLoop);
    case TickPolling => AskedLock(s.lock, TheLoop);
    case PushDirect(p, _) => AskedLock(s.lock, Pusher(p));
    case Arrive(d) => AskedLock(s.lock, Reader(d, false));
    case Poll(d) => AskedLock(s.lock, Reader(d, false));
    case TimeOut(d) => AskedLock(s.lock, Reader(d, true));
    case _ =>
  }

  lemma BackedDoesNotLose(s: State, step: Step, w: Consumer)
    requires Enabled(s, step) && Awake(s) && Backed(s, w)
    requires step.Abort? ==> Placed(s, w, step.consumer)
    ensures !Losing(s, step)
  {
    if step.Abort? && s.lock != [] {
      assert s.lock[0] in s.lock;
    }
  }

  /** With one writer no wakeup is lost, aborts included. */
  lemma {:induction false} OneWriterStaysAwake(states: seq<State>, steps: seq<Step>, w: Consumer, i: nat)
    requires IsRun(states, steps) && i < |states| && w.Writer? && OnlyWriter(steps, w, i)
    ensures Awake(states[i]) && Backed(states[i], w) && forall c :: Placed(states[i], w, c)
  {
    if i > 0 {
      OneWriterStaysAwake(states, steps, w, i - 1);
      assert TakesStep(states, steps, i - 1);
      var s, step, s' := states[i - 1], steps[i - 1], states[i];
      assert step.Abort? ==> Placed(s, w, step.consumer);
      BackedDoesNotLose(s, step, w);
      StepKeepsAwakeIff(s, step, s');
      assert Placed(s, w, w);
      BackedStep(s, step, s', w);
      forall c ensures Placed(s', w, c) {
        PlacedStep(s, step, s', w, c);
      }
    }
  }

  lemma AbortInFront(s: State, c: Consumer, r: Request, other: Request)
    requires s.lock == (if r == other then [r] else [r, other]) && r == Request(Reader(c, false), false) && c.Writer?
    requires r != other ==> !About(other, c)
    requires c !in s.notified && s.waiting == []
    ensures Enabled(s, Abort(c)) && Apply(s, Abort(c)) == s.(lock := if r == other then [] else [other])
  {
    assert LockWithout(s.lock[1..], c) == s.lock[1..] by {
      if r != other { assert s.lock[1..] == [other] && [other][1..] == []; }
    }
    assert Without(s.waiting, c) == [];
  }

  /**
    With two writers, a wakeup is lost when the first, handed the lock but not yet running, and then
    the second, queued behind it, are aborted: packets stay buffered and nobody is told of them.
  */
  lemma TwoAbortedWritersLose(p: Packet, q: Packet, v: Consumer, w: Consumer) returns (states: seq<State>, steps: seq<Step>)
    requires v.Writer? && w.Writer? && v != w
    ensures IsRun(states, steps)
    ensures var s := states[|states| - 1];
            s.buffer == [Item(Channel, p), Item(Task(0), q)] && Settled(s) && !s.permit
  {
    var first, second := Request(Reader(v, false), false), Request(Reader(w, false), false);
    var s5 := START.(sent := [p], buffer := [Item(Channel, p)], notified := {v});
    var s8 := s5.(buffer := [Item(Channel, p), Item(Task(0), q)], pushers := {0}, notified := {}, lock := [first]);
    var a := Announced(p, v, s5);
    var b := PushedMeanwhile(q, v, s5, s8, first);
    var c := BothAborted(v, w, s8, first, second);
    var x := [Arrive(v), Send(p), Receive, Push, LoopNotify];
    var y := [PushDirect(0, q), Poll(v), Push];
    var z := [Notify(0), Arrive(w), Abort(v), Abort(w)];
    FollowsOn(a, x, b, y);
    FollowsOn(a + b[1..], x + y, c, z);
    states, steps := a + b[1..] + c[1..], x + y + z;
  }

  lemma FollowsOn(a: seq<State>, x: seq<Step>, b: seq<State>, y: seq<Step>)
    requires Follows(a, x) && Follows(b, y) && a[|x|] == b[0]
    ensures Follows(a + b[1..], x + y)
    ensures (a + b[1..])[0] == a[0] && (a + b[1..])[|x| + |y|] == b[|y|]
  {
    var states, steps := a + b[1..], x + y;
    forall i | 0 <= i < |steps| ensures TakesStep(states, steps, i) {
      if i < |x| {
        assert TakesStep(a, x, i);
        assert steps[i] == x[i] && states[i] == a[i] && states[i + 1] == a[i + 1];
      } else {
        assert TakesStep(b, y, i - |x|);
        assert steps[i] == y[i - |x|] && states[i] == b[i - |x|] && states[i + 1] == b[i - |x| + 1];
      }
    }
  }

  /** A packet is pushed while the writer waits, and the writer is notified. */
  lemma Announced(p: Packet, v: Consumer, s5: State) returns (states: seq<State>)
    requires s5 == START.(sent := [p], buffer := [Item(Channel, p)], notified := {v})
    ensures Follows(states, [Arrive(v), Send(p), Receive, Push, LoopNotify]) && states[0] == START && states[5] == s5
  {
    var s1 := START.(waiting := [v]);
    var s2 := s1.(queue := [p], sent := [p]);
    var s3 := s2.(queue := [], loop := Pushing(Item(Channel, p)), lock := [Request(TheLoop, true)]);
    var s4 := s3.(buffer := [Item(Channel, p)], loop := Pushed, lock := []);
    assert Apply(START, Arrive(v)) == s1;
    assert Apply(s1, Send(p)) == s2;
    assert Apply(s2, Receive) == s3;
    assert Apply(s3, Push) == s4;
    assert Apply(s4, LoopNotify) == s5;
    states := [START, s1, s2, s3, s4, s5];
  }

  /** It runs while another task holds the lock, and has to queue for it. */
  lemma PushedMeanwhile(q: Packet, v: Consumer, s5: State, s8: State, first: Request) returns (states: seq<State>)
    requires s5.lock == [] && s5.pushing == map[] && s5.pushers == {} && s5.notified == {v} && |s5.buffer| == 1
    requires first == Request(Reader(v, false), false)
    requires s8 == s5.(buffer := [s5.buffer[0], Item(Task(0), q)], pushers := {0}, notified := {}, lock := [first])
    ensures Follows(states, [PushDirect(0, q), Poll(v), Push]) && states[0] == s5 && states[3] == s8
  {
    var s6 := s5.(pushing := map[0 := q], lock := [Request(Pusher(0), true)]);
    var s7 := s6.(notified := {}, lock := [Request(Pusher(0), true), first]);
    assert Apply(s5, PushDirect(0, q)) == s6;
    assert Apply(s6, Poll(v)) == s7;
    assert s7.lock[1..] == [first] && map[0 := q] - {0} == map[];
    assert Apply(s7, Push) == s8;
    states := [s5, s6, s7, s8];
  }

  /** The other task's permit goes to a second writer, which queues behind the first; both are aborted. */
  lemma BothAborted(v: Consumer, w: Consumer, s8: State, first: Request, second: Request) returns (states: seq<State>)
    requires v.Writer? && w.Writer? && v != w
    requires first == Request(Reader(v, false), false) && second == Request(Reader(w, false), false)
    requires s8.lock == [first] && s8.pushers == {0} && s8.waiting == [] && s8.notified == {} && !s8.permit
    ensures Follows(states, [Notify(0), Arrive(w), Abort(v), Abort(w)]) && states[0] == s8
    ensures states[4] == s8.(pushers := {}, lock := [])
  {
    var s9 := s8.(pushers := {}, permit := true);
    var s10 := s9.(permit := false, lock := [first, second]);
    var s11 := s10.(lock := [second]);
    var s12 := s11.(lock := []);
    assert Apply(s8, Notify(0)) == s9;
    assert !Has(s9.lock, w);
    assert Apply(s9, Arrive(w)) == s10;
    AbortInFront(s10, v, first, second);
    AbortInFront(s11, w, second, second);
    states := [s8, s9, s10, s11, s12];
  }

  // ----- first in, first out -----

  /** The packets among the items that come from one source. */
  function From(items: seq<Item>, source: Source): seq<Packet> {
    if items == [] then []
    else
      var last := items[|items| - 1];
      From(items[..|items| - 1], source) + if last.source == source then [last.packet] else []
  }

  lemma {:induction false} FromConcat(a: seq<Item>, b: seq<Item>, source: Source)
    ensures From(a + b, source) == From(a, source) + From(b, source)
  {
    if b == [] {
      assert a + b == a;
    } else {
      assert (a + b)[..|a + b| - 1] == a + b[..|b| - 1];
      FromConcat(a, b[..|b| - 1], source);
    }
  }

  /** What has left its source and is not in the buffer yet. */
  function Held(s: State, source: Source): seq<Packet> {
    match source
    case Channel => (if s.loop.Pushing? && s.loop.item.source == source then [s.loop.item.packet] else []) + s.queue
    case Tick => if s.loop.Pushing? && s.loop.item.source == source then [s.loop.item.packet] else []
    case Task(n) => if n in s.pushing then [s.pushing[n]] else []
    case Late => []
  }

  /** What a step takes from a source: a packet sent, a ping for each tick, a task's own packet, a noop for a GET that found nothing in time. */
  ghost function Given(s: State, step: Step, source: Source): seq<Packet>
    requires Enabled(s, step)
  {
    match step
    case Send(packet) => if source == Channel then [packet] else []
    case PingSent => if source == Channel then [EioPacket(Ping, None)] else []
    case TickPolling => if source == Tick then [EioPacket(Ping, None)] else []
    case PushDirect(n, packet) => if source == Task(n) then [packet] else []
    case Take => if source == Late && s.buffer == [] && s.lock[0].who.late then [EioPacket(Noop, None)] else []
    case _ => []
  }

  /** What the first `i` steps of a run take. */
  ghost function AllGiven(states: seq<State>, steps: seq<Step>, i: nat, source: Source): seq<Packet>
    requires Follows(states, steps) && i < |states|
  {
    if i == 0 then []
    else
      assert TakesStep(states, steps, i - 1);
      AllGiven(states, steps, i - 1, source) + Given(states[i - 1], steps[i - 1], source)
  }

  /** What was given is what was drained, then what is buffered, then what is held. */
  ghost predicate Conserved(s: State, source: Source, given: seq<Packet>) {
    given == From(s.drained, source) + From(s.buffer, source) + Held(s, source)
  }

  /** Only the loop holds a packet of the channel or of a tick. */
  ghost predicate LoopItem(s: State) {
    s.loop.Pushing? ==> s.loop.item.source == Channel || s.loop.item.source == Tick
  }

  lemma BufferItem(buffer: seq<Item>, item: Item, source: Source)
    ensures From(buffer + [item], source) == From(buffer, source) + if item.source == source then [item.packet] else []
  {
    assert (buffer + [item])[..|buffer|] == buffer;
  }

  predicate Gives(step: Step) {
    step.Send? || step.PingSent? || step.TickPolling? || step.PushDirect?
  }

  lemma HeldMore(s: State, step: Step, s': State, source: Source)
    requires Gives(step) && Enabled(s, step) && s' == Apply(s, step)
    ensures s'.drained == s.drained && s'.buffer == s.buffer && Held(s', source) == Held(s, source) + Given(s, step, source)
  {
  }

  lemma GivingConserves(s: State, step: Step, s': State, source: Source, given: seq<Packet>)
    requires Conserved(s, source, given) && Gives(step) && Enabled(s, step) && s' == Apply(s, step)
    ensures Conserved(s', source, given + Given(s, step, source))
  {
    HeldMore(s, step, s', source);
    Behind(From(s.drained, source) + From(s.buffer, source), Held(s, source), Given(s, step, source));
  }

  lemma Behind<T>(a: seq<T>, b: seq<T>, c: seq<T>)
    ensures a + b + c == a + (b + c)
  {
  }

  lemma ReceiveHeld(s: State, s': State, source: Source)
    requires Enabled(s, Receive) && s' == Apply(s, Receive)
    ensures s'.drained == s.drained && s'.buffer == s.buffer && Held(s', source) == Held(s, source)
  {
    assert s.queue == [s.queue[0]] + s.queue[1..] && [] + s.queue == s.queue;
  }

  ghost function PushedItem(s: State): Item
    requires Enabled(s, Push)
  {
    if s.lock[0].who.TheLoop? then s.loop.item else Item(Task(s.lock[0].who.n), s.pushing[s.lock[0].who.n])
  }

  lemma PushEffect(s: State, s': State, source: Source)
    requires LoopItem(s) && Enabled(s, Push) && s' == Apply(s, Push)
    ensures s'.drained == s.drained && s'.buffer == s.buffer + [PushedItem(s)]
    ensures Held(s, source) == (if PushedItem(s).source == source then [PushedItem(s).packet] else []) + Held(s', source)
  {
  }

  lemma Move<T>(given: seq<T>, d: seq<T>, b: seq<T>, h: seq<T>, x: seq<T>, h': seq<T>)
    requires given == d + b + h && h == x + h'
    ensures given == d + (b + x) + h'
  {
  }

  lemma PushConserves(s: State, s': State, source: Source, given: seq<Packet>)
    requires Conserved(s, source, given) && LoopItem(s) && Enabled(s, Push) && s' == Apply(s, Push)
    ensures Conserved(s', source, given)
  {
    var item := PushedItem(s);
    PushEffect(s, s', source);
    BufferItem(s.buffer, item, source);
    Move(given, From(s.drained, source), From(s.buffer, source), Held(s, source),
         if item.source == source then [item.packet] else [], Held(s', source));
  }

  lemma TakenFrom(buffer: seq<Item>, s: State, late: bool, source: Source)
    requires s.buffer == buffer
    ensures From(Taken(s, late), source) == From(buffer, source) + if source == Late && buffer == [] && late then [NOOP] else []
  {
    if buffer == [] && late {
      BufferItem([], Item(Late, NOOP), source);
      assert [] + [Item(Late, NOOP)] == [Item(Late, NOOP)];
    }
  }

  lemma TakeEffect(s: State, s': State, source: Source)
    requires Enabled(s, Take) && s' == Apply(s, Take)
    ensures s'.drained == s.drained + Taken(s, s.lock[0].who.late) && s'.buffer == [] && Held(s', source) == Held(s, source)
    ensures Given(s, Take, source) == if source == Late && s.buffer == [] && s.lock[0].who.late then [NOOP] else []
    ensures Given(s, Take, source) == [] || Held(s, source) == []
  {
  }

  lemma Shift<T>(given: seq<T>, d: seq<T>, b: seq<T>, h: seq<T>, more: seq<T>, d': seq<T>)
    requires given == d + b + h && d' == d + (b + more)
    requires more == [] || h == []
    ensures given + more == d' + [] + h
  {
  }

  lemma TakeConserves(s: State, s': State, source: Source, given: seq<Packet>)
    requires Conserved(s, source, given) && Enabled(s, Take) && s' == Apply(s, Take)
    ensures Conserved(s', source, given + Given(s, Take, source))
  {
    var late := s.lock[0].who.late;
    TakeEffect(s, s', source);
    TakenTogether(s.drained, s.buffer, s, late, source, Given(s, Take, source));
    Shift(given, From(s.drained, source), From(s.buffer, source), Held(s, source), Given(s, Take, source), From(s'.drained, source));
  }

  lemma TakenTogether(drained: seq<Item>, buffer: seq<Item>, s: State, late: bool, source: Source, more: seq<Packet>)
    requires s.buffer == buffer && more == if source == Late && buffer == [] && late then [NOOP] else []
    ensures From(drained + Taken(s, late), source) == From(drained, source) + (From(buffer, source) + more)
  {
    FromConcat(drained, Taken(s, late), source);
    TakenFrom(buffer, s, late, source);
  }

  lemma StepConserves(s: State, step: Step, s': State, source: Source, given: seq<Packet>)
    requires Conserved(s, source, given) && LoopItem(s) && Enabled(s, step) && s' == Apply(s, step)
    ensures Conserved(s', source, given + Given(s, step, source)) && LoopItem(s')
  {
    if step.Push? {
      PushConserves(s, s', source, given);
    } else if step.Take? {
      TakeConserves(s, s', source, given);
    } else if Gives(step) {
      GivingConserves(s, step, s', source, given);
    } else if step.Receive? {
      ReceiveHeld(s, s', source);
    } else {
      StillHeld(s, step, s', source);
    }
    assert given + [] == given;
  }

  predicate Moves(step: Step) {
    Gives(step) || step.Push? || step.Take? || step.Receive?
  }

  lemma StillHeld(s: State, step: Step, s': State, source: Source)
    requires Enabled(s, step) && s' == Apply(s, step) && !Moves(step)
    ensures s'.drained == s.drained && s'.buffer == s.buffer && Held(s', source) == Held(s, source) && LoopItem(s) == LoopItem(s')
  {
    StillThere(s, step, s');
  }

  lemma StillThere(s: State, step: Step, s': State)
    requires Enabled(s, step) && s' == Apply(s, step) && !Moves(step)
    ensures s'.drained == s.drained && s'.buffer == s.buffer && s'.queue == s.queue && s'.pushing == s.pushing
    ensures s'.loop == s.loop || (!s.loop.Pushing? && !s'.loop.Pushing?)
  {
  }

  /**
    From each source, everything that was given comes out once, unchanged and in order: the packets sent on
    the session channel with a ping for each tick over it, a ping for each tick past it, each task's own
    packets, and the noops of GETs that found nothing.
  */
  lemma FirstInFirstOut(states: seq<State>, steps: seq<Step>, i: nat, source: Source)
    requires IsRun(states, steps) && i < |states|
    ensures ConservedIn(states, steps, i, source)
  {
    var conserved := ConservedUpTo(states, steps, source);
    ConservedAtStart(states, steps, source);
    forall k: nat | k < i ensures Passes(conserved, k) {
      ConservationPasses(states, steps, k, source);
    }
    Induct(i, conserved);
  }

  ghost function ConservedUpTo(states: seq<State>, steps: seq<Step>, source: Source): nat -> bool
    requires Follows(states, steps)
  {
    (k: nat) => k < |states| && ConservedIn(states, steps, k, source)
  }

  lemma ConservationPasses(states: seq<State>, steps: seq<Step>, k: nat, source: Source)
    requires IsRun(states, steps) && k < |steps|
    ensures Passes(ConservedUpTo(states, steps, source), k)
  {
    if ConservedIn(states, steps, k, source) {
      ConservesAt(states, steps, k, source);
    }
  }

  ghost predicate ConservedIn(states: seq<State>, steps: seq<Step>, i: nat, source: Source)
    requires Follows(states, steps) && i < |states|
  {
    Conserved(states[i], source, AllGiven(states, steps, i, source)) && LoopItem(states[i])
  }

  lemma ConservesAt(states: seq<State>, steps: seq<Step>, k: nat, source: Source)
    requires IsRun(states, steps) && k < |steps| && ConservedIn(states, steps, k, source)
    ensures ConservedIn(states, steps, k + 1, source)
  {
    assert TakesStep(states, steps, k);
    StepConserves(states[k], steps[k], states[k + 1], source, AllGiven(states, steps, k, source));
  }

  lemma ConservedAtStart(states: seq<State>, steps: seq<Step>, source: Source)
    requires IsRun(states, steps)
    ensures ConservedIn(states, steps, 0, source)
  {
  }

  lemma SentStep(s: State, step: Step, s': State)
    requires Enabled(s, step) && s' == Apply(s, step)
    ensures s'.sent == s.sent + Given(s, step, Channel)
    ensures s'.loop == SendingPing <==> step.TickWebSocket? || (s.loop == SendingPing && !step.PingSent?)
    ensures step.TickWebSocket? ==> s.loop != SendingPing
    ensures step.PingSent? ==> s.loop == SendingPing
  {
    assert s.sent + [] == s.sent;
  }

  /** The history of sent packets is just that. */
  lemma {:induction false} SentIsGiven(states: seq<State>, steps: seq<Step>, i: nat)
    requires IsRun(states, steps) && i < |states|
    ensures states[i].sent == AllGiven(states, steps, i, Channel)
  {
    if i > 0 {
      SentIsGiven(states, steps, i - 1);
      assert TakesStep(states, steps, i - 1);
      SentStep(states[i - 1], steps[i - 1], states[i]);
    }
  }

  /** Each tick over the channel sends its one ping before anything else the loop does. */
  lemma {:induction false} TicksSendPings(states: seq<State>, steps: seq<Step>, i: nat)
    requires IsRun(states, steps) && i < |states|
    ensures Ticks(steps[..i]) == PingsSent(steps[..i]) + if states[i].loop == SendingPing then 1 else 0
  {
    if i > 0 {
      TicksSendPings(states, steps, i - 1);
      assert steps[..i][..i - 1] == steps[..i - 1];
      assert TakesStep(states, steps, i - 1);
      SentStep(states[i - 1], steps[i - 1], states[i]);
    }
  }

  function Ticks(steps: seq<Step>): nat {
    if steps == [] then 0 else Ticks(steps[..|steps| - 1]) + if steps[|steps| - 1].TickWebSocket? then 1 else 0
  }

  function PingsSent(steps: seq<Step>): nat {
    if steps == [] then 0 else PingsSent(steps[..|steps| - 1]) + if steps[|steps| - 1].PingSent? then 1 else 0
  }

  lemma {:induction false} QueueIsBounded(states: seq<State>, steps: seq<Step>, i: nat)
    requires IsRun(states, steps) && i < |states|
    ensures |states[i].queue| <= 64
  {
    if i > 0 {
      QueueIsBounded(states, steps, i - 1);
      assert TakesStep(states, steps, i - 1);
    }
  }

  // ----- the reply to a GET -----

  function ReplyTo(packets: seq<Packet>): string {
    if packets == [] then Encode(NOOP) else EncodePollingPayload(packets)
  }

  /** The client decodes a GET's body to exactly the packets taken, or to one noop when there were none. */
  lemma ReplyCarries(packets: seq<Packet>)
    requires forall p <- packets :: Carriable(p)
    ensures DecodePollingPayload(ReplyTo(packets)) == if packets == [] then [EioPacket(Noop, None)] else packets
  {
    PayloadRoundTrip(packets);
    PayloadRoundTrip([NOOP]);
    assert EncodePollingPayload([NOOP]) == Encode(NOOP);
  }

  // ----- the loop in its own way -----

  /** The loop waits for room in the channel that only it empties. */
  ghost predicate Stuck(s: State) {
    s.loop == SendingPing && |s.queue| == CAPACITY
  }

  /** Once stuck, whatever else happens, the loop stays stuck and delivers nothing more. */
  lemma {:induction false} StuckForever(states: seq<State>, steps: seq<Step>, i: nat, j: nat)
    requires IsRun(states, steps) && i <= j < |states| && Stuck(states[i])
    ensures Stuck(states[j]) && states[j].queue == states[i].queue && states[j].sent == states[i].sent
  {
    if i < j {
      StuckForever(states, steps, i, j - 1);
      assert TakesStep(states, steps, j - 1);
    }
  }

  // ----- the lock -----

  datatype Party = Loop | Other(n: nat) | Client(consumer: Consumer)

  function PartyOf(h: Holder): Party {
    match h
    case TheLoop => Loop
    case Pusher(n) => Other(n)
    case Reader(c, _) => Client(c)
  }

  /** How many requests for the lock a party has made and not yet given back. */
  function Requests(lock: seq<Request>, party: Party): nat {
    if lock == [] then 0 else (if PartyOf(lock[0].who) == party then 1 else 0) + Requests(lock[1..], party)
  }

  lemma {:induction false} RequestsAsked(lock: seq<Request>, who: Holder, party: Party)
    ensures Requests(Asked(lock, who), party) == Requests(lock, party) + if PartyOf(who) == party then 1 else 0
  {
    RequestsBehind(lock, Request(who, lock == []), party);
  }

  lemma {:induction false} RequestsBehind(lock: seq<Request>, r: Request, party: Party)
    ensures Requests(lock + [r], party) == Requests(lock, party) + if PartyOf(r.who) == party then 1 else 0
  {
    if lock == [] {
      assert [] + [r] == [r] && [r][1..] == [];
    } else {
      assert (lock + [r])[1..] == lock[1..] + [r];
      RequestsBehind(lock[1..], r, party);
    }
  }

  lemma {:induction false} RequestsWithout(lock: seq<Request>, c: Consumer, party: Party)
    ensures Requests(LockWithout(lock, c), party) == if party == Client(c) then 0 else Requests(lock, party)
  {
    if lock != [] {
      RequestsWithout(lock[1..], c, party);
      var rest := LockWithout(lock[1..], c);
      assert ([lock[0]] + rest)[1..] == rest && [] + rest == rest;
    }
  }

  lemma RequestsEntered(lock: seq<Request>, party: Party)
    requires lock != []
    ensures Requests([lock[0].(inside := true)] + lock[1..], party) == Requests(lock, party)
  {
    assert ([lock[0].(inside := true)] + lock[1..])[1..] == lock[1..];
  }

  /** The places a consumer is in: waiting, notified, or queued for the lock. */
  function Places(s: State, c: Consumer): nat {
    Requests(s.lock, Client(c)) + multiset(s.waiting)[c] + if c in s.notified then 1 else 0
  }

  /** The loop and the pushing tasks have one request each for as long as they hold a packet. */
  ghost predicate Asking(s: State, party: Party) {
    match party
    case Loop => Requests(s.lock, party) == if s.loop.Pushing? then 1 else 0
    case Other(n) => Requests(s.lock, party) == if n in s.pushing then 1 else 0
    case Client(c) => Places(s, c) <= 1
  }

  ghost predicate OneInside(lock: seq<Request>) {
    forall k | 0 < k < |lock| :: !lock[k].inside
  }

  lemma NotifiedKeepsPlaces(s: State, c: Consumer)
    requires s.waiting != [] && c == s.waiting[0] ==> Places(s, c) <= 1
    ensures Places(Notified(s), c) == Places(s, c)
  {
    if s.waiting != [] {
      assert s.waiting == [s.waiting[0]] + s.waiting[1..];
    }
  }

  lemma LockStep(s: State, step: Step, s': State, party: Party)
    requires Enabled(s, step) && s' == Apply(s, step)
    ensures Requests(s'.lock, party) ==
            if step.Receive? || step.TickPolling? then Requests(s.lock, party) + (if party == Loop then 1 else 0)
            else if step.PushDirect? then Requests(s.lock, party) + (if party == Other(step.pusher) then 1 else 0)
            else if (step.Arrive? && s.permit) || step.Poll? || step.TimeOut? then Requests(s.lock, party) + (if party == Client(step.consumer) then 1 else 0)
            else if step.Push? || step.Take? then Requests(s.lock, party) - (if party == PartyOf(s.lock[0].who) then 1 else 0)
            else if step.Abort? && step.consumer !in s.notified && party == Client(step.consumer) then 0
            else Requests(s.lock, party)
  {
    match step
    case Receive => RequestsAsked(s.lock, TheLoop, party);
    case TickPolling => RequestsAsked(s.lock, TheLoop, party);
    case PushDirect(n, _) => RequestsAsked(s.lock, Pusher(n), party);
    case Arrive(c) => RequestsAsked(s.lock, Reader(c, false), party);
    case Poll(c) => RequestsAsked(s.lock, Reader(c, false), party);
    case TimeOut(c) => RequestsAsked(s.lock, Reader(c, true), party);
    case Enter => RequestsEntered(s.lock, party);
    case Abort(c) => RequestsWithout(s.lock, c, party);
    case _ =>
  }

  lemma HasRequests(lock: seq<Request>, c: Consumer)
    ensures Has(lock, c) <==> Requests(lock, Client(c)) > 0
  {
    if lock != [] {
      HasRequests(lock[1..], c);
      assert About(lock[0], c) <==> PartyOf(lock[0].who) == Client(c);
      assert forall r :: r in lock <==> r == lock[0] || r in lock[1..];
    }
  }

  ghost function Arrives(steps: seq<Step>, c: Consumer): nat -> bool {
    (k: nat) => k < |steps| && steps[k] == Arrive(c)
  }

  ghost predicate Departing(s: State, step: Step, c: Consumer) {
    step == Abort(c) || (step.Take? && s.lock != [] && PartyOf(s.lock[0].who) == Client(c))
  }

  ghost function Departs(states: seq<State>, steps: seq<Step>, c: Consumer): nat -> bool {
    (k: nat) => k < |steps| && k < |states| && Departing(states[k], steps[k], c)
  }

  lemma PlacesMoved(s: State, step: Step, s': State, c: Consumer)
    requires Enabled(s, step) && s' == Apply(s, step) && Places(s, c) <= 1
    requires step.Arrive? || step.Poll? || step.TimeOut? || step.Take?
    ensures Places(s', c) == if step == Arrive(c) then 1 else if Departing(s, step, c) then 0 else Places(s, c)
  {
    LockStep(s, step, s', Client(c));
    HasRequests(s.lock, c);
    if step.Arrive? {
      assert multiset(s.waiting + [step.consumer]) == multiset(s.waiting) + multiset{step.consumer};
    }
  }

  lemma PlacesAborted(s: State, d: Consumer, s': State, c: Consumer)
    requires Enabled(s, Abort(d)) && s' == Apply(s, Abort(d)) && Places(s, c) <= 1
    ensures Places(s', c) == if c == d then 0 else Places(s, c)
  {
    LockStep(s, Abort(d), s', Client(c));
    if d in s.notified {
      NotifiedKeepsPlaces(s.(notified := s.notified - {d}), c);
    }
  }

  lemma PlacesNotified(s: State, step: Step, s': State, c: Consumer)
    requires Enabled(s, step) && s' == Apply(s, step) && Places(s, c) <= 1
    requires step.LoopNotify? || step.Notify?
    ensures Places(s', c) == Places(s, c)
  {
    if step.LoopNotify? {
      NotifiedKeepsPlaces(s.(loop := Selecting), c);
    } else {
      NotifiedKeepsPlaces(s.(pushers := s.pushers - {step.pusher}), c);
    }
  }

  lemma PlacesStep(s: State, step: Step, s': State, c: Consumer)
    requires Enabled(s, step) && s' == Apply(s, step) && Places(s, c) <= 1
    ensures Places(s', c) == if step == Arrive(c) then 1 else if Departing(s, step, c) then 0 else Places(s, c)
  {
    match step
    case Abort(d) => PlacesAborted(s, d, s', c);
    case LoopNotify => PlacesNotified(s, step, s', c);
    case Notify(_) => PlacesNotified(s, step, s', c);
    case Arrive(_) => PlacesMoved(s, step, s', c);
    case Poll(_) => PlacesMoved(s, step, s', c);
    case TimeOut(_) => PlacesMoved(s, step, s', c);
    case Take => PlacesMoved(s, step, s', c);
    case _ => LockStep(s, step, s', Client(c));
  }

  /** From its arrival until it drains the buffer or is aborted, and only then, a consumer is in one place and never in two. */
  lemma PlacesIff(states: seq<State>, steps: seq<Step>, i: nat, c: Consumer)
    requires IsRun(states, steps) && i < |states|
    ensures Places(states[i], c) == if Since(i, Arrives(steps, c), Departs(states, steps, c)) then 1 else 0
  {
    var begins, ends := Arrives(steps, c), Departs(states, steps, c);
    var holds := (k: nat) => k < |states| && Places(states[k], c) == 1;
    forall k: nat | k < i ensures Tracks(holds, begins, ends, k) {
      AtMostOnePlace(states, steps, k, c);
      PlacesAt(states, steps, k, c);
    }
    SinceTracks(i, holds, begins, ends);
    AtMostOnePlace(states, steps, i, c);
  }

  lemma {:induction false} AtMostOnePlace(states: seq<State>, steps: seq<Step>, i: nat, c: Consumer)
    requires IsRun(states, steps) && i < |states|
    ensures Places(states[i], c) <= 1
  {
    if i > 0 {
      AtMostOnePlace(states, steps, i - 1, c);
      assert TakesStep(states, steps, i - 1);
      PlacesStep(states[i - 1], steps[i - 1], states[i], c);
    }
  }

  lemma PlacesAt(states: seq<State>, steps: seq<Step>, k: nat, c: Consumer)
    requires IsRun(states, steps) && k < |steps| && Places(states[k], c) <= 1
    ensures Places(states[k + 1], c) ==
            if Arrives(steps, c)(k) then 1 else if Departs(states, steps, c)(k) then 0 else Places(states[k], c)
  {
    assert TakesStep(states, steps, k);
    PlacesStep(states[k], steps[k], states[k + 1], c);
  }

  lemma AskingStep(s: State, step: Step, s': State, party: Party)
    requires Enabled(s, step) && s' == Apply(s, step) && Asking(s, party) && !party.Client?
    ensures Asking(s', party)
  {
    LockStep(s, step, s', party);
  }

  lemma OneInsideWithout(lock: seq<Request>, c: Consumer)
    requires OneInside(lock) && forall r <- lock :: About(r, c) ==> !r.inside
    ensures OneInside(LockWithout(lock, c))
  {
    if lock != [] {
      var rest := LockWithout(lock[1..], c);
      forall r <- rest ensures !r.inside {
        assert r in lock[1..];
      }
      assert forall k | 0 <= k < |rest| :: rest[k] in rest;
    }
  }

  lemma OneInsideStep(s: State, step: Step, s': State)
    requires Enabled(s, step) && s' == Apply(s, step) && OneInside(s.lock)
    ensures OneInside(s'.lock)
  {
    if step.Abort? && step.consumer !in s.notified {
      OneInsideWithout(s.lock, step.consumer);
    }
  }

  lemma {:induction false} LockIsKept(states: seq<State>, steps: seq<Step>, i: nat, party: Party)
    requires IsRun(states, steps) && i < |states| && !party.Client?
    ensures Asking(states[i], party) && OneInside(states[i].lock)
  {
    if i > 0 {
      LockIsKept(states, steps, i - 1, party);
      assert TakesStep(states, steps, i - 1);
      AskingStep(states[i - 1], steps[i - 1], states[i], party);
      OneInsideStep(states[i - 1], steps[i - 1], states[i]);
    }
  }

  lemma FrontRequests(lock: seq<Request>)
    requires lock != []
    ensures Requests(lock, PartyOf(lock[0].who)) >= 1
  {
  }

  /**
    In every state of every run at most one request is inside the lock, the first; the loop and each
    pushing task have exactly one request as long as they hold a packet; and unless nobody asks for the lock,
    whoever is first can go on.
  */
  lemma LockIsLive(states: seq<State>, steps: seq<Step>, i: nat, party: Party)
    requires IsRun(states, steps) && i < |states|
    ensures OneInside(states[i].lock) && Asking(states[i], party)
    ensures var s := states[i];
            s.lock != [] ==>
              && (s.lock[0].inside || Enabled(s, Enter))
              && var t := if s.lock[0].inside then s else Apply(s, Enter); Enabled(t, Push) || Enabled(t, Take)
  {
    LockIsKept(states, steps, i, Loop);
    if party.Client? {
      PlacesIff(states, steps, i, party.consumer);
    } else {
      LockIsKept(states, steps, i, party);
    }
    if states[i].lock != [] && !states[i].lock[0].who.Reader? {
      LockIsKept(states, steps, i, PartyOf(states[i].lock[0].who));
      FrontRequests(states[i].lock);
    }
  }
}
