/**
  The read loop of an HTTP/1.1 connection (`handle_h1_connection`, engine/src/lib.rs): reads are
  appended to a buffer, and an inner loop takes requests off its front.
*/
module Connection {
  import opened Wrappers
  import opened Bytes
  import opened Head
  import opened Http
  import Chunked

  /** "Transfer-Encoding: chunked", which the loop looks for anywhere in the buffer. */
  const MARKER: Bytes :=
    [84, 114, 97, 110, 115, 102, 101, 114, 45, 69, 110, 99, 111, 100, 105, 110, 103, 58, 32, 99, 104, 117, 110, 107, 101, 100]

  lemma MarkerIs()
    ensures MARKER == Ascii("Transfer-Encoding: chunked")
  {
  }

  /** The most one read brings in. */
  const READ_SIZE := 1024

  /** Who takes a request: the routes, the Socket.IO server with a response, or it upgrades the connection. */
  datatype Kind = Routed | Intercepted | Upgrading

  /** `kind` is the answer of `try_handle_socketio`. */
  datatype Config = Config(capacity: nat, threshold: nat, maxBody: nat, kind: Request -> Kind)

  // ----- the inner loop -----

  datatype Loop = Loop(buffer: Bytes, chunked: bool, requests: seq<Request>)

  /** One pass of the inner loop; `Overrun` is a drain past the end of the buffer, a panic. */
  datatype Pass =
    | Again(next: Loop)
    | Pause
    | Fail(error: ParseError)
    | Overrun

  /** A request joins the batch; a bare body piece joins the last request, or is dropped when there is none. */
  function Collect(requests: seq<Request>, r: Request): seq<Request> {
    if r.metadata.Some? then requests + [r]
    else if r.payload != [] && requests != [] then
      var last := |requests| - 1;
      requests[last := requests[last].(payload := requests[last].payload + r.payload)]
    else requests
  }

  function PassOf(s: Loop, maxBody: nat): Pass {
    if s.buffer == [] then Pause
    else
      var chunked := s.chunked || Contains(s.buffer, MARKER);
      match ParseHttp(s.buffer, chunked, maxBody)
      case Err(e) => Fail(e)
      case Ok(None) => Pause
      case Ok(Some((r, consumed))) =>
        if consumed > |s.buffer| then Overrun
        else Again(Loop(s.buffer[consumed..], chunked, Collect(s.requests, r)))
  }

  /** How the inner loop ends, if it does. */
  datatype Outcome =
    | Waiting(buffer: Bytes, requests: seq<Request>)
    | Failed(error: ParseError, requests: seq<Request>)
    | Panicked
    | Spinning(at: Loop)

  function Drain(s: Loop, maxBody: nat): Outcome
    decreases |s.buffer|
  {
    match PassOf(s, maxBody)
    case Pause => Waiting(s.buffer, s.requests)
    case Fail(e) => Failed(e, s.requests)
    case Overrun => Panicked
    case Again(t) => if |t.buffer| < |s.buffer| then Drain(t, maxBody) else Spinning(t)
  }

  /** `n` further passes, as long as there is one. */
  function Passes(pass: Loop -> Pass, s: Loop, n: nat): Pass {
    if n == 0 then Again(s)
    else
      match Passes(pass, s, n - 1)
      case Again(t) => pass(t)
      case end => end
  }

  lemma WalkWithoutProgress(next: Bytes -> Chunked.Next, b: Bytes)
    requires Chunked.Sane(next)
    ensures Chunked.Walk(next, b).Ok? && Chunked.Walk(next, b).value.1 == 0 <==> Chunked.Unusable(next(b))
    ensures Chunked.Unusable(next(b)) ==> Chunked.Walk(next, b) == Ok(([], 0))
  {
    assert Chunked.Bounded(b, next(b));
  }

  /** The chunk parser consumes nothing exactly when nothing at the front is usable. */
  lemma ChunksWithoutProgress(b: Bytes)
    ensures Chunked.DecodeChunks(b).Ok? && Chunked.DecodeChunks(b).value.1 == 0 <==> Chunked.Unusable(Chunked.NextAt(b))
    ensures Chunked.Unusable(Chunked.NextAt(b)) ==> Chunked.DecodeChunks(b) == Ok(([], 0))
  {
    Chunked.NextAtIsSane();
    WalkWithoutProgress(Chunked.NextAt, b);
  }

  /**
    A pass takes nothing exactly when, without a request line in front, the chunk flag is up and no
    chunk can be taken off the front; and then nothing changes.
  */
  lemma NoProgress(s: Loop, maxBody: nat)
    ensures var p, flag := PassOf(s, maxBody), s.chunked || Contains(s.buffer, MARKER);
            p.Again? && |p.next.buffer| == |s.buffer| <==>
            s.buffer != [] && RequestLineState(s.buffer) == Ok(false) && flag && Chunked.Unusable(Chunked.NextAt(s.buffer))
    ensures var p := PassOf(s, maxBody);
            p.Again? && |p.next.buffer| == |s.buffer| ==> p.next == Loop(s.buffer, true, s.requests) && PassOf(p.next, maxBody) == p
  {
    var flag := s.chunked || Contains(s.buffer, MARKER);
    var p := ParseHttp(s.buffer, flag, maxBody);
    if HeadBearing(p) {
      ParseIsStable(s.buffer, [], flag, flag, maxBody);
      HeadBearingMeans(s.buffer, flag, maxBody);
    } else {
      ChunksWithoutProgress(s.buffer);
    }
  }

  lemma {:induction false} PassesStay(pass: Loop -> Pass, at: Loop, n: nat)
    requires pass(at) == Again(at)
    ensures Passes(pass, at, n) == Again(at)
  {
    if n > 0 {
      PassesStay(pass, at, n - 1);
    }
  }

  lemma {:induction false} SpinsAtFixpoint(s: Loop, maxBody: nat)
    requires Drain(s, maxBody).Spinning?
    ensures PassOf(Drain(s, maxBody).at, maxBody) == Again(Drain(s, maxBody).at)
    decreases |s.buffer|
  {
    var t := PassOf(s, maxBody).next;
    if |t.buffer| < |s.buffer| {
      SpinsAtFixpoint(t, maxBody);
    } else {
      NoProgress(s, maxBody);
    }
  }

  /** `Spinning` is a loop that never ends: every later pass leads back to the same state. */
  lemma SpinsForever(s: Loop, maxBody: nat, n: nat)
    requires Drain(s, maxBody).Spinning?
    ensures Passes(t => PassOf(t, maxBody), Drain(s, maxBody).at, n) == Again(Drain(s, maxBody).at)
  {
    SpinsAtFixpoint(s, maxBody);
    PassesStay(t => PassOf(t, maxBody), Drain(s, maxBody).at, n);
  }

  /**
    With the chunk flag up and no request line in front, it is reached at once exactly when no chunk
    can be taken off the front: no line there, a line that is no size, or a frame that is not all there.
  */
  lemma SpinsAtUnusableFront(b: Bytes, requests: seq<Request>, maxBody: nat)
    requires b != [] && RequestLineState(b) == Ok(false)
    ensures Drain(Loop(b, true, requests), maxBody) == Spinning(Loop(b, true, requests)) <==>
            Chunked.Unusable(Chunked.NextAt(b))
  {
    var s := Loop(b, true, requests);
    NoProgress(s, maxBody);
    if PassOf(s, maxBody).Again? && |PassOf(s, maxBody).next.buffer| < |b| {
      SpinShrinks(PassOf(s, maxBody).next, maxBody);
    }
  }

  lemma {:induction false} SpinShrinks(s: Loop, maxBody: nat)
    ensures Drain(s, maxBody).Spinning? ==> |Drain(s, maxBody).at.buffer| <= |s.buffer|
    decreases |s.buffer|
  {
    var p := PassOf(s, maxBody);
    if p.Again? && |p.next.buffer| < |s.buffer| {
      SpinShrinks(p.next, maxBody);
    }
  }

  // ----- the outer loop -----

  /** A streamed request goes out without its body; what is forwarded reaches its handler through a channel. */
  datatype Event =
    | Dispatch(request: Request)
    | Upgrade(request: Request)
    | Reject(error: ParseError)
    | Overflow
    | Stream(metadata: Metadata)
    | Forward(bytes: Bytes)

  /** `Streaming`: that much of a body is still to be read; the last four are for good. */
  datatype Status = Open | Streaming(remaining: nat) | Closed | Upgraded | Dead | Hung

  datatype State = State(buffer: Bytes, events: seq<Event>, status: Status)

  const START := State([], [], Open)

  /** "exceeds maximum" in the error's text selects the status. */
  function StatusCode(e: ParseError): nat {
    if e.ContentLengthExceedsMaximum? || e.ChunkSizeExceedsMaximum? then 413 else 400
  }

  predicate Streams(c: Config, buffer: Bytes) {
    c.threshold > 0 &&
    match ParseHead(buffer, c.maxBody)
    case Ok(Some(h)) => !h.isChunked && h.contentLength > c.threshold
    case _ => false
  }

  function Dispatches(requests: seq<Request>): seq<Event> {
    seq(|requests|, i requires 0 <= i < |requests| => Dispatch(requests[i]))
  }

  /** What one read does to the connection. */
  function Feed(c: Config, s: State, read: Bytes): State {
    match s.status
    case Open =>
      var buffer := s.buffer + read;
      if |buffer| > c.capacity then State(buffer, s.events + [Overflow], Closed)
      else if Streams(c, buffer) then BeginStream(c, s.events, buffer)
      else Settle(c.kind, s.events, Drain(Loop(buffer, Contains(buffer, MARKER), []), c.maxBody))
    case Streaming(remaining) => Pump(s, read, remaining)
    case _ => s
  }

  function StreamStatus(remaining: nat): Status {
    if remaining == 0 then Open else Streaming(remaining)
  }

  /** All that is buffered behind the head is forwarded, even what goes beyond the body. */
  function BeginStream(c: Config, events: seq<Event>, buffer: Bytes): State
    requires Streams(c, buffer)
  {
    var head := ParseHead(buffer, c.maxBody).value.value;
    var already := if head.bodyStart <= |buffer| then buffer[head.bodyStart..] else [];
    State([], events + [Stream(head.metadata)] + (if already == [] then [] else [Forward(already)]),
          StreamStatus(if |already| < head.contentLength then head.contentLength - |already| else 0))
  }

  /** Of a later read, what goes beyond the body is dropped. */
  function Pump(s: State, read: Bytes, remaining: nat): State {
    var take := if |read| < remaining then |read| else remaining;
    s.(events := s.events + [Forward(read[..take])], status := StreamStatus(remaining - take))
  }

  /** The batch is handed out in order, up to a request that upgrades the connection. */
  function HandOut(kind: Request -> Kind, s: State, requests: seq<Request>): State
    decreases |requests|
  {
    if requests == [] then s
    else if kind(requests[0]).Upgrading? then s.(events := s.events + [Upgrade(requests[0])], status := Upgraded)
    else HandOut(kind, s.(events := s.events + [Dispatch(requests[0])]), requests[1..])
  }

  /** The batch is handed out after the inner loop, so behind an error response. */
  function Settle(kind: Request -> Kind, events: seq<Event>, o: Outcome): State {
    match o
    case Waiting(rest, requests) => HandOut(kind, State(rest, events, Open), requests)
    case Failed(e, requests) => HandOut(kind, State([], events + [Reject(e)], Open), requests)
    case Panicked => State([], events, Dead)
    case Spinning(at) => State(at.buffer, events, Hung)
  }

  predicate NoUpgrade(kind: Request -> Kind, requests: seq<Request>) {
    forall r <- requests :: !kind(r).Upgrading?
  }

  /** Without an upgrade, every request of the batch is dispatched, in order. */
  lemma {:induction false} HandOutAll(kind: Request -> Kind, s: State, requests: seq<Request>)
    requires NoUpgrade(kind, requests)
    ensures HandOut(kind, s, requests) == s.(events := s.events + Dispatches(requests))
    decreases |requests|
  {
    if requests == [] {
      assert s.events + Dispatches(requests) == s.events;
    } else {
      assert requests[0] in requests && forall r <- requests[1..] :: r in requests;
      HandOutAll(kind, s.(events := s.events + [Dispatch(requests[0])]), requests[1..]);
      assert s.events + [Dispatch(requests[0])] + Dispatches(requests[1..]) == s.events + Dispatches(requests);
    }
  }

  /** Behind an upgrade the rest of the batch is dropped, whatever it holds. */
  lemma {:induction false} UpgradeDropsRest(kind: Request -> Kind, s: State, before: seq<Request>, r: Request, behind: seq<Request>)
    requires NoUpgrade(kind, before) && kind(r).Upgrading?
    ensures HandOut(kind, s, before + [r] + behind) ==
            s.(events := s.events + Dispatches(before) + [Upgrade(r)], status := Upgraded)
    decreases |before|
  {
    var all := before + [r] + behind;
    if before == [] {
      assert all[0] == r && s.events + Dispatches(before) == s.events;
    } else {
      assert before[0] in before && forall q <- before[1..] :: q in before;
      assert all[0] == before[0] && all[1..] == before[1..] + [r] + behind;
      UpgradeDropsRest(kind, s.(events := s.events + [Dispatch(before[0])]), before[1..], r, behind);
      assert s.events + [Dispatch(before[0])] + Dispatches(before[1..]) == s.events + Dispatches(before);
    }
  }

  function Run(c: Config, arrivals: seq<Bytes>): State {
    if arrivals == [] then START else Feed(c, Run(c, arrivals[..|arrivals| - 1]), arrivals[|arrivals| - 1])
  }

  // ----- limits and ends -----

  lemma {:induction false} DrainShrinks(s: Loop, maxBody: nat)
    ensures Drain(s, maxBody).Waiting? ==> |Drain(s, maxBody).buffer| <= |s.buffer|
    decreases |s.buffer|
  {
    var p := PassOf(s, maxBody);
    if p.Again? && |p.next.buffer| < |s.buffer| {
      DrainShrinks(p.next, maxBody);
    }
  }

  lemma {:induction false} HandOutKeeps(kind: Request -> Kind, s: State, requests: seq<Request>)
    requires s.status == Open
    ensures HandOut(kind, s, requests).buffer == s.buffer && s.events <= HandOut(kind, s, requests).events
    ensures HandOut(kind, s, requests).status in {Open, Upgraded}
    decreases |requests|
  {
    if requests != [] && !kind(requests[0]).Upgrading? {
      HandOutKeeps(kind, s.(events := s.events + [Dispatch(requests[0])]), requests[1..]);
    }
  }

  /** A buffer beyond the capacity, and nothing else, closes the connection: with one answer, and nothing more goes out. */
  lemma OverflowIff(c: Config, s: State, read: Bytes)
    requires s.status == Open
    ensures Feed(c, s, read).status == Closed <==> |s.buffer| + |read| > c.capacity
    ensures |s.buffer| + |read| > c.capacity ==> Feed(c, s, read).events == s.events + [Overflow]
    ensures Feed(c, s, read).status == Open ==> |Feed(c, s, read).buffer| <= c.capacity
  {
    var buffer := s.buffer + read;
    var o := Drain(Loop(buffer, Contains(buffer, MARKER), []), c.maxBody);
    DrainShrinks(Loop(buffer, Contains(buffer, MARKER), []), c.maxBody);
    match o
    case Waiting(rest, requests) => HandOutKeeps(c.kind, State(rest, s.events, Open), requests);
    case Failed(e, requests) => HandOutKeeps(c.kind, State([], s.events + [Reject(e)], Open), requests);
    case _ =>
  }

  predicate Over(s: State) {
    s.status == Closed || s.status == Upgraded || s.status == Dead || s.status == Hung
  }

  /**
    Whatever is read: while the connection is open its buffer keeps the capacity, while it streams the buffer
    is empty, what has gone out stays, and once the connection is over nothing changes.
  */
  lemma {:induction false} RunIsBounded(c: Config, arrivals: seq<Bytes>)
    ensures Run(c, arrivals).status == Open ==> |Run(c, arrivals).buffer| <= c.capacity
    ensures Run(c, arrivals).status.Streaming? ==> Run(c, arrivals).buffer == [] && Run(c, arrivals).status.remaining > 0
    ensures forall n | 0 <= n <= |arrivals| :: Over(Run(c, arrivals[..n])) ==> Run(c, arrivals) == Run(c, arrivals[..n])
  {
    if arrivals == [] {
      assert arrivals[..0] == [];
    } else {
      var init, last := arrivals[..|arrivals| - 1], arrivals[|arrivals| - 1];
      RunIsBounded(c, init);
      var s := Run(c, init);
      if s.status == Open {
        OverflowIff(c, s, last);
        StreamsEmptied(c, s, last);
      }
      forall n | 0 <= n <= |arrivals| && Over(Run(c, arrivals[..n])) ensures Run(c, arrivals) == Run(c, arrivals[..n]) {
        if n == |arrivals| {
          assert arrivals[..n] == arrivals;
        } else {
          assert init[..n] == arrivals[..n];
        }
      }
    }
  }

  lemma StreamsEmptied(c: Config, s: State, read: Bytes)
    requires s.status == Open
    ensures Feed(c, s, read).status.Streaming? ==> Feed(c, s, read).buffer == [] && Feed(c, s, read).status.remaining > 0
  {
    var buffer := s.buffer + read;
    var o := Drain(Loop(buffer, Contains(buffer, MARKER), []), c.maxBody);
    match o
    case Waiting(rest, requests) => HandOutKeeps(c.kind, State(rest, s.events, Open), requests);
    case Failed(e, requests) => HandOutKeeps(c.kind, State([], s.events + [Reject(e)], Open), requests);
    case _ =>
  }

  /** The connection as the source keeps it: a buffer that is extended and drained in place. */
  class H1Connection {
    const config: Config
    var buffer: Bytes
    var events: seq<Event>
    var status: Status

    constructor (config: Config)
      ensures this.config == config && Now() == START
    {
      this.config := config;
      buffer, events, status := [], [], Open;
    }

    function Now(): State
      reads this
    {
      State(buffer, events, status)
    }

    /** One turn of the outer loop: what was read is appended, then streamed, or parsed and dispatched. */
    method OnRead(read: Bytes)
      requires status == Open
      modifies this
      ensures Now() == Feed(config, old(Now()), read)
    {
      buffer := buffer + read;
      if |buffer| > config.capacity {
        events, status := events + [Overflow], Closed;
        return;
      }
      if Streams(config, buffer) {
        OnStream();
        return;
      }
      var requests := TakeRequests();
      if status == Open {
        HandOutBatch(requests);
      }
    }

    /** The head of a streamed request is dispatched, and what is there of its body forwarded. */
    method OnStream()
      requires status == Open && Streams(config, buffer)
      modifies this
      ensures Now() == BeginStream(config, old(events), old(buffer))
    {
      var head := ParseHead(buffer, config.maxBody).value.value;
      events := events + [Stream(head.metadata)];
      var already := if head.bodyStart <= |buffer| then |buffer| - head.bodyStart else 0;
      if already > 0 {
        events := events + [Forward(buffer[head.bodyStart..])];
      }
      var remaining := if already < head.contentLength then head.contentLength - already else 0;
      buffer, status := [], StreamStatus(remaining);
    }

    /** A read while a body is being streamed. */
    method OnStreamedRead(read: Bytes)
      requires status.Streaming?
      modifies this
      ensures Now() == Feed(config, old(Now()), read)
    {
      var take := if |read| < status.remaining then |read| else status.remaining;
      events := events + [Forward(read[..take])];
      status := StreamStatus(status.remaining - take);
    }

    /** The inner loop; a pass that leaves everything as it was is reported instead of repeated. */
    method TakeRequests() returns (requests: seq<Request>)
      requires status == Open
      modifies this
      ensures var o := Drain(Loop(old(buffer), Contains(old(buffer), MARKER), []), config.maxBody);
              match o
              case Waiting(rest, batch) => Now() == State(rest, old(events), Open) && requests == batch
              case Failed(e, batch) => Now() == State([], old(events) + [Reject(e)], Open) && requests == batch
              case Panicked => Now() == State([], old(events), Dead)
              case Spinning(at) => Now() == State(at.buffer, old(events), Hung)
    {
      var chunked := Contains(buffer, MARKER);
      requests := [];
      while buffer != []
        invariant status == Open && events == old(events)
        invariant Drain(Loop(buffer, chunked, requests), config.maxBody) ==
                  Drain(Loop(old(buffer), Contains(old(buffer), MARKER), []), config.maxBody)
        decreases |buffer|
      {
        if !chunked {
          chunked := Contains(buffer, MARKER);
        }
        match ParseHttp(buffer, chunked, config.maxBody)
        case Ok(None) =>
          break;
        case Err(e) =>
          events, buffer := events + [Reject(e)], [];
          break;
        case Ok(Some((parsed, consumed))) =>
          requests := Collect(requests, parsed);
          if consumed > |buffer| {
            status, buffer := Dead, [];
            break;
          }
          if consumed == 0 {
            status := Hung;
            break;
          }
          buffer := buffer[consumed..];
      }
    }

    method HandOutBatch(requests: seq<Request>)
      requires status == Open
      modifies this`events, this`status
      ensures Now() == HandOut(config.kind, old(Now()), requests)
    {
      for i := 0 to |requests|
        invariant status == Open
        invariant HandOut(config.kind, Now(), requests[i..]) == HandOut(config.kind, old(Now()), requests)
      {
        assert requests[i..][0] == requests[i] && requests[i..][1..] == requests[i + 1..];
        if config.kind(requests[i]).Upgrading? {
          events, status := events + [Upgrade(requests[i])], Upgraded;
          return;
        }
        events := events + [Dispatch(requests[i])];
      }
    }
  }
}
