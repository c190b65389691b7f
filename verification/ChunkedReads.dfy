/**
  A chunked request brought in by several reads: exactly when it comes out whole.
*/
module ChunkedReads {
  import opened Wrappers
  import opened Bytes
  import opened Head
  import opened Http
  import opened Connection
  import opened Framing
  import opened Chunked
  import opened ChunkedFraming

  /** A chunked request, and a connection whose limits it keeps. */
  ghost predicate Suits(c: Config, head: Bytes, frames: seq<Frame>, last: Frame) {
    && AnnouncesChunks(head, c.maxBody) && PlainBody(frames, last)
    && !Contains(EncodeBody(frames, last), MARKER)
    && !Streams(c, head) && |head| + |EncodeBody(frames, last)| <= c.capacity
    && !c.kind(WholeRequest(c, head, frames)).Upgrading?
  }

  function WholeRequest(c: Config, head: Bytes, frames: seq<Frame>): Request
    requires AnnouncesChunks(head, c.maxBody)
  {
    With(HeadRequest(head, c.maxBody), DataOf(frames))
  }

  lemma NeverStreams(c: Config, head: Bytes, frames: seq<Frame>, last: Frame, k: nat)
    requires Suits(c, head, frames, last) && k <= |head| + |EncodeBody(frames, last)|
    ensures !Streams(c, (head + EncodeBody(frames, last))[..k])
  {
    var b := head + EncodeBody(frames, last);
    assert b[..|head|] == head;
    HeadBearingMeans(head, true, c.maxBody);
    HeadInPrefix(b, |head|, c.maxBody);
    HeadInPrefix(b, k, c.maxBody);
  }

  /** The first `i` reads bring in a prefix of it all. */
  lemma {:induction false} ConcatPrefix(arrivals: seq<Bytes>, i: nat)
    requires i <= |arrivals|
    ensures |Concat(arrivals[..i])| <= |Concat(arrivals)|
    ensures Concat(arrivals[..i]) == Concat(arrivals)[..|Concat(arrivals[..i])|]
    decreases |arrivals|
  {
    if i == |arrivals| {
      assert arrivals[..i] == arrivals;
    } else {
      assert arrivals[..|arrivals| - 1][..i] == arrivals[..i];
      ConcatPrefix(arrivals[..|arrivals| - 1], i);
    }
  }

  /** The state that a whole request, and nothing else, leaves behind. */
  function Clean(whole: Request): State {
    State([], [Dispatch(whole)], Open)
  }

  /** Something else has gone out, or the connection is past dispatching anything. */
  predicate Spoiled(s: State, whole: Request) {
    || (s.events != [] && (s.events[0] != Dispatch(whole) || |s.events| >= 2))
    || (s.status != Open && !s.status.Streaming?)
  }

  lemma {:induction false} HandOutGrows(kind: Request -> Kind, s: State, requests: seq<Request>)
    ensures s.events <= HandOut(kind, s, requests).events
    decreases |requests|
  {
    if requests != [] && !kind(requests[0]).Upgrading? {
      HandOutGrows(kind, s.(events := s.events + [Dispatch(requests[0])]), requests[1..]);
    }
  }

  lemma FeedGrows(c: Config, s: State, read: Bytes)
    ensures s.events <= Feed(c, s, read).events
    ensures s.status != Open && !s.status.Streaming? ==> Feed(c, s, read) == s
  {
    if s.status == Open {
      var buffer := s.buffer + read;
      var o := Drain(Loop(buffer, Contains(buffer, MARKER), []), c.maxBody);
      match o
      case Waiting(rest, requests) => HandOutGrows(c.kind, State(rest, s.events, Open), requests);
      case Failed(e, requests) => HandOutGrows(c.kind, State([], s.events + [Reject(e)], Open), requests);
      case _ =>
    }
  }

  lemma CutSpoils(kind: Request -> Kind, frames: seq<Frame>, last: Frame, k: nat, r: Request)
    requires PlainBody(frames, last) && k < |EncodeBody(frames, last)|
    ensures var s, whole := Settle(kind, [], CutEnding(frames, last, k, [], r)), With(r, DataOf(frames));
            Spoiled(s, whole) || (s == Clean(whole) && DataComplete(frames, last, k))
  {
    CutEndingIff(frames, last, k, r);
    var got := With(r, DataOf(frames[..WholeFrames(frames, k)]));
    assert [] + [got] == [got];
    HandOutOne(kind, State([], [], Open), got);
  }

  /** A read that ends where it should not spoils the connection, unless all but the last chunk is there. */
  lemma BadReadSpoils(c: Config, head: Bytes, frames: seq<Frame>, last: Frame, k: nat, flag: bool)
    requires AnnouncesChunks(head, c.maxBody) && PlainBody(frames, last)
    requires 0 < k < |head| + |EncodeBody(frames, last)| && !(LineEnd(head) <= k < |head|)
    ensures var s := Settle(c.kind, [], ChunkedEnding(head, frames, last, k, flag, [], c.maxBody));
            var whole := WholeRequest(c, head, frames);
            Spoiled(s, whole) || (s == Clean(whole) && k >= |head| && DataComplete(frames, last, k - |head|))
  {
    if k >= |head| {
      CutSpoils(c.kind, frames, last, k - |head|, HeadRequest(head, c.maxBody));
    } else {
      assert [] + [Reject(RequestLineMalformed)] == [Reject(RequestLineMalformed)];
    }
  }

  lemma HandOutOne(kind: Request -> Kind, s: State, r: Request)
    ensures HandOut(kind, s, [r]) ==
            if kind(r).Upgrading? then s.(events := s.events + [Upgrade(r)], status := Upgraded)
            else s.(events := s.events + [Dispatch(r)])
  {
    assert [r][1..] == [];
  }

  lemma PartOfLast(frames: seq<Frame>, last: Frame, k: nat, n: nat)
    requires k < k + n <= |EncodeBody(frames, last)| && DataComplete(frames, last, k)
    ensures n <= |EncodeFrame(last)| && EncodeBody(frames, last)[k..k + n] == EncodeFrame(last)[..n]
  {
    LastIsLeft(frames, last, k);
    assert EncodeBody(frames, last)[k..][..n] == EncodeBody(frames, last)[k..k + n];
  }

  lemma RefusedPart(c: Config, s: State, last: Frame, more: Bytes)
    requires s.status == Open && s.buffer == [] && |more| <= c.capacity && !Contains(more, MARKER)
    requires Chunked.WellFormed(last) && PlainLine(last) && more != [] && |more| <= |EncodeFrame(last)| && more == EncodeFrame(last)[..|more|]
    ensures Feed(c, s, more) == State([], s.events + [Reject(RequestLineMalformed)], Open)
  {
    assert EncodeFrame(last) + [] == EncodeFrame(last);
    NoRequestLine(last, [], |more|);
    assert s.buffer + more == more;
    OneRead(c, s, more, more, Failed(RequestLineMalformed, []));
  }

  /** What is left when all the data has gone out is the last chunk, and any part of it is refused. */
  lemma LastChunkRefused(c: Config, frames: seq<Frame>, last: Frame, body: Bytes, k: nat, more: Bytes, whole: Request)
    requires PlainBody(frames, last) && body == EncodeBody(frames, last) && |body| <= c.capacity
    requires more != [] && k + |more| <= |body| && more == body[k..k + |more|]
    requires DataComplete(frames, last, k) && !Contains(body, MARKER)
    ensures Spoiled(Feed(c, Clean(whole), more), whole)
  {
    PartOfLast(frames, last, k, |more|);
    assert body == body[..k] + more + body[k + |more|..];
    NoMarkerInside(body[..k], more, body[k + |more|..]);
    PartSpoils(c, last, more, whole);
  }

  lemma PartSpoils(c: Config, last: Frame, more: Bytes, whole: Request)
    requires |more| <= c.capacity && !Contains(more, MARKER)
    requires Chunked.WellFormed(last) && PlainLine(last) && more != [] && |more| <= |EncodeFrame(last)| && more == EncodeFrame(last)[..|more|]
    ensures Spoiled(Feed(c, Clean(whole), more), whole)
  {
    RefusedPart(c, Clean(whole), last, more);
    assert [Dispatch(whole)] + [Reject(RequestLineMalformed)] == [Dispatch(whole), Reject(RequestLineMalformed)];
  }

  lemma {:induction false} LastIsLeft(frames: seq<Frame>, last: Frame, k: nat)
    requires k < |EncodeBody(frames, last)| && DataComplete(frames, last, k)
    ensures EncodeBody(frames, last)[k..] == EncodeFrame(last)
    decreases frames
  {
    if frames != [] {
      var n := |EncodeFrame(frames[0])|;
      BegunIsPart(frames, last, k);
      assert EncodeBody(frames, last)[n..] == EncodeBody(frames[1..], last);
      LastIsLeft(frames[1..], last, k - n);
      assert EncodeBody(frames, last)[n..][k - n..] == EncodeBody(frames, last)[k..];
    } else {
      BegunIsPart(frames, last, k);
    }
  }

  lemma NoMarkerInside(a: Bytes, b: Bytes, d: Bytes)
    requires !Contains(a + b + d, MARKER)
    ensures !Contains(b, MARKER)
  {
    FindIsFirst(b, MARKER);
    if Contains(b, MARKER) {
      var i := Find(b, MARKER).value;
      var whole := a + b + d;
      assert whole[|a| + i..|a| + i + |MARKER|] == b[i..i + |MARKER|];
      assert At(whole, |a| + i, MARKER);
      FindIsFirst(whole, MARKER);
    }
  }

  // The reads, seen from outside: how a read goes on, and where the `k`-th byte leads.

  type Ender = nat -> State

  /** After `k` bytes, as long as none but the head has arrived. */
  function Awaiting(b: Bytes, k: nat): State
    requires k <= |b|
  {
    State(b[..k], [], Open)
  }

  /** A read from a point where the connection waits leads to where its end leads. */
  ghost predicate ReadsOn(feed: Feeder, b: Bytes, ending: Ender, lineEnd: nat, headEnd: nat, j: nat, k: nat) {
    (j == 0 || lineEnd <= j < headEnd) && j < k <= |b| ==> feed(Awaiting(b, j), b[j..k]) == ending(k)
  }

  /** Where the reads may end. */
  ghost predicate WaitsAt(b: Bytes, ending: Ender, lineEnd: nat, headEnd: nat, k: nat) {
    lineEnd <= k < headEnd && k <= |b| ==> ending(k) == Awaiting(b, k)
  }

  /** Where they may not, and what then happens. */
  ghost predicate SpoilsAt(feed: Feeder, b: Bytes, ending: Ender, lineEnd: nat, headEnd: nat, whole: Request, k: nat) {
    0 < k < |b| && !(lineEnd <= k < headEnd) ==>
      Spoiled(ending(k), whole) ||
      (ending(k) == Clean(whole) && forall n | k < n <= |b| :: Spoiled(feed(Clean(whole), b[k..n]), whole))
  }

  ghost predicate StaysSpoiled(feed: Feeder, whole: Request, s: State, read: Bytes) {
    Spoiled(s, whole) ==> Spoiled(feed(s, read), whole)
  }

  ghost predicate Lawful(feed: Feeder, b: Bytes, ending: Ender, lineEnd: nat, headEnd: nat, whole: Request) {
    && 0 < headEnd <= |b|
    && ending(|b|) == Clean(whole)
    && (forall j: nat, k: nat :: ReadsOn(feed, b, ending, lineEnd, headEnd, j, k))
    && (forall k: nat :: WaitsAt(b, ending, lineEnd, headEnd, k))
    && (forall k: nat :: SpoilsAt(feed, b, ending, lineEnd, headEnd, whole, k))
    && (forall s, read :: StaysSpoiled(feed, whole, s, read))
  }

  /** The positions at which the reads end, and the states they lead to. */
  ghost predicate Trace(feed: Feeder, b: Bytes, ends: seq<nat>, states: seq<State>) {
    && |ends| == |states| > 0 && ends[0] == 0 && ends[|ends| - 1] == |b| && states[0] == START
    && forall i | 0 < i < |ends| :: ends[i - 1] < ends[i] <= |b| && states[i] == feed(states[i - 1], b[ends[i - 1]..ends[i]])
  }

  predicate GoodCuts(ends: seq<nat>, n: nat, lineEnd: nat, headEnd: nat)
    requires n <= |ends|
  {
    forall i | 0 < i < n :: lineEnd <= ends[i] < headEnd
  }

  /** As long as the reads end in the head, behind the request line, the connection waits for more. */
  lemma {:induction false} AwaitingSoFar(feed: Feeder, b: Bytes, ending: Ender, lineEnd: nat, headEnd: nat, whole: Request, ends: seq<nat>, states: seq<State>, i: nat)
    requires Lawful(feed, b, ending, lineEnd, headEnd, whole) && Trace(feed, b, ends, states)
    requires i < |ends| && GoodCuts(ends, i + 1, lineEnd, headEnd)
    ensures ends[i] <= |b| && states[i] == Awaiting(b, ends[i])
  {
    if i == 0 {
      assert b[..0] == [];
    } else {
      AwaitingSoFar(feed, b, ending, lineEnd, headEnd, whole, ends, states, i - 1);
      assert ReadsOn(feed, b, ending, lineEnd, headEnd, ends[i - 1], ends[i]);
      assert WaitsAt(b, ending, lineEnd, headEnd, ends[i]);
    }
  }

  lemma {:induction false} SpoiledStays(feed: Feeder, b: Bytes, whole: Request, ends: seq<nat>, states: seq<State>, i: nat, j: nat)
    requires Trace(feed, b, ends, states) && i <= j < |states| && Spoiled(states[i], whole)
    requires forall s, read :: StaysSpoiled(feed, whole, s, read)
    ensures Spoiled(states[j], whole)
  {
    if i < j {
      SpoiledStays(feed, b, whole, ends, states, i, j - 1);
      assert StaysSpoiled(feed, whole, states[j - 1], b[ends[j - 1]..ends[j]]);
    }
  }

  /** The first read that ends where it should not. */
  lemma {:induction false} FirstBad(ends: seq<nat>, lineEnd: nat, headEnd: nat, n: nat) returns (i: nat)
    requires n <= |ends| && !GoodCuts(ends, n, lineEnd, headEnd)
    ensures 0 < i < n && !(lineEnd <= ends[i] < headEnd) && GoodCuts(ends, i, lineEnd, headEnd)
  {
    if GoodCuts(ends, n - 1, lineEnd, headEnd) {
      i := n - 1;
    } else {
      i := FirstBad(ends, lineEnd, headEnd, n - 1);
    }
  }

  lemma BadCutSpoils(feed: Feeder, b: Bytes, ending: Ender, lineEnd: nat, headEnd: nat, whole: Request, ends: seq<nat>, states: seq<State>, i: nat)
    requires Lawful(feed, b, ending, lineEnd, headEnd, whole) && Trace(feed, b, ends, states)
    requires 0 < i < |ends| - 1 && GoodCuts(ends, i, lineEnd, headEnd) && !(lineEnd <= ends[i] < headEnd)
    ensures Spoiled(states[|states| - 1], whole)
  {
    AwaitingSoFar(feed, b, ending, lineEnd, headEnd, whole, ends, states, i - 1);
    assert ReadsOn(feed, b, ending, lineEnd, headEnd, ends[i - 1], ends[i]);
    assert SpoilsAt(feed, b, ending, lineEnd, headEnd, whole, ends[i]);
    if Spoiled(ending(ends[i]), whole) {
      SpoiledStays(feed, b, whole, ends, states, i, |states| - 1);
    } else {
      SpoiledStays(feed, b, whole, ends, states, i + 1, |states| - 1);
    }
  }

  lemma CleanIff(feed: Feeder, b: Bytes, ending: Ender, lineEnd: nat, headEnd: nat, whole: Request, ends: seq<nat>, states: seq<State>)
    requires Lawful(feed, b, ending, lineEnd, headEnd, whole) && Trace(feed, b, ends, states)
    ensures states[|states| - 1] == Clean(whole) <==> GoodCuts(ends, |ends| - 1, lineEnd, headEnd)
  {
    var n := |ends| - 1;
    if GoodCuts(ends, n, lineEnd, headEnd) {
      AwaitingSoFar(feed, b, ending, lineEnd, headEnd, whole, ends, states, n - 1);
      assert ReadsOn(feed, b, ending, lineEnd, headEnd, ends[n - 1], ends[n]);
    } else {
      var i := FirstBad(ends, lineEnd, headEnd, n);
      BadCutSpoils(feed, b, ending, lineEnd, headEnd, whole, ends, states, i);
    }
  }

  // and now for the connection

  /** Where the first `k` bytes of a chunked request lead. */
  ghost function EndingState(c: Config, head: Bytes, frames: seq<Frame>, last: Frame, k: nat): State
    requires AnnouncesChunks(head, c.maxBody)
  {
    var b := head + EncodeBody(frames, last);
    if k > |b| then START
    else Settle(c.kind, [], ChunkedEnding(head, frames, last, k, Contains(b[..k], MARKER), [], c.maxBody))
  }

  lemma ConnectionReadsOn(c: Config, head: Bytes, frames: seq<Frame>, last: Frame, j: nat, k: nat)
    requires Suits(c, head, frames, last) && j < k <= |head| + |EncodeBody(frames, last)|
    ensures Feed(c, Awaiting(head + EncodeBody(frames, last), j), (head + EncodeBody(frames, last))[j..k]) ==
            EndingState(c, head, frames, last, k)
  {
    var b := head + EncodeBody(frames, last);
    CutLeadsTo(c, head, frames, last, k, b[..k]);
    assert b[..j] + b[j..k] == b[..k];
    OneRead(c, Awaiting(b, j), b[j..k], b[..k], Drain(Loop(b[..k], Contains(b[..k], MARKER), []), c.maxBody));
  }

  lemma CutLeadsTo(c: Config, head: Bytes, frames: seq<Frame>, last: Frame, k: nat, front: Bytes)
    requires Suits(c, head, frames, last) && k <= |head| + |EncodeBody(frames, last)| && front == (head + EncodeBody(frames, last))[..k]
    ensures |front| <= c.capacity && !Streams(c, front)
    ensures Settle(c.kind, [], Drain(Loop(front, Contains(front, MARKER), []), c.maxBody)) == EndingState(c, head, frames, last, k)
  {
    NeverStreams(c, head, frames, last, k);
    DrainAnyCut(head, frames, last, k, Contains(front, MARKER), [], c.maxBody);
  }

  ghost function EnderOf(c: Config, head: Bytes, frames: seq<Frame>, last: Frame): Ender
    requires AnnouncesChunks(head, c.maxBody)
  {
    (k: nat) => EndingState(c, head, frames, last, k)
  }

  lemma BadEnd(c: Config, head: Bytes, frames: seq<Frame>, last: Frame, k: nat)
    requires Suits(c, head, frames, last) && 0 < k < |head| + |EncodeBody(frames, last)| && !(LineEnd(head) <= k < |head|)
    ensures var s, whole := EndingState(c, head, frames, last, k), WholeRequest(c, head, frames);
            Spoiled(s, whole) || (s == Clean(whole) && k >= |head| && DataComplete(frames, last, k - |head|))
  {
    BadReadSpoils(c, head, frames, last, k, Contains((head + EncodeBody(frames, last))[..k], MARKER));
  }

  lemma BehindHead(head: Bytes, body: Bytes, k: nat, n: nat)
    requires |head| <= k <= n <= |head| + |body|
    ensures (head + body)[k..n] == body[k - |head|..n - |head|]
  {
  }

  /** Nor does the last chunk, in whatever read, leave the connection as it was. */
  lemma LastChunkSpoils(c: Config, head: Bytes, body: Bytes, frames: seq<Frame>, last: Frame, b: Bytes, k: nat, whole: Request)
    requires PlainBody(frames, last) && body == EncodeBody(frames, last) && |body| <= c.capacity && !Contains(body, MARKER)
    requires b == head + body && |head| <= k < |b| && DataComplete(frames, last, k - |head|)
    ensures forall n | k < n <= |b| :: Spoiled(FeederOf(c)(Clean(whole), b[k..n]), whole)
  {
    forall n | k < n <= |b| ensures Spoiled(FeederOf(c)(Clean(whole), b[k..n]), whole) {
      BehindHead(head, body, k, n);
      LastChunkRefused(c, frames, last, body, k - |head|, b[k..n], whole);
    }
  }

  lemma ConnectionSpoils(c: Config, head: Bytes, frames: seq<Frame>, last: Frame, k: nat)
    requires Suits(c, head, frames, last)
    ensures SpoilsAt(FeederOf(c), head + EncodeBody(frames, last), EnderOf(c, head, frames, last), LineEnd(head), |head|,
                     WholeRequest(c, head, frames), k)
  {
    var b, whole := head + EncodeBody(frames, last), WholeRequest(c, head, frames);
    if 0 < k < |b| && !(LineEnd(head) <= k < |head|) {
      BadEnd(c, head, frames, last, k);
      if !Spoiled(EndingState(c, head, frames, last, k), whole) {
        LastChunkSpoils(c, head, EncodeBody(frames, last), frames, last, b, k, whole);
      }
    }
  }

  lemma ConnectionWaits(c: Config, head: Bytes, frames: seq<Frame>, last: Frame, k: nat)
    requires Suits(c, head, frames, last)
    ensures WaitsAt(head + EncodeBody(frames, last), EnderOf(c, head, frames, last), LineEnd(head), |head|, k)
  {
    if k <= |head| {
      assert (head + EncodeBody(frames, last))[..k] == head[..k];
    }
  }

  lemma ConnectionStaysSpoiled(c: Config, whole: Request, s: State, read: Bytes)
    ensures StaysSpoiled(FeederOf(c), whole, s, read)
  {
    FeedGrows(c, s, read);
  }

  lemma WholeEnding(c: Config, head: Bytes, frames: seq<Frame>, last: Frame, k: nat, flag: bool)
    requires AnnouncesChunks(head, c.maxBody) && k == |head| + |EncodeBody(frames, last)| > 0
    ensures ChunkedEnding(head, frames, last, k, flag, [], c.maxBody) == Waiting([], [WholeRequest(c, head, frames)])
  {
    CutEndingWhole(frames, last, [], HeadRequest(head, c.maxBody));
    assert [] + [WholeRequest(c, head, frames)] == [WholeRequest(c, head, frames)];
  }

  lemma SettleOne(kind: Request -> Kind, r: Request)
    requires !kind(r).Upgrading?
    ensures Settle(kind, [], Waiting([], [r])) == Clean(r)
  {
    HandOutOne(kind, State([], [], Open), r);
    assert [] + [Dispatch(r)] == [Dispatch(r)];
  }

  lemma WholeIsClean(c: Config, head: Bytes, frames: seq<Frame>, last: Frame)
    requires Suits(c, head, frames, last)
    ensures EndingState(c, head, frames, last, |head + EncodeBody(frames, last)|) == Clean(WholeRequest(c, head, frames))
  {
    var b := head + EncodeBody(frames, last);
    HeadIsSome(head, c.maxBody);
    WholeEnding(c, head, frames, last, |b|, Contains(b[..|b|], MARKER));
    SettleOne(c.kind, WholeRequest(c, head, frames));
  }

  lemma ConnectionIsLawful(c: Config, head: Bytes, frames: seq<Frame>, last: Frame)
    requires Suits(c, head, frames, last)
    ensures Lawful(FeederOf(c), head + EncodeBody(frames, last), EnderOf(c, head, frames, last), LineEnd(head), |head|,
                   WholeRequest(c, head, frames))
  {
    var feed, b, ending := FeederOf(c), head + EncodeBody(frames, last), EnderOf(c, head, frames, last);
    HeadIsSome(head, c.maxBody);
    WholeIsClean(c, head, frames, last);
    forall j: nat, k: nat ensures ReadsOn(feed, b, ending, LineEnd(head), |head|, j, k) {
      if (j == 0 || LineEnd(head) <= j < |head|) && j < k <= |b| { ConnectionReadsOn(c, head, frames, last, j, k); }
    }
    forall k: nat ensures WaitsAt(b, ending, LineEnd(head), |head|, k) && SpoilsAt(feed, b, ending, LineEnd(head), |head|, WholeRequest(c, head, frames), k) {
      ConnectionWaits(c, head, frames, last, k);
      ConnectionSpoils(c, head, frames, last, k);
    }
    forall s, read ensures StaysSpoiled(feed, WholeRequest(c, head, frames), s, read) {
      ConnectionStaysSpoiled(c, WholeRequest(c, head, frames), s, read);
    }
  }

  /** The reads of a connection, as such a trace. */
  function EndsOf(arrivals: seq<Bytes>): (ends: seq<nat>)
    ensures |ends| == |arrivals| + 1 && forall i :: 0 <= i <= |arrivals| ==> ends[i] == |Concat(arrivals[..i])|
  {
    seq(|arrivals| + 1, i requires 0 <= i <= |arrivals| => |Concat(arrivals[..i])|)
  }

  function StatesOf(c: Config, arrivals: seq<Bytes>): (states: seq<State>)
    ensures |states| == |arrivals| + 1 && forall i :: 0 <= i <= |arrivals| ==> states[i] == Run(c, arrivals[..i])
  {
    seq(|arrivals| + 1, i requires 0 <= i <= |arrivals| => Run(c, arrivals[..i]))
  }

  /** The read behind the first `i` ones, as a slice of it all. */
  lemma Slice(c: Config, arrivals: seq<Bytes>, i: nat)
    requires i < |arrivals|
    ensures var j, k := |Concat(arrivals[..i])|, |Concat(arrivals[..i + 1])|;
            && j + |arrivals[i]| == k <= |Concat(arrivals)|
            && Concat(arrivals)[j..k] == arrivals[i]
            && Run(c, arrivals[..i + 1]) == Feed(c, Run(c, arrivals[..i]), arrivals[i])
  {
    assert arrivals[..i + 1][..i] == arrivals[..i];
    ConcatPrefix(arrivals, i + 1);
    var j, k := |Concat(arrivals[..i])|, |Concat(arrivals[..i + 1])|;
    assert Concat(arrivals)[j..k] == Concat(arrivals)[..k][j..] == Concat(arrivals[..i + 1])[j..] == arrivals[i];
  }

  lemma ReadsAreTrace(c: Config, arrivals: seq<Bytes>, b: Bytes)
    requires b == Concat(arrivals) && forall a <- arrivals :: a != []
    ensures Trace(FeederOf(c), b, EndsOf(arrivals), StatesOf(c, arrivals))
  {
    var ends, states := EndsOf(arrivals), StatesOf(c, arrivals);
    assert arrivals[..|arrivals|] == arrivals;
    forall i | 0 < i < |ends| ensures ends[i - 1] < ends[i] <= |b| && states[i] == FeederOf(c)(states[i - 1], b[ends[i - 1]..ends[i]]) {
      Slice(c, arrivals, i - 1);
      assert arrivals[i - 1] in arrivals;
    }
  }

  /**
    However a chunked request is brought in by non-empty reads: it is dispatched whole, and nothing else
    happens, exactly when the end of its head and all of its body come with the last read, and no earlier
    read ends inside the request line.
  */
  lemma ChunkedWholeIff(c: Config, head: Bytes, frames: seq<Frame>, last: Frame, arrivals: seq<Bytes>)
    requires Suits(c, head, frames, last) && Concat(arrivals) == head + EncodeBody(frames, last)
    requires forall a <- arrivals :: a != []
    ensures Run(c, arrivals) == Clean(WholeRequest(c, head, frames)) <==> GoodCuts(EndsOf(arrivals), |arrivals|, LineEnd(head), |head|)
  {
    var b := head + EncodeBody(frames, last);
    ConnectionIsLawful(c, head, frames, last);
    ReadsAreTrace(c, arrivals, b);
    CleanIff(FeederOf(c), b, EnderOf(c, head, frames, last), LineEnd(head), |head|, WholeRequest(c, head, frames), EndsOf(arrivals), StatesOf(c, arrivals));
    assert arrivals[..|arrivals|] == arrivals;
  }
}
