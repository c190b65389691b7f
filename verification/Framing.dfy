/**
  Incremental framing refines one-shot framing: well-formed requests come out of the connection's
  read loop whole and in order, however the reads cut them.
*/
module Framing {
  import opened Wrappers
  import opened Bytes
  import opened Head
  import opened Http
  import opened Connection
  import Chunked

  /** What matters of a request: its bytes, where its request line's CRLF ends, and the parsed form. */
  datatype Message = Message(bytes: Bytes, lineEnd: nat, request: Request)

  function Stream(ms: seq<Message>): Bytes {
    if ms == [] then [] else ms[0].bytes + Stream(ms[1..])
  }

  function Requests(ms: seq<Message>): (rs: seq<Request>)
    ensures |rs| == |ms| && forall i :: 0 <= i < |ms| ==> rs[i] == ms[i].request
  {
    seq(|ms|, i requires 0 <= i < |ms| => ms[i].request)
  }

  /** How many of the requests are complete in the first `k` bytes of the stream. */
  function Complete(ms: seq<Message>, k: nat): (n: nat)
    ensures n <= |ms|
  {
    if ms == [] || k < |ms[0].bytes| then 0 else 1 + Complete(ms[1..], k - |ms[0].bytes|)
  }

  /** The part of the first `k` bytes behind the complete requests. */
  function Rest(ms: seq<Message>, k: nat): Bytes
    requires k <= |Stream(ms)|
  {
    if ms == [] || k < |ms[0].bytes| then Stream(ms)[..k] else Rest(ms[1..], k - |ms[0].bytes|)
  }

  /** The first `k` bytes do not end inside a request line or its CRLF. */
  predicate Whole(ms: seq<Message>, k: nat)
    requires k <= |Stream(ms)|
  {
    var m := Complete(ms, k);
    m == |ms| || Rest(ms, k) == [] || |Rest(ms, k)| >= ms[m].lineEnd
  }

  lemma {:induction false} StreamSplits(ms: seq<Message>, m: nat)
    requires m <= |ms|
    ensures Stream(ms) == Stream(ms[..m]) + Stream(ms[m..])
  {
    if m > 0 {
      StreamSplits(ms[1..], m - 1);
      assert ms[..m][0] == ms[0] && ms[..m][1..] == ms[1..][..m - 1];
      assert ms[m..] == ms[1..][m - 1..];
    } else {
      assert ms[..0] == [] && ms[0..] == ms;
    }
  }

  /** The requests that are not complete yet, and the length of those that are. */
  function Behind(ms: seq<Message>, k: nat): seq<Message> {
    if ms == [] || k < |ms[0].bytes| then ms else Behind(ms[1..], k - |ms[0].bytes|)
  }

  function Used(ms: seq<Message>, k: nat): (n: nat)
    ensures n <= k
  {
    if ms == [] || k < |ms[0].bytes| then 0 else |ms[0].bytes| + Used(ms[1..], k - |ms[0].bytes|)
  }

  lemma SplitTwice<T>(whole: seq<T>, n: nat, i: nat, k: nat)
    requires n <= n + i <= k <= |whole|
    ensures whole[n..][i..k - n] == whole[n + i..k] && whole[n..][i..] == whole[n + i..]
    ensures whole[n..][..k - n] == whole[n..n + i] + whole[n + i..k]
    ensures whole[..n] + whole[n..][..i] == whole[..n + i]
  {
  }

  lemma {:induction false} BehindIsRest(ms: seq<Message>, k: nat)
    requires k <= |Stream(ms)|
    ensures Behind(ms, k) == ms[Complete(ms, k)..]
    ensures Stream(ms)[Used(ms, k)..] == Stream(Behind(ms, k)) && Stream(ms)[Used(ms, k)..k] == Rest(ms, k)
  {
    if ms != [] && k >= |ms[0].bytes| {
      var n := |ms[0].bytes|;
      BehindIsRest(ms[1..], k - n);
      assert ms[Complete(ms, k)..] == ms[1..][Complete(ms[1..], k - n)..];
      assert Stream(ms)[n..] == Stream(ms[1..]);
      SplitTwice(Stream(ms), n, Used(ms[1..], k - n), k);
    }
  }

  lemma {:induction false} UsedIsComplete(ms: seq<Message>, k: nat)
    requires k <= |Stream(ms)|
    ensures Stream(ms)[..Used(ms, k)] == Stream(ms[..Complete(ms, k)])
  {
    if ms != [] && k >= |ms[0].bytes| {
      var n := |ms[0].bytes|;
      UsedIsComplete(ms[1..], k - n);
      assert Stream(ms)[n..] == Stream(ms[1..]) && Stream(ms)[..n] == ms[0].bytes;
      SplitTwice(Stream(ms), n, Used(ms[1..], k - n), k);
      var done := ms[..Complete(ms, k)];
      assert done[0] == ms[0] && done[1..] == ms[1..][..Complete(ms[1..], k - n)];
    }
  }

  /** The rest is what the complete requests leave of the first `k` bytes, less than one more request. */
  lemma RestIsUnconsumed(ms: seq<Message>, k: nat)
    requires k <= |Stream(ms)|
    ensures Stream(ms)[..k] == Stream(ms[..Complete(ms, k)]) + Rest(ms, k)
  {
    BehindIsRest(ms, k);
    UsedIsComplete(ms, k);
    assert Stream(ms)[..k] == Stream(ms)[..Used(ms, k)] + Stream(ms)[Used(ms, k)..k];
  }

  lemma {:induction false} RestIsShort(ms: seq<Message>, k: nat)
    requires k <= |Stream(ms)|
    ensures Complete(ms, k) < |ms| ==> |Rest(ms, k)| < |ms[Complete(ms, k)].bytes|
    ensures Complete(ms, k) == |ms| ==> Rest(ms, k) == []
  {
    if ms != [] && k >= |ms[0].bytes| {
      RestIsShort(ms[1..], k - |ms[0].bytes|);
    }
  }

  /** Requests that are already complete play no part in what the rest of the stream does. */
  lemma {:induction false} FromRest(ms: seq<Message>, j: nat, k: nat)
    requires j <= k <= |Stream(ms)|
    ensures var us, i := Behind(ms, j), k - Used(ms, j);
            && i <= |Stream(us)|
            && Rest(ms, k) == Rest(us, i)
            && Complete(ms, k) == Complete(ms, j) + Complete(us, i)
  {
    if ms != [] && j >= |ms[0].bytes| {
      FromRest(ms[1..], j - |ms[0].bytes|, k - |ms[0].bytes|);
    }
  }

  lemma RestGrows(ms: seq<Message>, j: nat, k: nat)
    requires j <= k <= |Stream(ms)|
    ensures var us, i := Behind(ms, j), k - Used(ms, j);
            i <= |Stream(us)| && Stream(us)[..i] == Rest(ms, j) + Stream(ms)[j..k]
  {
    BehindIsRest(ms, j);
    SplitTwice(Stream(ms), Used(ms, j), j - Used(ms, j), k);
  }

  // ----- one read -----

  type Drainer = (Bytes, bool, seq<Request>) -> Outcome

  /** The inner loop on a message with anything behind it, and on a part of a message. */
  ghost predicate TakesWhole(drain: Drainer, m: Message, rest: Bytes, chunked: bool, acc: seq<Request>) {
    drain(m.bytes + rest, chunked, acc) == drain(rest, chunked || Contains(m.bytes + rest, MARKER), acc + [m.request])
  }

  ghost predicate KeepsPart(drain: Drainer, m: Message, k: nat, chunked: bool, acc: seq<Request>) {
    0 < k && m.lineEnd <= k < |m.bytes| ==> drain(m.bytes[..k], chunked, acc) == Waiting(m.bytes[..k], acc)
  }

  /** A part of the request line is taken for garbage, or with the flag up for an unfinished chunk. */
  ghost predicate BreaksOff(drain: Drainer, m: Message, k: nat, chunked: bool, acc: seq<Request>) {
    0 < k < m.lineEnd && k < |m.bytes| ==>
      drain(m.bytes[..k], chunked, acc) ==
      if chunked || Contains(m.bytes[..k], MARKER) then Spinning(Loop(m.bytes[..k], true, acc)) else Failed(RequestLineMalformed, acc)
  }

  ghost predicate Frames(drain: Drainer, m: Message) {
    && m.bytes != []
    && (forall rest, chunked, acc :: TakesWhole(drain, m, rest, chunked, acc))
    && (forall k: nat, chunked, acc :: KeepsPart(drain, m, k, chunked, acc))
    && (forall k: nat, chunked, acc :: BreaksOff(drain, m, k, chunked, acc))
  }

  ghost predicate FramesAll(drain: Drainer, ms: seq<Message>) {
    && (forall m <- ms :: Frames(drain, m))
    && (forall chunked, acc :: drain([], chunked, acc) == Waiting([], acc))
  }

  lemma StreamFront(ms: seq<Message>, k: nat)
    requires ms != [] && k <= |Stream(ms)|
    ensures var n := |ms[0].bytes|;
            Stream(ms)[..k] == if k < n then ms[0].bytes[..k] else ms[0].bytes + Stream(ms[1..])[..k - n]
  {
  }

  lemma RequestsFront(ms: seq<Message>, i: nat, acc: seq<Request>)
    requires ms != [] && i < |ms|
    ensures (acc + [ms[0].request]) + Requests(ms[1..])[..i] == acc + Requests(ms)[..1 + i]
  {
  }

  /** How the inner loop ends on the first `k` bytes: the rest is kept if it does not break a request line. */
  ghost function Ending(ms: seq<Message>, k: nat, chunked: bool, acc: seq<Request>): Outcome
    requires k <= |Stream(ms)|
  {
    var taken := acc + Requests(ms)[..Complete(ms, k)];
    if Whole(ms, k) then Waiting(Rest(ms, k), taken)
    else if chunked || Contains(Stream(ms)[..k], MARKER) then Spinning(Loop(Rest(ms, k), true, taken))
    else Failed(RequestLineMalformed, taken)
  }

  lemma WholeFront(ms: seq<Message>, k: nat)
    requires ms != [] && |ms[0].bytes| <= k <= |Stream(ms)|
    ensures Whole(ms, k) <==> Whole(ms[1..], k - |ms[0].bytes|)
  {
  }

  /** Whether the marker is in sight behind the front, given that it was looked for in the whole. */
  lemma MarkerFront(ms: seq<Message>, k: nat)
    requires ms != [] && |ms[0].bytes| <= k <= |Stream(ms)|
    ensures Contains(Stream(ms[1..])[..k - |ms[0].bytes|], MARKER) ==> Contains(Stream(ms)[..k], MARKER)
  {
    StreamFront(ms, k);
    FindInSuffix(ms[0].bytes, Stream(ms[1..])[..k - |ms[0].bytes|], MARKER);
  }

  lemma {:induction false} EndingFront(ms: seq<Message>, k: nat, chunked: bool, acc: seq<Request>)
    requires ms != [] && |ms[0].bytes| <= k <= |Stream(ms)|
    ensures Ending(ms, k, chunked, acc) ==
            Ending(ms[1..], k - |ms[0].bytes|, chunked || Contains(Stream(ms)[..k], MARKER), acc + [ms[0].request])
  {
    WholeFront(ms, k);
    MarkerFront(ms, k);
    RequestsFront(ms, Complete(ms[1..], k - |ms[0].bytes|), acc);
  }

  lemma FindInSuffix(x: Bytes, rest: Bytes, pattern: Bytes)
    requires |pattern| > 0
    ensures Contains(rest, pattern) ==> Contains(x + rest, pattern)
  {
    FindIsFirst(rest, pattern);
    FindIsFirst(x + rest, pattern);
    if Contains(rest, pattern) {
      var i := Find(rest, pattern).value;
      assert (x + rest)[|x| + i..|x| + i + |pattern|] == rest[i..i + |pattern|];
      assert At(x + rest, |x| + i, pattern);
    }
  }

  /** The inner loop takes off the complete requests and then ends as said. */
  lemma {:induction false} DrainPrefix(drain: Drainer, ms: seq<Message>, k: nat, chunked: bool, acc: seq<Request>)
    requires FramesAll(drain, ms) && k <= |Stream(ms)|
    ensures drain(Stream(ms)[..k], chunked, acc) == Ending(ms, k, chunked, acc)
    decreases ms
  {
    if ms == [] || k < |ms[0].bytes| {
      assert acc + [] == acc;
      if k > 0 {
        assert ms[0] in ms;
        StreamFront(ms, k);
        assert KeepsPart(drain, ms[0], k, chunked, acc);
        assert BreaksOff(drain, ms[0], k, chunked, acc);
      } else {
        assert Stream(ms)[..k] == [];
      }
    } else {
      var m, n := ms[0], |ms[0].bytes|;
      assert m in ms && Frames(drain, m);
      StreamFront(ms, k);
      assert TakesWhole(drain, m, Stream(ms[1..])[..k - n], chunked, acc);
      DrainPrefix(drain, ms[1..], k - n, chunked || Contains(Stream(ms)[..k], MARKER), acc + [m.request]);
      EndingFront(ms, k, chunked, acc);
    }
  }

  // ----- all reads -----

  /** Where the connection stands after the first `k` bytes: nothing lost, nothing early. */
  ghost function Expected(ms: seq<Message>, k: nat): State
    requires k <= |Stream(ms)|
  {
    State(Rest(ms, k), Dispatches(Requests(ms)[..Complete(ms, k)]), Open)
  }

  type Feeder = (State, Bytes) -> State

  /** A read that neither overflows the buffer nor starts a streamed body is drained. */
  ghost predicate Feeds(feed: Feeder, kind: Request -> Kind, drain: Drainer, s: State, read: Bytes) {
    feed(s, read) == Settle(kind, s.events, drain(s.buffer + read, Contains(s.buffer + read, MARKER), []))
  }

  /** None of the requests upgrades the connection. */
  ghost predicate StaysHttp(kind: Request -> Kind, ms: seq<Message>) {
    NoUpgrade(kind, Requests(ms))
  }

  /** A batch handed out, and the buffer kept if the read broke no request line. */
  ghost function Settled(events: seq<Event>, us: seq<Message>, i: nat, flag: bool): State
    requires i <= |Stream(us)|
  {
    var batch := Dispatches(Requests(us)[..Complete(us, i)]);
    if Whole(us, i) then State(Rest(us, i), events + batch, Open)
    else if flag then State(Rest(us, i), events, Hung)
    else State([], events + [Reject(RequestLineMalformed)] + batch, Open)
  }

  lemma SettleEnding(kind: Request -> Kind, events: seq<Event>, us: seq<Message>, i: nat, flag: bool)
    requires i <= |Stream(us)| && StaysHttp(kind, us) && (Contains(Stream(us)[..i], MARKER) ==> flag)
    ensures Settle(kind, events, Ending(us, i, flag, [])) == Settled(events, us, i, flag)
  {
    var batch := Requests(us)[..Complete(us, i)];
    assert [] + batch == batch;
    assert forall r <- batch :: r in Requests(us);
    HandOutAll(kind, State(Rest(us, i), events, Open), batch);
    HandOutAll(kind, State([], events + [Reject(RequestLineMalformed)], Open), batch);
  }

  /**
    What a read from byte `j` to byte `k` leads to: the requests it completes are dispatched; if it ends
    inside a request line, the connection hangs when the marker is in sight, and else answers an error.
  */
  ghost function AfterRead(ms: seq<Message>, j: nat, k: nat): State
    requires j <= k <= |Stream(ms)|
  {
    RestGrows(ms, j, k);
    Settled(Dispatches(Requests(ms)[..Complete(ms, j)]), Behind(ms, j), k - Used(ms, j), Contains(Rest(ms, j) + Stream(ms)[j..k], MARKER))
  }

  /** How the inner loop ends on a read that goes on from the rest. */
  lemma DrainFromRest(drain: Drainer, ms: seq<Message>, j: nat, k: nat, flag: bool)
    requires FramesAll(drain, ms) && j <= k <= |Stream(ms)|
    ensures k - Used(ms, j) <= |Stream(Behind(ms, j))|
    ensures Stream(Behind(ms, j))[..k - Used(ms, j)] == Rest(ms, j) + Stream(ms)[j..k]
    ensures drain(Rest(ms, j) + Stream(ms)[j..k], flag, []) == Ending(Behind(ms, j), k - Used(ms, j), flag, [])
  {
    RestGrows(ms, j, k);
    BehindIsRest(ms, j);
    assert forall m <- Behind(ms, j) :: m in ms;
    DrainPrefix(drain, Behind(ms, j), k - Used(ms, j), flag, []);
  }

  lemma FeedLeads(feed: Feeder, kind: Request -> Kind, drain: Drainer, ms: seq<Message>, j: nat, k: nat)
    requires FramesAll(drain, ms) && StaysHttp(kind, ms)
    requires j <= k <= |Stream(ms)|
    requires Feeds(feed, kind, drain, Expected(ms, j), Stream(ms)[j..k])
    ensures feed(Expected(ms, j), Stream(ms)[j..k]) == AfterRead(ms, j, k)
  {
    var flag := Contains(Rest(ms, j) + Stream(ms)[j..k], MARKER);
    DrainFromRest(drain, ms, j, k, flag);
    BehindIsRest(ms, j);
    BehindStaysHttp(kind, ms, Complete(ms, j));
    SettleEnding(kind, Dispatches(Requests(ms)[..Complete(ms, j)]), Behind(ms, j), k - Used(ms, j), flag);
  }

  lemma WholeBehind(ms: seq<Message>, j: nat, k: nat)
    requires j <= k <= |Stream(ms)| && k - Used(ms, j) <= |Stream(Behind(ms, j))|
    ensures Whole(ms, k) <==> Whole(Behind(ms, j), k - Used(ms, j))
  {
    FromRest(ms, j, k);
    BehindIsRest(ms, j);
  }

  lemma BehindStaysHttp(kind: Request -> Kind, ms: seq<Message>, m: nat)
    requires StaysHttp(kind, ms) && m <= |ms|
    ensures StaysHttp(kind, ms[m..])
  {
    assert Requests(ms[m..]) == Requests(ms)[m..];
    assert forall r <- Requests(ms)[m..] :: r in Requests(ms);
  }

  lemma BatchesJoin(ms: seq<Message>, m: nat, n: nat)
    requires m + n <= |ms|
    ensures Dispatches(Requests(ms)[..m]) + Dispatches(Requests(ms[m..])[..n]) == Dispatches(Requests(ms)[..m + n])
  {
  }

  lemma WholeIsExpected(ms: seq<Message>, j: nat, k: nat)
    requires j <= k <= |Stream(ms)| && Whole(ms, k)
    ensures AfterRead(ms, j, k) == Expected(ms, k)
  {
    RestGrows(ms, j, k);
    FromRest(ms, j, k);
    BehindIsRest(ms, j);
    WholeBehind(ms, j, k);
    BatchesJoin(ms, Complete(ms, j), Complete(Behind(ms, j), k - Used(ms, j)));
  }

  /** The connection is where it should be exactly when the read does not end inside a request line. */
  lemma OnTrackIffWhole(ms: seq<Message>, j: nat, k: nat)
    requires j <= k <= |Stream(ms)|
    ensures AfterRead(ms, j, k) == Expected(ms, k) <==> Whole(ms, k)
  {
    if Whole(ms, k) {
      WholeIsExpected(ms, j, k);
    } else {
      RestGrows(ms, j, k);
      WholeBehind(ms, j, k);
    }
  }

  function Concat(pieces: seq<Bytes>): Bytes {
    if pieces == [] then [] else Concat(pieces[..|pieces| - 1]) + pieces[|pieces| - 1]
  }

  /** The reads bring in a prefix of the stream. */
  predicate Brings(ms: seq<Message>, arrivals: seq<Bytes>) {
    arrivals == [] ||
    (var last := arrivals[|arrivals| - 1];
     var k := |Concat(arrivals)|;
     && Brings(ms, arrivals[..|arrivals| - 1])
     && 1 <= |last| <= READ_SIZE
     && k <= |Stream(ms)| && Concat(arrivals) == Stream(ms)[..k])
  }

  /** None of them ends inside a request line. */
  predicate Cuts(ms: seq<Message>, arrivals: seq<Bytes>) {
    && Brings(ms, arrivals)
    && (arrivals == [] || (Cuts(ms, arrivals[..|arrivals| - 1]) && |Concat(arrivals)| <= |Stream(ms)| && Whole(ms, |Concat(arrivals)|)))
  }

  ghost predicate FeedsAll(feed: Feeder, kind: Request -> Kind, drain: Drainer, ms: seq<Message>) {
    forall j: nat, k: nat {:trigger Feeds(feed, kind, drain, Expected(ms, j), Stream(ms)[j..k])} | j < k <= |Stream(ms)| && k - j <= READ_SIZE ::
      Feeds(feed, kind, drain, Expected(ms, j), Stream(ms)[j..k])
  }

  function RunOf(feed: Feeder, arrivals: seq<Bytes>): State {
    if arrivals == [] then START else feed(RunOf(feed, arrivals[..|arrivals| - 1]), arrivals[|arrivals| - 1])
  }

  type Runner = seq<Bytes> -> State

  /** After every read, the connection has dispatched exactly the complete requests and keeps exactly the rest. */
  ghost predicate OnTrack(run: Runner, ms: seq<Message>, arrivals: seq<Bytes>) {
    && |Concat(arrivals)| <= |Stream(ms)| && run(arrivals) == Expected(ms, |Concat(arrivals)|)
    && (arrivals == [] || OnTrack(run, ms, arrivals[..|arrivals| - 1]))
  }

  lemma ReadIsSlice(ms: seq<Message>, arrivals: seq<Bytes>)
    requires arrivals != [] && Brings(ms, arrivals)
    ensures var init, last := arrivals[..|arrivals| - 1], arrivals[|arrivals| - 1];
            var j, k := |Concat(init)|, |Concat(arrivals)|;
            j < k <= |Stream(ms)| && k - j <= READ_SIZE && last == Stream(ms)[j..k]
  {
    var init, last := arrivals[..|arrivals| - 1], arrivals[|arrivals| - 1];
    var j, k := |Concat(init)|, |Concat(arrivals)|;
    assert last == Concat(arrivals)[j..] == Stream(ms)[..k][j..] == Stream(ms)[j..k];
  }

  lemma {:induction false} OnTrackIffCuts(feed: Feeder, kind: Request -> Kind, drain: Drainer, ms: seq<Message>, arrivals: seq<Bytes>)
    requires FramesAll(drain, ms) && StaysHttp(kind, ms) && FeedsAll(feed, kind, drain, ms) && Brings(ms, arrivals)
    ensures OnTrack(a => RunOf(feed, a), ms, arrivals) <==> Cuts(ms, arrivals)
  {
    if arrivals == [] {
      NothingYet(drain, ms);
    } else {
      var init, last := arrivals[..|arrivals| - 1], arrivals[|arrivals| - 1];
      OnTrackIffCuts(feed, kind, drain, ms, init);
      ReadIsSlice(ms, arrivals);
      var j, k := |Concat(init)|, |Concat(arrivals)|;
      assert Feeds(feed, kind, drain, Expected(ms, j), Stream(ms)[j..k]);
      FeedLeads(feed, kind, drain, ms, j, k);
      OnTrackIffWhole(ms, j, k);
    }
  }

  lemma NothingYet(drain: Drainer, ms: seq<Message>)
    requires FramesAll(drain, ms)
    ensures Expected(ms, 0) == START
  {
    if ms != [] {
      assert ms[0] in ms && Frames(drain, ms[0]);
    }
    assert Stream(ms)[..0] == [] && Requests(ms)[..0] == [];
  }

  lemma {:induction false} AllComplete(ms: seq<Message>)
    ensures Complete(ms, |Stream(ms)|) == |ms| && Rest(ms, |Stream(ms)|) == []
  {
    if ms != [] {
      AllComplete(ms[1..]);
    }
  }

  // ----- the written requests as messages -----

  function MessageOf(w: Written): Message {
    Message(Render(w), |RequestLine(w)| + 2, RequestOf(w))
  }

  function MessagesOf(ws: seq<Written>): (ms: seq<Message>)
    ensures |ms| == |ws| && forall i :: 0 <= i < |ws| ==> ms[i] == MessageOf(ws[i])
  {
    seq(|ws|, i requires 0 <= i < |ws| => MessageOf(ws[i]))
  }

  /** What the connection's limits let through, and what leaves it a connection. */
  ghost predicate Fits(c: Config, w: Written) {
    && WellFormed(w)
    && |w.body| <= c.maxBody
    && (c.threshold == 0 || |w.body| <= c.threshold)
    && |Render(w)| + READ_SIZE - 1 <= c.capacity
    && !c.kind(RequestOf(w)).Upgrading?
  }

  ghost predicate AllFit(c: Config, ws: seq<Written>) {
    forall w <- ws :: Fits(c, w)
  }

  function DrainerOf(maxBody: nat): Drainer {
    (b, chunked, acc) => Drain(Loop(b, chunked, acc), maxBody)
  }

  function FeederOf(c: Config): Feeder {
    (s, read) => Feed(c, s, read)
  }

  lemma DrainWhole(w: Written, rest: Bytes, chunked: bool, acc: seq<Request>, maxBody: nat)
    requires WellFormed(w) && |w.body| <= maxBody
    ensures var b := Render(w) + rest;
            Drain(Loop(b, chunked, acc), maxBody) ==
            Drain(Loop(rest, chunked || Contains(b, MARKER), acc + [RequestOf(w)]), maxBody)
  {
    var b := Render(w) + rest;
    ParseWritten(w, rest, chunked || Contains(b, MARKER), maxBody);
    assert b[|Render(w)|..] == rest;
  }

  lemma DrainPart(w: Written, k: nat, chunked: bool, acc: seq<Request>, maxBody: nat)
    requires WellFormed(w) && |w.body| <= maxBody
    requires |RequestLine(w)| + 2 <= k < |Render(w)|
    ensures Drain(Loop(Render(w)[..k], chunked, acc), maxBody) == Waiting(Render(w)[..k], acc)
  {
    ParsePartial(w, k, chunked || Contains(Render(w)[..k], MARKER), maxBody);
  }

  lemma DrainLine(w: Written, k: nat, chunked: bool, acc: seq<Request>, maxBody: nat)
    requires WellFormed(w) && 0 < k < |RequestLine(w)| + 2
    ensures var b := Render(w)[..k];
            Drain(Loop(b, chunked, acc), maxBody) ==
            if chunked || Contains(b, MARKER) then Spinning(Loop(b, true, acc)) else Failed(RequestLineMalformed, acc)
  {
    var b := Render(w)[..k];
    WrittenEnds(w, w.body);
    FindInPrefix(Render(w), CRLF, k);
    assert RequestLineState(b) == Ok(false) && Chunked.NextAt(b).NoLine?;
    NoProgress(Loop(b, chunked, acc), maxBody);
  }

  lemma WrittenFrames(w: Written, maxBody: nat)
    requires WellFormed(w) && |w.body| <= maxBody
    ensures Frames(DrainerOf(maxBody), MessageOf(w))
  {
    var drain, m := DrainerOf(maxBody), MessageOf(w);
    forall rest, chunked, acc ensures TakesWhole(drain, m, rest, chunked, acc) {
      DrainWhole(w, rest, chunked, acc, maxBody);
    }
    forall k: nat, chunked, acc ensures KeepsPart(drain, m, k, chunked, acc) {
      if m.lineEnd <= k < |m.bytes| {
        DrainPart(w, k, chunked, acc, maxBody);
      }
    }
    forall k: nat, chunked, acc ensures BreaksOff(drain, m, k, chunked, acc) {
      if 0 < k < m.lineEnd {
        DrainLine(w, k, chunked, acc, maxBody);
      }
    }
  }

  lemma AllFrame(c: Config, ws: seq<Written>)
    requires AllFit(c, ws)
    ensures FramesAll(DrainerOf(c.maxBody), MessagesOf(ws))
  {
    forall m <- MessagesOf(ws) ensures Frames(DrainerOf(c.maxBody), m) {
      var i :| 0 <= i < |ws| && m == MessageOf(ws[i]);
      assert ws[i] in ws;
      WrittenFrames(ws[i], c.maxBody);
    }
  }

  /** No part of a request, whatever follows it, looks like one whose body is to be streamed. */
  lemma NotStreamed(c: Config, w: Written, tail: Bytes, k: nat)
    requires Fits(c, w) && k <= |Render(w) + tail|
    ensures !Streams(c, (Render(w) + tail)[..k])
  {
    var b := Render(w) + tail;
    HeadInPrefix(b, k, c.maxBody);
    assert b == HeadOf(w) + (w.body + tail);
    HeadOfWritten(w, w.body + tail, c.maxBody);
  }

  /** Neither limit of the outer loop is in the way of a read that continues the stream. */
  lemma ReadFits(c: Config, ws: seq<Written>, j: nat, k: nat)
    requires AllFit(c, ws)
    requires j < k <= |Stream(MessagesOf(ws))| && k - j <= READ_SIZE
    ensures var b := Rest(MessagesOf(ws), j) + Stream(MessagesOf(ws))[j..k];
            |b| <= c.capacity && !Streams(c, b)
  {
    var ms := MessagesOf(ws);
    RestGrows(ms, j, k);
    RestIsShort(ms, j);
    BehindIsRest(ms, j);
    var us, i, m := Behind(ms, j), k - Used(ms, j), Complete(ms, j);
    assert m < |ms| && us[0] == ms[m] == MessageOf(ws[m]) && ws[m] in ws;
    NotStreamed(c, ws[m], Stream(us[1..]), i);
  }

  lemma AllFeed(c: Config, ws: seq<Written>)
    requires AllFit(c, ws)
    ensures FeedsAll(FeederOf(c), c.kind, DrainerOf(c.maxBody), MessagesOf(ws))
  {
    var feed, drain, ms := FeederOf(c), DrainerOf(c.maxBody), MessagesOf(ws);
    forall j: nat, k: nat {:trigger Feeds(feed, c.kind, drain, Expected(ms, j), Stream(ms)[j..k])} | j < k <= |Stream(ms)| && k - j <= READ_SIZE
      ensures Feeds(feed, c.kind, drain, Expected(ms, j), Stream(ms)[j..k])
    {
      ReadFits(c, ws, j, k);
    }
  }

  lemma AllStayHttp(c: Config, ws: seq<Written>)
    requires AllFit(c, ws)
    ensures StaysHttp(c.kind, MessagesOf(ws))
  {
    forall r <- Requests(MessagesOf(ws)) ensures !c.kind(r).Upgrading? {
      var i :| 0 <= i < |ws| && r == RequestOf(ws[i]);
      assert ws[i] in ws;
    }
  }

  /**
    Any read of a stream of requests, from any point of it: what it leads to, and that the connection
    is then where it should be exactly when the read does not end inside a request line.
  */
  lemma FeedExactly(c: Config, ws: seq<Written>, j: nat, k: nat)
    requires AllFit(c, ws)
    requires j < k <= |Stream(MessagesOf(ws))| && k - j <= READ_SIZE
    ensures var ms := MessagesOf(ws);
            && Feed(c, Expected(ms, j), Stream(ms)[j..k]) == AfterRead(ms, j, k)
            && (Feed(c, Expected(ms, j), Stream(ms)[j..k]) == Expected(ms, k) <==> Whole(ms, k))
  {
    var ms := MessagesOf(ws);
    AllFrame(c, ws);
    AllFeed(c, ws);
    AllStayHttp(c, ws);
    assert Feeds(FeederOf(c), c.kind, DrainerOf(c.maxBody), Expected(ms, j), Stream(ms)[j..k]);
    FeedLeads(FeederOf(c), c.kind, DrainerOf(c.maxBody), ms, j, k);
    OnTrackIffWhole(ms, j, k);
  }

  lemma {:induction false} RunIsRun(c: Config, arrivals: seq<Bytes>)
    ensures RunOf(FeederOf(c), arrivals) == Run(c, arrivals)
  {
    if arrivals != [] {
      RunIsRun(c, arrivals[..|arrivals| - 1]);
    }
  }

  lemma {:induction false} SameTrack(c: Config, ms: seq<Message>, arrivals: seq<Bytes>)
    ensures OnTrack(a => RunOf(FeederOf(c), a), ms, arrivals) <==> OnTrack(a => Run(c, a), ms, arrivals)
  {
    RunIsRun(c, arrivals);
    if arrivals != [] {
      SameTrack(c, ms, arrivals[..|arrivals| - 1]);
    }
  }

  /**
    Reads that bring in a stream of requests: after every one of them exactly the complete requests have
    been dispatched, in order and with their bodies, and the buffer is exactly the unconsumed rest,
    exactly when no read ends inside a request line.
  */
  lemma RunRefinesIff(c: Config, ws: seq<Written>, arrivals: seq<Bytes>)
    requires AllFit(c, ws) && Brings(MessagesOf(ws), arrivals)
    ensures OnTrack(a => Run(c, a), MessagesOf(ws), arrivals) <==> Cuts(MessagesOf(ws), arrivals)
  {
    AllFrame(c, ws);
    AllFeed(c, ws);
    AllStayHttp(c, ws);
    OnTrackIffCuts(FeederOf(c), c.kind, DrainerOf(c.maxBody), MessagesOf(ws), arrivals);
    SameTrack(c, MessagesOf(ws), arrivals);
  }

  /** What that comes to after the last read. */
  lemma RunRefines(c: Config, ws: seq<Written>, arrivals: seq<Bytes>)
    requires AllFit(c, ws)
    requires Cuts(MessagesOf(ws), arrivals)
    ensures var ms, bytes, s := MessagesOf(ws), Concat(arrivals), Run(c, arrivals);
            var n := Complete(ms, |bytes|);
            && s.status == Open
            && s.events == Dispatches(Requests(ms)[..n])
            && bytes == Stream(ms[..n]) + s.buffer
            && (n < |ms| ==> |s.buffer| < |ms[n].bytes|)
  {
    var ms := MessagesOf(ws);
    RunRefinesIff(c, ws, arrivals);
    BringsPrefix(ms, arrivals);
    RestIsUnconsumed(ms, |Concat(arrivals)|);
    RestIsShort(ms, |Concat(arrivals)|);
  }

  lemma BringsPrefix(ms: seq<Message>, arrivals: seq<Bytes>)
    requires Brings(ms, arrivals)
    ensures |Concat(arrivals)| <= |Stream(ms)| && Concat(arrivals) == Stream(ms)[..|Concat(arrivals)|]
  {
  }

  /** Once all has arrived, the dispatched requests are the written ones and nothing is left over. */
  lemma AllDelivered(c: Config, ws: seq<Written>, arrivals: seq<Bytes>)
    requires AllFit(c, ws)
    requires Cuts(MessagesOf(ws), arrivals) && Concat(arrivals) == Stream(MessagesOf(ws))
    ensures Run(c, arrivals) == State([], Dispatches(Requests(MessagesOf(ws))), Open)
  {
    var ms := MessagesOf(ws);
    RunRefinesIff(c, ws, arrivals);
    AllComplete(ms);
    assert Requests(ms)[..|ms|] == Requests(ms);
  }

  // ----- errors behind complete requests -----

  /** In front of anything, complete requests are taken off and leave the flag as it is on the whole. */
  lemma {:induction false} DrainThen(drain: Drainer, ms: seq<Message>, bad: Bytes, chunked: bool, acc: seq<Request>)
    requires FramesAll(drain, ms) && (Contains(Stream(ms) + bad, MARKER) ==> chunked)
    ensures drain(Stream(ms) + bad, chunked, acc) == drain(bad, chunked, acc + Requests(ms))
    decreases ms
  {
    if ms == [] {
      assert Stream(ms) + bad == bad && acc + Requests(ms) == acc;
    } else {
      var m, rest := ms[0], Stream(ms[1..]) + bad;
      assert m in ms && Frames(drain, m);
      assert Stream(ms) + bad == m.bytes + rest;
      assert TakesWhole(drain, m, rest, chunked, acc);
      FindInSuffix(m.bytes, rest, MARKER);
      DrainThen(drain, ms[1..], bad, chunked, acc + [m.request]);
      assert acc + [m.request] + Requests(ms[1..]) == acc + Requests(ms);
    }
  }

  lemma FrontNotStreamed(c: Config, ws: seq<Written>, rest: Bytes)
    requires ws != [] && AllFit(c, ws)
    ensures !Streams(c, Stream(MessagesOf(ws)) + rest)
  {
    var ms := MessagesOf(ws);
    var tail := Stream(ms[1..]) + rest;
    assert ms[0] == MessageOf(ws[0]);
    var b := Render(ws[0]) + tail;
    assert Stream(ms) + rest == b == b[..|b|];
    NotStreamed(c, ws[0], tail, |b|);
  }

  /** The read that completes `b`, from any state. */
  lemma OneRead(c: Config, s: State, read: Bytes, b: Bytes, o: Outcome)
    requires s.status == Open && s.buffer + read == b
    requires |b| <= c.capacity && !Streams(c, b)
    requires Drain(Loop(b, Contains(b, MARKER), []), c.maxBody) == o
    ensures Feed(c, s, read) == Settle(c.kind, s.events, o)
  {
  }

  /**
    Complete requests with anything behind them in the buffer that fails to parse: whatever the
    error and whatever else is taken before it, the error response goes out first.
  */
  lemma ErrorOvertakes(c: Config, s: State, read: Bytes, ws: seq<Written>, ms: seq<Message>, bad: Bytes)
    requires ws != [] && AllFit(c, ws) && ms == MessagesOf(ws)
    requires s.status == Open && s.buffer + read == Stream(ms) + bad && |Stream(ms) + bad| <= c.capacity
    requires Drain(Loop(bad, Contains(Stream(ms) + bad, MARKER), Requests(ms)), c.maxBody).Failed?
    ensures var o := Drain(Loop(bad, Contains(Stream(ms) + bad, MARKER), Requests(ms)), c.maxBody);
            Feed(c, s, read) == HandOut(c.kind, State([], s.events + [Reject(o.error)], Open), o.requests)
  {
    var b := Stream(ms) + bad;
    FrontNotStreamed(c, ws, bad);
    AllFrame(c, ws);
    DrainThen(DrainerOf(c.maxBody), ms, bad, Contains(b, MARKER), []);
    assert [] + Requests(ms) == Requests(ms);
    OneRead(c, s, read, b, Drain(Loop(b, Contains(b, MARKER), []), c.maxBody));
  }
}
