/**
  Bodies longer than the stream threshold: the request is dispatched with its head, and the body is
  forwarded read by read (the streaming branch of `handle_h1_connection`, engine/src/lib.rs).
*/
module BodyStream {
  import opened Wrappers
  import opened Bytes
  import opened Head
  import opened Http
  import opened Connection
  import Framing

  /** What the handler of a streamed request has been given of its body. */
  function Forwarded(events: seq<Event>): Bytes {
    if events == [] then []
    else
      var last := events[|events| - 1];
      Forwarded(events[..|events| - 1]) + if last.Forward? then last.bytes else []
  }

  lemma ForwardedLast(events: seq<Event>, e: Event)
    ensures Forwarded(events + [e]) == Forwarded(events) + if e.Forward? then e.bytes else []
  {
    assert (events + [e])[..|events|] == events;
  }

  /** A request whose body the connection streams. */
  ghost predicate Streamed(c: Config, w: Written) {
    WellFormed(w) && 0 < c.threshold < |w.body| <= c.maxBody
  }

  lemma HeadIsStreamed(c: Config, w: Written, behind: Bytes)
    requires Streamed(c, w)
    ensures ParseHead(HeadOf(w) + behind, c.maxBody) == Ok(Some(RequestHead(MetadataOf(w), |w.body|, false, |HeadOf(w)|)))
    ensures Streams(c, HeadOf(w) + behind) && (HeadOf(w) + behind)[|HeadOf(w)|..] == behind
  {
    HeadOfWritten(w, behind, c.maxBody);
  }

  /** The events of a stream that begins. */
  function Begun(events: seq<Event>, metadata: Metadata, behind: Bytes): seq<Event> {
    events + [Stream(metadata)] + (if behind == [] then [] else [Forward(behind)])
  }

  lemma BegunForwards(events: seq<Event>, metadata: Metadata, behind: Bytes)
    ensures Forwarded(Begun(events, metadata, behind)) == Forwarded(events) + behind
  {
    var begun := events + [Stream(metadata)];
    ForwardedLast(events, Stream(metadata));
    ForwardedLast(begun, Forward(behind));
    assert begun + [] == begun;
  }

  lemma StreamStarts(c: Config, events: seq<Event>, b: Bytes, head: RequestHead, behind: Bytes)
    requires Streams(c, b) && ParseHead(b, c.maxBody) == Ok(Some(head)) && head.bodyStart <= |b| && b[head.bodyStart..] == behind
    ensures BeginStream(c, events, b) ==
            State([], Begun(events, head.metadata, behind), StreamStatus(if |behind| < head.contentLength then head.contentLength - |behind| else 0))
  {
  }

  lemma FeedStreams(c: Config, s: State, read: Bytes, b: Bytes)
    requires s.status == Open && s.buffer + read == b && |b| <= c.capacity && Streams(c, b)
    ensures Feed(c, s, read) == BeginStream(c, s.events, b)
  {
  }

  /** The read that completes the head: all that is there behind it is forwarded, body or not. */
  lemma StreamBegins(c: Config, s: State, read: Bytes, w: Written, behind: Bytes)
    requires Streamed(c, w) && s.status == Open
    requires s.buffer + read == HeadOf(w) + behind && |HeadOf(w) + behind| <= c.capacity
    ensures Feed(c, s, read) ==
            State([], Begun(s.events, MetadataOf(w), behind), StreamStatus(if |behind| < |w.body| then |w.body| - |behind| else 0))
    ensures Forwarded(Feed(c, s, read).events) == Forwarded(s.events) + behind
  {
    BegunForwards(s.events, MetadataOf(w), behind);
    StreamBeginsAs(c, s, read, w, behind, HeadOf(w) + behind);
  }

  lemma StreamBeginsAs(c: Config, s: State, read: Bytes, w: Written, behind: Bytes, b: Bytes)
    requires Streamed(c, w) && s.status == Open
    requires s.buffer + read == b && b == HeadOf(w) + behind && |b| <= c.capacity
    ensures Feed(c, s, read) ==
            State([], Begun(s.events, MetadataOf(w), behind), StreamStatus(if |behind| < |w.body| then |w.body| - |behind| else 0))
  {
    HeadIsStreamed(c, w, behind);
    FeedStreams(c, s, read, b);
    StreamStarts(c, s.events, b, RequestHead(MetadataOf(w), |w.body|, false, |HeadOf(w)|), behind);
  }

  function FeedAll(c: Config, s: State, arrivals: seq<Bytes>): State
    decreases |arrivals|
  {
    if arrivals == [] then s else FeedAll(c, Feed(c, s, arrivals[0]), arrivals[1..])
  }

  function Joined(arrivals: seq<Bytes>): Bytes {
    if arrivals == [] then [] else arrivals[0] + Joined(arrivals[1..])
  }

  /** Reads that bring in exactly what is left of the body are forwarded in full, and the connection is open again. */
  lemma {:induction false} StreamGoesOn(c: Config, s: State, arrivals: seq<Bytes>)
    requires forall a <- arrivals :: a != []
    requires s.status == StreamStatus(|Joined(arrivals)|) && s.buffer == []
    ensures var t := FeedAll(c, s, arrivals);
            t.buffer == [] && t.status == Open && Forwarded(t.events) == Forwarded(s.events) + Joined(arrivals)
    decreases |arrivals|
  {
    if arrivals == [] {
      assert Forwarded(s.events) + [] == Forwarded(s.events);
    } else {
      var a, rest := arrivals[0], Joined(arrivals[1..]);
      assert a in arrivals && forall b <- arrivals[1..] :: b in arrivals;
      assert a[..|a|] == a;
      ForwardedLast(s.events, Forward(a));
      StreamGoesOn(c, Feed(c, s, a), arrivals[1..]);
      Regroup(Forwarded(s.events), a, rest);
    }
  }

  /**
    A streamed request brought in by reads of which the first completes the head: the handler gets
    exactly the body, and the connection is open again behind it.
  */
  lemma StreamedBodyIsExact(c: Config, s: State, read: Bytes, w: Written, behind: Bytes, arrivals: seq<Bytes>)
    requires Streamed(c, w) && s.status == Open && forall a <- arrivals :: a != []
    requires s.buffer + read == HeadOf(w) + behind && |HeadOf(w) + behind| <= c.capacity
    requires behind + Joined(arrivals) == w.body
    ensures var t := FeedAll(c, s, [read] + arrivals);
            t.buffer == [] && t.status == Open && Forwarded(t.events) == Forwarded(s.events) + w.body
  {
    StreamBegins(c, s, read, w, behind);
    FeedFirst(c, s, read, arrivals);
    StreamGoesOn(c, Feed(c, s, read), arrivals);
    Regroup(Forwarded(s.events), behind, Joined(arrivals));
  }

  lemma FeedFirst(c: Config, s: State, read: Bytes, arrivals: seq<Bytes>)
    ensures FeedAll(c, s, [read] + arrivals) == FeedAll(c, Feed(c, s, read), arrivals)
  {
    assert ([read] + arrivals)[1..] == arrivals;
  }

  lemma Regroup(a: Bytes, b: Bytes, d: Bytes)
    ensures a + b + d == a + (b + d)
  {
  }

  /** What is pipelined behind a streamed request in the same read goes to its handler as if it were body. */
  lemma SurplusIsForwarded(c: Config, s: State, read: Bytes, w: Written, surplus: Bytes)
    requires Streamed(c, w) && s.status == Open
    requires s.buffer + read == Render(w) + surplus && |Render(w) + surplus| <= c.capacity
    ensures var t := Feed(c, s, read);
            t.buffer == [] && t.status == Open && Forwarded(t.events) == Forwarded(s.events) + (w.body + surplus)
  {
    assert Render(w) + surplus == HeadOf(w) + (w.body + surplus);
    StreamBegins(c, s, read, w, w.body + surplus);
  }

  /** Behind a body that ends inside a later read, the rest of that read is dropped. */
  lemma LaterSurplusIsDropped(c: Config, s: State, read: Bytes, remaining: nat)
    requires s.status == Streaming(remaining) && remaining <= |read|
    ensures Feed(c, s, read) == Feed(c, s, read[..remaining])
    ensures Feed(c, s, read).status == Open && Feed(c, s, read).buffer == s.buffer
    ensures Forwarded(Feed(c, s, read).events) == Forwarded(s.events) + read[..remaining]
  {
    assert read[..remaining][..remaining] == read[..remaining];
    ForwardedLast(s.events, Forward(read[..remaining]));
  }
}
