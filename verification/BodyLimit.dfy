/**
  The body limits of the parser and of the routes fit together (`initialize_routes`, `resolve_route`
  and the read loop, engine/src/lib.rs; the Content-Length check of engine/src/core/request.rs).
*/
module BodyLimit {
  import opened Wrappers
  import opened Routes
  import opened App
  import opened Http
  import opened Head
  import Bytes
  import opened Connection
  import Framing

  // ----- the limits in the trie -----

  predicate Within(limit: Option<nat>, bound: nat) {
    limit.Some? ==> limit.value <= bound
  }

  /** Every limit stored anywhere in the trie. */
  ghost predicate LimitsWithin(r: Route, bound: nat) {
    && (forall verb <- r.handlers :: Within(r.handlers[verb].limit, bound))
    && (forall s <- r.statics :: LimitsWithin(r.statics[s], bound))
    && (r.dynamic.Some? ==> LimitsWithin(r.dynamic.value.route, bound))
  }

  lemma {:induction false} InsertWithin(r: Route, pattern: seq<Segment>, verb: string, e: Entry, bound: nat)
    requires LimitsWithin(r, bound) && Within(e.limit, bound)
    requires Insert(r, pattern, verb, e).Some?
    ensures LimitsWithin(Insert(r, pattern, verb, e).value, bound)
    decreases |pattern|
  {
    if pattern != [] {
      var s := pattern[0];
      assert LimitsWithin(EMPTY, bound);
      if Dyn(s) {
        InsertWithin(if r.dynamic.Some? then r.dynamic.value.route else EMPTY, pattern[1..], verb, e, bound);
      } else {
        InsertWithin(ChildAt(r, s), pattern[1..], verb, e, bound);
      }
    }
  }

  ghost predicate TableWithin(table: seq<Registration>, bound: nat) {
    forall r <- table :: Within(r.entry.limit, bound)
  }

  lemma {:induction false} BuildWithin(table: seq<Registration>, bound: nat)
    requires Build(table).Some? && TableWithin(table, bound)
    ensures LimitsWithin(Build(table).value, bound)
  {
    if table != [] {
      var init, last := table[..|table| - 1], table[|table| - 1];
      assert last in table && forall r <- init :: r in table;
      BuildWithin(init, bound);
      InsertWithin(Build(init).value, last.pattern, last.verb, last.entry, bound);
    }
  }

  lemma {:induction false} GroupWithin(routes: seq<RouteDef>, limit: Option<nat>, bound: nat)
    requires Within(limit, bound)
    ensures TableWithin(GroupTable(routes, limit), bound)
  {
    if routes != [] {
      GroupWithin(routes[..|routes| - 1], limit, bound);
    }
  }

  lemma {:induction false} GroupsWithin(groups: seq<Group>, global: nat, bound: nat)
    requires MaxSeen(groups, global) <= bound
    ensures TableWithin(TableOf(groups), bound)
  {
    if groups != [] {
      var last := groups[|groups| - 1];
      GroupsWithin(groups[..|groups| - 1], global, bound);
      GroupWithin(last.routes, last.limit, bound);
    }
  }

  /** The parser's limit covers every limit in the trie and the global one. */
  lemma ParserCoversLimits(groups: seq<Group>, global: nat)
    requires Build(TableOf(groups)).Some?
    ensures LimitsWithin(Build(TableOf(groups)).value, MaxSeen(groups, global)) && global <= MaxSeen(groups, global)
  {
    GroupsWithin(groups, global, MaxSeen(groups, global));
    BuildWithin(TableOf(groups), MaxSeen(groups, global));
  }

  /** What a search ends at is inside the trie. */
  lemma {:induction false} MatchWithin(r: Route, path: seq<Segment>, params: Params, bound: nat)
    requires LimitsWithin(r, bound)
    ensures var found := Match(r, path, params).0; found.Some? ==> LimitsWithin(found.value, bound)
    decreases |path|
  {
    if path != [] {
      var after := params;
      if path[0] in r.statics {
        MatchWithin(r.statics[path[0]], path[1..], params, bound);
        after := Match(r.statics[path[0]], path[1..], params).1;
      }
      if r.dynamic.Some? {
        MatchWithin(r.dynamic.value.route, path[1..], after[r.dynamic.value.name := path[0]], bound);
      }
    }
  }

  lemma FindWithin(r: Route, path: seq<Segment>, verb: string, bound: nat)
    requires LimitsWithin(r, bound)
    ensures Find(r, path, verb).Found? ==> Within(Find(r, path, verb).limit, bound)
  {
    MatchWithin(r, path, map[], bound);
  }

  // ----- from the request to its handler -----

  datatype Answer = Enter(handler: Handler, params: Params) | Status(code: nat) | SocketIo | Channelled

  /** `resolve_route`, up to entering the handler chain; without a route and a static file it is 404. */
  function Resolve(tree: Route, global: nat, cors: bool, verb: string, path: string, length: nat): Answer {
    if verb == "OPTIONS" && cors then Status(204)
    else
      match Find(tree, LookupSegments(path), LookupVerb(verb))
      case NotFound => Status(404)
      case WrongMethod => Status(405)
      case Found(handler, params, limit) => if length > limit.GetOr(global) then Status(413) else Enter(handler, params)
  }

  function LookupVerb(verb: string): string {
    if verb == "HEAD" then "GET" else verb
  }

  function Text(b: Bytes.Bytes): string {
    seq(|b|, i requires 0 <= i < |b| => b[i] as char)
  }

  /** The tree, the limit and the switches that a request meets on its way. */
  datatype Site = Site(tree: Route, global: nat, cors: bool, kind: Request -> Kind, pathOf: Bytes.Bytes -> string)

  function Lookup(site: Site, w: Written): RouteMatch {
    Find(site.tree, LookupSegments(site.pathOf(w.target)), LookupVerb(Text(w.verb)))
  }

  /** The answer to what the read loop makes of a request: Socket.IO is asked before the routes. */
  function AnswerTo(e: Event, site: Site): Answer {
    match e
    case Reject(error) => Status(StatusCode(error))
    case Overflow => Status(413)
    case Upgrade(_) => SocketIo
    case Stream(_) => Channelled
    case Forward(_) => Channelled
    case Dispatch(r) =>
      if r.metadata.None? then Status(400)
      else if !site.kind(r).Routed? then SocketIo
      else Resolve(site.tree, site.global, site.cors, Text(r.metadata.value.verb), site.pathOf(r.metadata.value.target), |r.payload|)
  }

  /** A head that announces more than the parser takes is refused as soon as it is complete. */
  lemma OversizeRefused(w: Written, tail: Bytes.Bytes, isChunk: bool, maxBody: nat)
    requires WellFormed(w) && |w.body| > maxBody
    ensures ParseHttp(HeadOf(w) + tail, isChunk, maxBody) == Err(ContentLengthExceedsMaximum)
    ensures ParseHead(HeadOf(w) + tail, maxBody) == Err(ContentLengthExceedsMaximum)
  {
    HeadOfWritten(w, tail, |w.body|);
    OversizeInHead(w, tail, maxBody);
  }

  lemma OversizeInHead(w: Written, tail: Bytes.Bytes, maxBody: nat)
    requires WellFormed(w) && |w.body| > maxBody
    ensures ParseHead(HeadOf(w) + tail, maxBody) == Err(ContentLengthExceedsMaximum)
  {
    WrittenEnds(w, tail);
    WrittenSlices(w, tail);
    NamesVersion(w);
    OversizeHead(w, maxBody, |HeadOf(w)|);
  }

  lemma OversizeHead(w: Written, maxBody: nat, bodyStart: nat)
    requires WellFormed(w) && |w.body| > maxBody
    ensures DecodeHead(RequestLine(w), Section(w), maxBody, bodyStart) == Err(ContentLengthExceedsMaximum)
  {
    RequestLineParts(w);
    SectionLines(w);
  }

  // ----- a batch of requests -----

  /** A request that is not streamed and does not upgrade the connection, whether or not the parser takes it. */
  ghost predicate Fine(c: Config, w: Written) {
    && WellFormed(w) && !c.kind(RequestOf(w)).Upgrading?
    && (c.threshold == 0 || |w.body| <= c.threshold || |w.body| > c.maxBody)
  }

  ghost predicate AllFine(c: Config, ws: seq<Written>) {
    forall w <- ws :: Fine(c, w)
  }

  /** How many requests stand before the first one that is too long for the parser. */
  function Accepted(ws: seq<Written>, maxBody: nat): (n: nat)
    ensures n <= |ws|
    ensures forall i :: 0 <= i < n ==> |ws[i].body| <= maxBody
    ensures n < |ws| ==> |ws[n].body| > maxBody
  {
    if ws == [] || |ws[0].body| > maxBody then 0 else 1 + Accepted(ws[1..], maxBody)
  }

  lemma AcceptedFrame(c: Config, ws: seq<Written>)
    requires AllFine(c, ws) && forall w <- ws :: |w.body| <= c.maxBody
    ensures Framing.FramesAll(Framing.DrainerOf(c.maxBody), Framing.MessagesOf(ws))
    ensures NoUpgrade(c.kind, Framing.Requests(Framing.MessagesOf(ws)))
  {
    var ms := Framing.MessagesOf(ws);
    forall m <- ms ensures Framing.Frames(Framing.DrainerOf(c.maxBody), m) {
      var i :| 0 <= i < |ws| && m == Framing.MessageOf(ws[i]);
      assert ws[i] in ws;
      Framing.WrittenFrames(ws[i], c.maxBody);
    }
    forall r <- Framing.Requests(ms) ensures !c.kind(r).Upgrading? {
      var i :| 0 <= i < |ws| && r == RequestOf(ws[i]);
      assert ws[i] in ws;
    }
  }

  lemma FrontNotStreamed(c: Config, w: Written, tail: Bytes.Bytes)
    requires Fine(c, w)
    ensures !Streams(c, Render(w) + tail)
  {
    assert Render(w) + tail == HeadOf(w) + (w.body + tail);
    if |w.body| <= c.maxBody {
      HeadOfWritten(w, w.body + tail, c.maxBody);
    } else {
      OversizeRefused(w, w.body + tail, true, c.maxBody);
    }
  }

  lemma OversizeFails(w: Written, tail: Bytes.Bytes, flag: bool, acc: seq<Request>, maxBody: nat)
    requires WellFormed(w) && |w.body| > maxBody
    ensures Drain(Loop(Render(w) + tail, flag, acc), maxBody) == Failed(ContentLengthExceedsMaximum, acc)
  {
    var b := Render(w) + tail;
    assert b == HeadOf(w) + (w.body + tail);
    OversizeRefused(w, w.body + tail, flag || Bytes.Contains(b, MARKER), maxBody);
  }

  /** The events of a batch: everything dispatched, or an error in front of what precedes the first long request. */
  ghost function BatchEvents(ws: seq<Written>, maxBody: nat): seq<Event> {
    var n := Accepted(ws, maxBody);
    (if n < |ws| then [Reject(ContentLengthExceedsMaximum)] else [])
    + Dispatches(Framing.Requests(Framing.MessagesOf(ws[..n])))
  }

  lemma DrainBatch(c: Config, before: seq<Written>, behind: seq<Written>, b: Bytes.Bytes)
    requires AllFine(c, before) && AllFine(c, behind) && forall w <- before :: |w.body| <= c.maxBody
    requires behind != [] ==> |behind[0].body| > c.maxBody
    requires b == Framing.Stream(Framing.MessagesOf(before)) + Framing.Stream(Framing.MessagesOf(behind))
    ensures var batch := Framing.Requests(Framing.MessagesOf(before));
            Drain(Loop(b, Bytes.Contains(b, MARKER), []), c.maxBody) ==
            if behind == [] then Waiting([], batch) else Failed(ContentLengthExceedsMaximum, batch)
  {
    var ms, rest := Framing.MessagesOf(before), Framing.Stream(Framing.MessagesOf(behind));
    var batch := Framing.Requests(ms);
    AcceptedFrame(c, before);
    Framing.DrainThen(Framing.DrainerOf(c.maxBody), ms, rest, Bytes.Contains(b, MARKER), []);
    assert [] + batch == batch;
    if behind != [] {
      assert behind[0] in behind;
      assert rest == Render(behind[0]) + Framing.Stream(Framing.MessagesOf(behind)[1..]);
      OversizeFails(behind[0], Framing.Stream(Framing.MessagesOf(behind)[1..]), Bytes.Contains(b, MARKER), batch, c.maxBody);
    }
  }

  lemma SplitBatch(ws: seq<Written>, n: nat)
    requires n <= |ws|
    ensures Framing.Stream(Framing.MessagesOf(ws)) ==
            Framing.Stream(Framing.MessagesOf(ws[..n])) + Framing.Stream(Framing.MessagesOf(ws[n..]))
  {
    var ms := Framing.MessagesOf(ws);
    assert ms[..n] == Framing.MessagesOf(ws[..n]) && ms[n..] == Framing.MessagesOf(ws[n..]);
    Framing.StreamSplits(ms, n);
  }

  lemma BatchNotStreamed(c: Config, ws: seq<Written>)
    requires AllFine(c, ws) && ws != []
    ensures !Streams(c, Framing.Stream(Framing.MessagesOf(ws)))
  {
    var ms := Framing.MessagesOf(ws);
    assert ws[0] in ws && ms[0] == Framing.MessageOf(ws[0]);
    assert Framing.Stream(ms) == Render(ws[0]) + Framing.Stream(ms[1..]);
    FrontNotStreamed(c, ws[0], Framing.Stream(ms[1..]));
  }

  /** A read after which the buffer holds a batch of whole requests. */
  lemma BatchArrives(c: Config, s: State, read: Bytes.Bytes, ws: seq<Written>)
    requires AllFine(c, ws) && ws != [] && s.status == Open
    requires s.buffer + read == Framing.Stream(Framing.MessagesOf(ws)) && |s.buffer + read| <= c.capacity
    ensures Feed(c, s, read) == State([], s.events + BatchEvents(ws, c.maxBody), Open)
  {
    var n, b := Accepted(ws, c.maxBody), s.buffer + read;
    var before, behind := ws[..n], ws[n..];
    assert forall w <- before :: w in ws;
    assert forall w <- behind :: w in ws;
    SplitBatch(ws, n);
    DrainBatch(c, before, behind, b);
    BatchNotStreamed(c, ws);
    AcceptedFrame(c, before);
    Framing.OneRead(c, s, read, b, Drain(Loop(b, Bytes.Contains(b, MARKER), []), c.maxBody));
    BatchSettles(c.kind, s.events, ws, c.maxBody);
  }

  lemma BatchSettles(kind: Request -> Kind, events: seq<Event>, ws: seq<Written>, maxBody: nat)
    requires NoUpgrade(kind, Framing.Requests(Framing.MessagesOf(ws[..Accepted(ws, maxBody)])))
    ensures var n := Accepted(ws, maxBody);
            var batch := Framing.Requests(Framing.MessagesOf(ws[..n]));
            Settle(kind, events, if ws[n..] == [] then Waiting([], batch) else Failed(ContentLengthExceedsMaximum, batch)) ==
            State([], events + BatchEvents(ws, maxBody), Open)
  {
    var n := Accepted(ws, maxBody);
    var batch := Framing.Requests(Framing.MessagesOf(ws[..n]));
    var error := [Reject(ContentLengthExceedsMaximum)];
    HandOutAll(kind, State([], events, Open), batch);
    HandOutAll(kind, State([], events + error, Open), batch);
    assert [] + Dispatches(batch) == Dispatches(batch);
    assert events + error + Dispatches(batch) == events + (error + Dispatches(batch));
    assert ws[n..] == [] <==> n == |ws|;
  }

  function EventOf(w: Written, maxBody: nat): Event {
    if |w.body| <= maxBody then Dispatch(RequestOf(w)) else Reject(ContentLengthExceedsMaximum)
  }

  /** Where in the batch's events the `i`-th request's is. */
  function EventIndex(ws: seq<Written>, maxBody: nat, i: nat): nat {
    var n := Accepted(ws, maxBody);
    if i == n then 0 else if n < |ws| then i + 1 else i
  }

  /** Every request up to the first long one has its event, and there are no others. */
  lemma EventsOfBatch(ws: seq<Written>, maxBody: nat, i: nat)
    requires i < |ws| && i <= Accepted(ws, maxBody)
    ensures var events := BatchEvents(ws, maxBody);
            && EventIndex(ws, maxBody, i) < |events|
            && events[EventIndex(ws, maxBody, i)] == EventOf(ws[i], maxBody)
    ensures |BatchEvents(ws, maxBody)| == Accepted(ws, maxBody) + if Accepted(ws, maxBody) < |ws| then 1 else 0
  {
  }

  /** The text in ASCII bytes. */
  predicate SameText(b: Bytes.Bytes, text: string) {
    |b| == |text| && forall i :: 0 <= i < |text| ==> b[i] as char == text[i]
  }

  lemma TextIs(b: Bytes.Bytes, text: string)
    requires SameText(b, text)
    ensures Text(b) == text
  {
  }

  /** The request is for the pattern and method that the `j`-th route of the `i`-th group was the last to register. */
  ghost predicate Meets(groups: seq<Group>, site: Site, w: Written, i: nat, j: nat, pattern: seq<Segment>, verb: string) {
    && SameText(w.verb, verb) && !(site.cors && verb == "OPTIONS") && site.kind(RequestOf(w)).Routed?
    && Best(TableOf(groups), pattern, LookupSegments(site.pathOf(w.target)))
    && RegistersLast(groups, i, j, pattern, if verb == "HEAD" then "GET" else verb)
  }

  /** It is found, with that route's handler and that group's limit, and with its segments under the pattern's names. */
  lemma MeetsFinds(groups: seq<Group>, site: Site, w: Written, i: nat, j: nat, pattern: seq<Segment>, verb: string)
    requires Build(TableOf(groups)) == Some(site.tree) && Meets(groups, site, w, i, j, pattern, verb)
    ensures Lookup(site, w).Found? && Lookup(site, w).handler == groups[i].routes[j].handler && Lookup(site, w).limit == groups[i].limit
    ensures AllDistinctNames(TableOf(groups)) ==> Binds(pattern, LookupSegments(site.pathOf(w.target)), Lookup(site, w).params)
  {
    var path, table, asked := LookupSegments(site.pathOf(w.target)), TableOf(groups), if verb == "HEAD" then "GET" else verb;
    TextIs(w.verb, verb);
    FindIsScan(table, site.tree, path, asked);
    BuildSucceedsIff(table);
    ScanIs(table, pattern, path);
    LastRegistrationCounts(groups, i, j, pattern, asked);
    if AllDistinctNames(table) {
      FoundBinds(table, site.tree, path, asked);
    }
  }

  /** The parser's limit is beside the point as long as it is no less than the route's. */
  lemma AnswerIs(site: Site, w: Written, maxBody: nat, verb: string, found: RouteMatch, limit: nat)
    requires Text(w.verb) == verb && site.kind(RequestOf(w)).Routed? && !(site.cors && verb == "OPTIONS")
    requires Lookup(site, w) == found && found.Found? && limit == found.limit.GetOr(site.global) <= maxBody
    ensures AnswerTo(EventOf(w, maxBody), site) == if |w.body| <= limit then Enter(found.handler, found.params) else Status(413)
  {
  }

  /** Within the limit, the group's if it has one, it enters the handler with its segments under the pattern's names; else it is 413. */
  ghost predicate Served(a: Answer, groups: seq<Group>, site: Site, w: Written, i: nat, j: nat, pattern: seq<Segment>)
    requires i < |groups| && j < |groups[i].routes|
  {
    if |w.body| <= (match groups[i].limit case Some(limit) => limit case None => site.global) then
      && a.Enter? && a.handler == groups[i].routes[j].handler
      && (AllDistinctNames(TableOf(groups)) ==> Binds(pattern, LookupSegments(site.pathOf(w.target)), a.params))
    else a == Status(413)
  }

  /** Parser and route agree: the request enters exactly when it keeps the limit of the route it is on. */
  lemma AnswerKeepsLimit(groups: seq<Group>, site: Site, w: Written, i: nat, j: nat, pattern: seq<Segment>, verb: string)
    requires Build(TableOf(groups)) == Some(site.tree) && Meets(groups, site, w, i, j, pattern, verb)
    ensures Served(AnswerTo(EventOf(w, MaxSeen(groups, site.global)), site), groups, site, w, i, j, pattern)
  {
    MeetsFinds(groups, site, w, i, j, pattern, verb);
    TextIs(w.verb, verb);
    var found, maxBody := Lookup(site, w), MaxSeen(groups, site.global);
    LimitCovered(groups, site, w);
    AnswerIs(site, w, maxBody, verb, found, found.limit.GetOr(site.global));
  }

  lemma LimitCovered(groups: seq<Group>, site: Site, w: Written)
    requires Build(TableOf(groups)) == Some(site.tree) && Lookup(site, w).Found?
    ensures Lookup(site, w).limit.GetOr(site.global) <= MaxSeen(groups, site.global)
  {
    ParserCoversLimits(groups, site.global);
    FindWithin(site.tree, LookupSegments(site.pathOf(w.target)), LookupVerb(Text(w.verb)), MaxSeen(groups, site.global));
  }

  /**
    With the parser's limit that `initialize_routes` computes, in a batch of whole requests: each one that
    gets to a route, up to and including the first that is too long for the parser, enters the handler of
    the route that registered its pattern and method last, exactly when its body keeps the limit of that
    route's group, or the global one if the group has none; it is answered 413 otherwise, be it by the
    parser or by the route.
  */
  lemma BodyLimitCoherence(groups: seq<Group>, site: Site, c: Config, s: State, read: Bytes.Bytes, ws: seq<Written>, n: nat,
                           i: nat, j: nat, pattern: seq<Segment>, verb: string)
    requires Build(TableOf(groups)) == Some(site.tree) && c.maxBody == MaxSeen(groups, site.global) && c.kind == site.kind
    requires AllFine(c, ws) && s.status == Open
    requires s.buffer + read == Framing.Stream(Framing.MessagesOf(ws)) && |s.buffer + read| <= c.capacity
    requires n < |ws| && n <= Accepted(ws, c.maxBody) && Meets(groups, site, ws[n], i, j, pattern, verb)
    ensures var at := |s.events| + EventIndex(ws, c.maxBody, n);
            && at < |Feed(c, s, read).events|
            && Served(AnswerTo(Feed(c, s, read).events[at], site), groups, site, ws[n], i, j, pattern)
  {
    AnswerKeepsLimit(groups, site, ws[n], i, j, pattern, verb);
    BatchArrives(c, s, read, ws);
    EventPlaced(s.events, BatchEvents(ws, c.maxBody), ws, c.maxBody, n);
  }

  lemma EventPlaced(events: seq<Event>, batch: seq<Event>, ws: seq<Written>, maxBody: nat, n: nat)
    requires batch == BatchEvents(ws, maxBody) && n < |ws| && n <= Accepted(ws, maxBody)
    ensures var at := |events| + EventIndex(ws, maxBody, n);
            at < |events + batch| && (events + batch)[at] == EventOf(ws[n], maxBody)
  {
    EventsOfBatch(ws, maxBody, n);
    Behind(events, batch, EventIndex(ws, maxBody, n));
  }

  lemma Behind(events: seq<Event>, more: seq<Event>, k: nat)
    requires k < |more|
    ensures (events + more)[|events| + k] == more[k]
  {
  }

  /** The answers without a handler: for whom, and with which status. */
  lemma AnswersWithoutHandler(table: seq<Registration>, site: Site, r: Request)
    requires Build(table) == Some(site.tree) && r.metadata.Some? && site.kind(r).Routed?
    ensures var path, verb := LookupSegments(site.pathOf(r.metadata.value.target)), Text(r.metadata.value.verb);
            var preflight := verb == "OPTIONS" && site.cors;
            var a := AnswerTo(Dispatch(r), site);
            && (a == Status(204) <==> preflight)
            && (a == Status(404) <==> !preflight && forall q <- table :: !Matches(q.pattern, path))
            && (a == Status(405) <==> !preflight && exists p ::
                  Best(table, p, path) && forall q <- table :: !(q.pattern == p && q.verb == if verb == "HEAD" then "GET" else verb))
            && (a.Status? ==> a.code in {204, 404, 405, 413})
  {
    var path, verb := LookupSegments(site.pathOf(r.metadata.value.target)), Text(r.metadata.value.verb);
    var asked := if verb == "HEAD" then "GET" else verb;
    FindIsScan(table, site.tree, path, asked);
    BuildSucceedsIff(table);
    ScanFindsBest(table, path);
    if Scan(table, path).Some? {
      LastEntryExists(table, Scan(table, path).value, asked);
      forall p | Best(table, p, path) ensures p == Scan(table, path).value {
        ScanIs(table, p, path);
      }
    }
  }

  /** The answers to what was refused before the routes: 413 for what is too long, 400 for the rest. */
  lemma AnswersToRefused(e: ParseError, payload: Bytes.Bytes, site: Site)
    ensures AnswerTo(Overflow, site) == Status(413) && AnswerTo(Dispatch(Request(None, payload)), site) == Status(400)
    ensures AnswerTo(Reject(e), site) == Status(if e in {ContentLengthExceedsMaximum, ChunkSizeExceedsMaximum} then 413 else 400)
  {
  }

  /** A handler registered for HEAD is never entered: the lookup asks for GET. */
  lemma HeadHandlersAreDead(table: seq<Registration>, tree: Route, global: nat, cors: bool, verb: string, path: string, length: nat)
    requires Build(table) == Some(tree)
    requires Resolve(tree, global, cors, verb, path, length).Enter?
    ensures exists r <- table :: r.verb == LookupVerb(verb) != "HEAD" && r.entry.handler == Resolve(tree, global, cors, verb, path, length).handler
  {
    var segments := LookupSegments(path);
    FindIsScan(table, tree, segments, LookupVerb(verb));
    var p := Scan(table, segments).value;
    LastEntryExists(table, p, LookupVerb(verb));
  }
}
