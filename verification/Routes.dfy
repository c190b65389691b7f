/**
  The routing trie (engine/src/core/routes.rs) as a value, and the route table it stands for.
  The class in RouteTree.dfy builds and searches the same trie in place.
*/
module Routes {
  import opened Wrappers

  type Handler(==, !new)

  type Segment = string

  datatype Entry = Entry(handler: Handler, limit: Option<nat>)

  datatype Route = Route(statics: map<Segment, Route>, dynamic: Option<Dynamic>, handlers: map<string, Entry>)

  datatype Dynamic = Dynamic(name: string, route: Route)

  const EMPTY := Route(map[], None, map[])

  /** A pattern segment that stands for any path segment. */
  predicate Dyn(s: Segment) {
    |s| > 0 && s[0] == ':'
  }

  function NameOf(s: Segment): string
    requires Dyn(s)
  {
    s[1..]
  }

  // ----- paths -----

  /** `split("/")` */
  function SplitSlash(path: string): (pieces: seq<string>)
    ensures |pieces| > 0
  {
    if path == "" then [""]
    else
      var rest := SplitSlash(path[1..]);
      if path[0] == '/' then [""] + rest else [[path[0]] + rest[0]] + rest[1..]
  }

  function NonEmpty(pieces: seq<string>): seq<Segment> {
    if pieces == [] then [] else (if pieces[0] == "" then [] else [pieces[0]]) + NonEmpty(pieces[1..])
  }

  predicate DotSegment(s: Segment) {
    s == "." || s == ".."
  }

  function WithoutDots(pieces: seq<Segment>): seq<Segment> {
    if pieces == [] then [] else (if DotSegment(pieces[0]) then [] else [pieces[0]]) + WithoutDots(pieces[1..])
  }

  function PatternSegments(path: string): seq<Segment> {
    NonEmpty(SplitSlash(path))
  }

  /** A looked-up path also loses its dot segments; a registered one does not. */
  function LookupSegments(path: string): seq<Segment> {
    WithoutDots(NonEmpty(SplitSlash(path)))
  }

  function PathOf(segments: seq<Segment>): string {
    if segments == [] then "" else "/" + segments[0] + PathOf(segments[1..])
  }

  lemma {:induction false} SplitAtSlash(s: Segment, rest: string)
    requires '/' !in s && (rest == "" || rest[0] == '/')
    ensures SplitSlash(s + rest) == [s] + SplitSlash(rest)[1..]
  {
    if s == "" {
      assert s + rest == rest;
    } else {
      assert (s + rest)[1..] == s[1..] + rest;
      SplitAtSlash(s[1..], rest);
      assert s == [s[0]] + s[1..];
    }
  }

  lemma {:induction false} SplitPathOf(segments: seq<Segment>)
    requires forall s <- segments :: '/' !in s
    ensures SplitSlash(PathOf(segments)) == [""] + segments
  {
    if segments != [] {
      var s, rest := segments[0], PathOf(segments[1..]);
      assert s in segments && forall t <- segments[1..] :: t in segments;
      SplitPathOf(segments[1..]);
      SplitAtSlash(s, rest);
      assert ([""] + segments[1..])[1..] == segments[1..];
      SplitBehindSlash(s + rest);
      assert "/" + s + rest == "/" + (s + rest);
      assert segments == [s] + segments[1..];
    }
  }

  lemma SplitBehindSlash(rest: string)
    ensures SplitSlash("/" + rest) == [""] + SplitSlash(rest)
  {
    assert ("/" + rest)[1..] == rest;
  }

  lemma {:induction false} NothingDropped(segments: seq<Segment>)
    ensures (forall s <- segments :: s != "") ==> NonEmpty(segments) == segments
    ensures (forall s <- segments :: !DotSegment(s)) ==> WithoutDots(segments) == segments
  {
    if segments != [] {
      assert segments == [segments[0]] + segments[1..];
      assert segments[0] in segments && forall t <- segments[1..] :: t in segments;
      NothingDropped(segments[1..]);
    }
  }

  /** A path written from its segments is taken apart into the same segments. */
  lemma PathRoundTrip(segments: seq<Segment>)
    requires forall s <- segments :: s != "" && '/' !in s
    ensures PatternSegments(PathOf(segments)) == segments
    ensures (forall s <- segments :: !DotSegment(s)) ==> LookupSegments(PathOf(segments)) == segments
  {
    SplitPathOf(segments);
    NothingDropped(segments);
    assert ([""] + segments)[1..] == segments;
    assert NonEmpty([""] + segments) == NonEmpty(segments);
  }

  lemma {:induction false} NoDotsLeft(pieces: seq<Segment>)
    ensures forall s <- WithoutDots(pieces) :: !DotSegment(s)
  {
    if pieces != [] {
      NoDotsLeft(pieces[1..]);
    }
  }

  function JoinSlash(pieces: seq<string>): string
    requires |pieces| > 0
  {
    if |pieces| == 1 then pieces[0] else pieces[0] + "/" + JoinSlash(pieces[1..])
  }

  /** The pieces without those in `drop`. */
  function Kept(pieces: seq<string>, drop: set<string>): seq<string> {
    if pieces == [] then [] else (if pieces[0] in drop then [] else [pieces[0]]) + Kept(pieces[1..], drop)
  }

  /** Every path is made of pieces without a slash. */
  lemma {:induction false} PathIsJoined(path: string)
    ensures JoinSlash(SplitSlash(path)) == path && forall p <- SplitSlash(path) :: '/' !in p
  {
    if path != "" {
      var rest := SplitSlash(path[1..]);
      PathIsJoined(path[1..]);
      assert path == [path[0]] + path[1..];
      if path[0] != '/' {
        assert SplitSlash(path)[1..] == rest[1..] && rest == [rest[0]] + rest[1..];
      } else {
        assert SplitSlash(path)[1..] == rest;
      }
    }
  }

  lemma {:induction false} SplitJoined(pieces: seq<string>)
    requires |pieces| > 0 && forall p <- pieces :: '/' !in p
    ensures SplitSlash(JoinSlash(pieces)) == pieces
  {
    assert pieces[0] in pieces && forall p <- pieces[1..] :: p in pieces;
    if |pieces| == 1 {
      SplitAtSlash(pieces[0], "");
      assert pieces[0] + "" == pieces[0];
    } else {
      var rest := JoinSlash(pieces[1..]);
      SplitJoined(pieces[1..]);
      SplitAtSlash(pieces[0], "/" + rest);
      SplitBehindSlash(rest);
      assert pieces[0] + "/" + rest == pieces[0] + ("/" + rest);
    }
  }

  lemma {:induction false} KeptIs(pieces: seq<string>)
    ensures NonEmpty(pieces) == Kept(pieces, {""})
    ensures WithoutDots(NonEmpty(pieces)) == Kept(pieces, {"", ".", ".."})
  {
    if pieces != [] {
      var rest := NonEmpty(pieces[1..]);
      KeptIs(pieces[1..]);
      if pieces[0] != "" {
        assert ([pieces[0]] + rest)[1..] == rest;
      } else {
        assert [] + rest == rest;
      }
    }
  }

  /** Whatever the pieces: a registered path loses the empty ones, and a looked-up one the dot segments too. */
  lemma SegmentsOfPath(pieces: seq<string>)
    requires |pieces| > 0 && forall p <- pieces :: '/' !in p
    ensures PatternSegments(JoinSlash(pieces)) == Kept(pieces, {""})
    ensures LookupSegments(JoinSlash(pieces)) == Kept(pieces, {"", ".", ".."})
  {
    SplitJoined(pieces);
    KeptIs(pieces);
  }

  // ----- building -----

  datatype Registration = Registration(pattern: seq<Segment>, verb: string, entry: Entry)

  function ChildAt(r: Route, s: Segment): Route {
    if s in r.statics then r.statics[s] else EMPTY
  }

  /** `None` is the panic on two parameter names in one place. */
  function Insert(r: Route, pattern: seq<Segment>, verb: string, e: Entry): Option<Route>
    decreases |pattern|
  {
    if pattern == [] then Some(r.(handlers := r.handlers[verb := e]))
    else
      var s, rest := pattern[0], pattern[1..];
      if Dyn(s) then
        if r.dynamic.Some? && r.dynamic.value.name != NameOf(s) then None
        else
          match Insert(if r.dynamic.Some? then r.dynamic.value.route else EMPTY, rest, verb, e)
          case None => None
          case Some(child) => Some(r.(dynamic := Some(Dynamic(NameOf(s), child))))
      else
        match Insert(ChildAt(r, s), rest, verb, e)
        case None => None
        case Some(child) => Some(r.(statics := r.statics[s := child]))
  }

  /** The trie after a sequence of insertions. */
  function Build(table: seq<Registration>): Option<Route> {
    if table == [] then Some(EMPTY)
    else
      var last := table[|table| - 1];
      match Build(table[..|table| - 1])
      case None => None
      case Some(r) => Insert(r, last.pattern, last.verb, last.entry)
  }

  // ----- searching -----

  type Params = map<string, Segment>

  /** Backtracking, static branch first; what failed branches wrote into `params` stays there. */
  function Match(r: Route, path: seq<Segment>, params: Params): (Option<Route>, Params)
    decreases |path|
  {
    if path == [] then
      (if r.handlers == map[] then None else Some(r), params)
    else
      var byStatic := if path[0] in r.statics then Match(r.statics[path[0]], path[1..], params) else (None, params);
      if byStatic.0.Some? then byStatic
      else
        match r.dynamic
        case None => byStatic
        case Some(d) => Match(d.route, path[1..], byStatic.1[d.name := path[0]])
  }

  datatype RouteMatch =
    | Found(handler: Handler, params: Params, limit: Option<nat>)
    | WrongMethod
    | NotFound

  function Find(r: Route, path: seq<Segment>, verb: string): RouteMatch {
    match Match(r, path, map[])
    case (None, _) => NotFound
    case (Some(node), params) =>
      if verb in node.handlers then Found(node.handlers[verb].handler, params, node.handlers[verb].limit) else WrongMethod
  }

  // ----- the table -----

  predicate Matches(pattern: seq<Segment>, path: seq<Segment>) {
    if pattern == [] || path == [] then pattern == [] && path == []
    else (Dyn(pattern[0]) || pattern[0] == path[0]) && Matches(pattern[1..], path[1..])
  }

  /** Static before dynamic, at the first place from the left where the two differ in kind. */
  predicate Precedes(p: seq<Segment>, q: seq<Segment>) {
    p != [] && q != [] && if Dyn(p[0]) == Dyn(q[0]) then Precedes(p[1..], q[1..]) else !Dyn(p[0])
  }

  /** Wherever both patterns lead through the same dynamic place, they name it alike. */
  predicate Compatible(p: seq<Segment>, q: seq<Segment>) {
    p == [] || q == [] ||
    if Dyn(p[0]) && Dyn(q[0]) then p[0] == q[0] && Compatible(p[1..], q[1..])
    else p[0] == q[0] ==> Compatible(p[1..], q[1..])
  }

  /** A plain scan of the table for the preferred matching pattern. */
  function Scan(table: seq<Registration>, path: seq<Segment>): Option<seq<Segment>> {
    if table == [] then None
    else
      var best, p := Scan(table[..|table| - 1], path), table[|table| - 1].pattern;
      if Matches(p, path) && (best.None? || Precedes(p, best.value)) then Some(p) else best
  }

  /** The last entry registered under a pattern and a verb. */
  function LastEntry(table: seq<Registration>, pattern: seq<Segment>, verb: string): Option<Entry> {
    if table == [] then None
    else
      var last := table[|table| - 1];
      if last.pattern == pattern && last.verb == verb then Some(last.entry)
      else LastEntry(table[..|table| - 1], pattern, verb)
  }

  predicate Best(table: seq<Registration>, p: seq<Segment>, path: seq<Segment>) {
    && (exists r <- table :: r.pattern == p)
    && Matches(p, path)
    && (forall r <- table :: Matches(r.pattern, path) ==> r.pattern == p || Precedes(p, r.pattern))
  }

  ghost predicate NoConflict(table: seq<Registration>) {
    forall r, q | r in table && q in table :: Compatible(r.pattern, q.pattern)
  }

  // ----- laws of the order -----

  lemma {:induction false} PrecedesOnce(p: seq<Segment>, q: seq<Segment>)
    ensures !(Precedes(p, q) && Precedes(q, p))
  {
    if p != [] && q != [] {
      PrecedesOnce(p[1..], q[1..]);
    }
  }

  lemma {:induction false} PrecedesChain(p: seq<Segment>, q: seq<Segment>, r: seq<Segment>)
    requires Precedes(p, q) && Precedes(q, r)
    ensures Precedes(p, r)
  {
    if Dyn(p[0]) == Dyn(q[0]) == Dyn(r[0]) {
      PrecedesChain(p[1..], q[1..], r[1..]);
    }
  }

  /** Two compatible patterns for the same path are one, or one of them is preferred. */
  lemma {:induction false} PrecedesTotal(p: seq<Segment>, q: seq<Segment>, path: seq<Segment>)
    requires Matches(p, path) && Matches(q, path) && Compatible(p, q)
    ensures p == q || Precedes(p, q) || Precedes(q, p)
  {
    if p != [] && Dyn(p[0]) == Dyn(q[0]) {
      PrecedesTotal(p[1..], q[1..], path[1..]);
      assert p == [p[0]] + p[1..] && q == [q[0]] + q[1..];
    }
  }

  /** The scan finds the one best pattern, if any matches. */
  lemma {:induction false} ScanFindsBest(table: seq<Registration>, path: seq<Segment>)
    requires NoConflict(table)
    ensures Scan(table, path).None? <==> forall r <- table :: !Matches(r.pattern, path)
    ensures Scan(table, path).Some? ==> Best(table, Scan(table, path).value, path)
  {
    if table != [] {
      var init, last := table[..|table| - 1], table[|table| - 1];
      assert forall r <- init :: r in table;
      assert last in table;
      assert forall r <- table :: r in init || r == last;
      ScanFindsBest(init, path);
      var best, p := Scan(init, path), last.pattern;
      if Matches(p, path) && best.Some? {
        var r :| r in init && r.pattern == best.value;
        PrecedesTotal(p, best.value, path);
        forall q <- init | Matches(q.pattern, path) && Precedes(p, best.value) ensures Precedes(p, q.pattern) {
          if q.pattern != best.value {
            PrecedesChain(p, best.value, q.pattern);
          }
        }
      }
    }
  }

  lemma {:induction false} MatchesThrough(pattern: seq<Segment>, path: seq<Segment>, s: Segment)
    requires Matches(pattern, path) && s in pattern && !Dyn(s)
    ensures s in path
  {
    if s != pattern[0] {
      MatchesThrough(pattern[1..], path[1..], s);
    }
  }

  /** A pattern registered with a dot segment is never found: lookups drop those from the path. */
  lemma DotPatternUnreachable(pattern: seq<Segment>, path: string, s: Segment)
    requires s in pattern && DotSegment(s)
    ensures !Matches(pattern, LookupSegments(path))
  {
    NoDotsLeft(NonEmpty(SplitSlash(path)));
    if Matches(pattern, LookupSegments(path)) {
      MatchesThrough(pattern, LookupSegments(path), s);
    }
  }

  /** A pattern as registration makes it: no segment is empty or holds a slash. */
  predicate PlainSegments(pattern: seq<Segment>) {
    forall s <- pattern :: s != "" && '/' !in s
  }

  lemma {:induction false} SplitIsSlashFree(path: string)
    ensures forall s <- SplitSlash(path) :: '/' !in s
  {
    if path != "" {
      SplitIsSlashFree(path[1..]);
      assert forall s <- SplitSlash(path)[1..] :: s in SplitSlash(path[1..]);
    }
  }

  lemma {:induction false} NonEmptyKeeps(pieces: seq<string>)
    ensures forall s <- NonEmpty(pieces) :: s != "" && s in pieces
  {
    if pieces != [] {
      NonEmptyKeeps(pieces[1..]);
    }
  }

  lemma RegisteredIsPlain(path: string)
    ensures PlainSegments(PatternSegments(path))
  {
    SplitIsSlashFree(path);
    NonEmptyKeeps(SplitSlash(path));
  }

  /** The pattern's static segments, with another one in each dynamic place. */
  function Filled(pattern: seq<Segment>, filler: nat -> Segment): seq<Segment> {
    seq(|pattern|, i requires 0 <= i < |pattern| => if Dyn(pattern[i]) then filler(i) else pattern[i])
  }

  lemma {:induction false} MatchesPointwise(pattern: seq<Segment>, path: seq<Segment>)
    requires |pattern| == |path| && forall i | 0 <= i < |pattern| :: Dyn(pattern[i]) || pattern[i] == path[i]
    ensures Matches(pattern, path)
  {
    if pattern != [] {
      MatchesPointwise(pattern[1..], path[1..]);
    }
  }

  /** Some path leads to a registered pattern exactly when it has no dot segment. */
  lemma ReachableIffDotFree(pattern: seq<Segment>)
    requires PlainSegments(pattern)
    ensures (exists path :: Matches(pattern, LookupSegments(path))) <==> forall s <- pattern :: !DotSegment(s)
  {
    if forall s <- pattern :: !DotSegment(s) {
      var segments := Filled(pattern, _ => "x");
      forall s <- segments ensures s != "" && '/' !in s && !DotSegment(s) {
        var i :| 0 <= i < |segments| && segments[i] == s;
        assert pattern[i] in pattern;
      }
      PathRoundTrip(segments);
      MatchesPointwise(pattern, segments);
      assert Matches(pattern, LookupSegments(PathOf(segments)));
    } else {
      var s :| s in pattern && DotSegment(s);
      forall path ensures !Matches(pattern, LookupSegments(path)) {
        DotPatternUnreachable(pattern, path, s);
      }
    }
  }

  lemma BestIsUnique(table: seq<Registration>, p: seq<Segment>, q: seq<Segment>, path: seq<Segment>)
    requires Best(table, p, path) && Best(table, q, path)
    ensures p == q
  {
    PrecedesOnce(p, q);
  }

  lemma ScanIs(table: seq<Registration>, p: seq<Segment>, path: seq<Segment>)
    requires NoConflict(table) && Best(table, p, path)
    ensures Scan(table, path) == Some(p)
  {
    ScanFindsBest(table, path);
    BestIsUnique(table, p, Scan(table, path).value, path);
  }

  // ----- the trie below one segment -----

  predicate Leads(r: Registration, s: Segment) {
    r.pattern != [] && r.pattern[0] == s
  }

  function Tail(r: Registration): Registration
    requires r.pattern != []
  {
    r.(pattern := r.pattern[1..])
  }

  /** The part of the table that starts with a segment, without it. */
  function Under(table: seq<Registration>, s: Segment): seq<Registration> {
    if table == [] then []
    else
      var last := table[|table| - 1];
      Under(table[..|table| - 1], s) + if Leads(last, s) then [Tail(last)] else []
  }

  lemma {:induction false} InUnder(table: seq<Registration>, s: Segment)
    ensures forall r <- table :: Leads(r, s) ==> Tail(r) in Under(table, s)
    ensures forall r <- Under(table, s) :: Above(r, s) in table
    ensures |Under(table, s)| <= |table|
  {
    if table != [] {
      var init, last := table[..|table| - 1], table[|table| - 1];
      InUnder(init, s);
      forall r <- Under(table, s) ensures Above(r, s) in table {
        if r in Under(init, s) {
          assert Above(r, s) in init;
        } else {
          assert Above(r, s).pattern == last.pattern;
        }
      }
    }
  }

  function Above(r: Registration, s: Segment): Registration {
    r.(pattern := [s] + r.pattern)
  }

  /** The trie stands for its table one level down: each child is built from the part under its segment. */
  ghost predicate Represents(r: Route, table: seq<Registration>) {
    && (forall s <- r.statics :: !Dyn(s))
    && (forall s | !Dyn(s) :: StaticBelow(r, table, s))
    && (forall s | Dyn(s) :: DynamicBelow(r, table, s))
    && (forall verb :: HandlerHere(r, table, verb))
  }

  ghost predicate StaticBelow(r: Route, table: seq<Registration>, s: Segment) {
    (s in r.statics <==> Under(table, s) != []) && Build(Under(table, s)) == Some(ChildAt(r, s))
  }

  ghost predicate DynamicBelow(r: Route, table: seq<Registration>, s: Segment)
    requires Dyn(s)
  {
    && (Under(table, s) != [] <==> r.dynamic.Some? && r.dynamic.value.name == NameOf(s))
    && (Under(table, s) != [] ==> Build(Under(table, s)) == Some(r.dynamic.value.route))
  }

  ghost predicate HandlerHere(r: Route, table: seq<Registration>, verb: string) {
    var e := LastEntry(table, [], verb);
    (verb in r.handlers <==> e.Some?) && (e.Some? ==> r.handlers[verb] == e.value)
  }

  lemma UnderLast(init: seq<Registration>, last: Registration, s: Segment)
    ensures Under(init + [last], s) == Under(init, s) + if Leads(last, s) then [Tail(last)] else []
  {
    assert (init + [last])[..|init|] == init;
  }

  lemma BuildLast(init: seq<Registration>, last: Registration)
    ensures Build(init + [last]) ==
            match Build(init) case None => None case Some(r) => Insert(r, last.pattern, last.verb, last.entry)
  {
    assert (init + [last])[..|init|] == init;
  }

  lemma {:induction false} BuildRepresents(table: seq<Registration>)
    requires Build(table).Some?
    ensures Represents(Build(table).value, table)
  {
    if table != [] {
      var init, last := table[..|table| - 1], table[|table| - 1];
      assert table == init + [last];
      BuildRepresents(init);
      InsertRepresents(Build(init).value, Build(table).value, init, last);
    }
  }

  ghost predicate Inserted(r: Route, r': Route, reg: Registration) {
    Insert(r, reg.pattern, reg.verb, reg.entry) == Some(r')
  }

  lemma InsertRepresents(r: Route, r': Route, init: seq<Registration>, last: Registration)
    requires Represents(r, init) && Inserted(r, r', last)
    ensures Represents(r', init + [last])
  {
    forall s <- r'.statics ensures !Dyn(s) {
      if Dyn(s) { NoDynamicKey(r, r', last, s); }
    }
    forall s | !Dyn(s) ensures StaticBelow(r', init + [last], s) {
      assert StaticBelow(r, init, s);
      StaticStep(r, r', init, last, s);
    }
    forall s | Dyn(s) ensures DynamicBelow(r', init + [last], s) {
      assert DynamicBelow(r, init, s);
      DynamicStep(r, r', init, last, s);
    }
    forall verb ensures HandlerHere(r', init + [last], verb) {
      assert HandlerHere(r, init, verb);
      HandlerStep(r, r', init, last, verb);
    }
  }

  lemma NoDynamicKey(r: Route, r': Route, last: Registration, s: Segment)
    requires Inserted(r, r', last) && Dyn(s)
    ensures s in r'.statics <==> s in r.statics
  {
  }

  lemma HandlerStep(r: Route, r': Route, init: seq<Registration>, last: Registration, verb: string)
    requires HandlerHere(r, init, verb) && Inserted(r, r', last)
    ensures HandlerHere(r', init + [last], verb)
  {
    assert (init + [last])[..|init|] == init;
  }

  /** One insertion touches the child under the pattern's first segment only. */
  lemma InsertChild(r: Route, pattern: seq<Segment>, verb: string, e: Entry, s: Segment)
    requires !Dyn(s) && Insert(r, pattern, verb, e).Some?
    ensures var r' := Insert(r, pattern, verb, e).value;
            if pattern != [] && pattern[0] == s then
              s in r'.statics && Insert(ChildAt(r, s), pattern[1..], verb, e) == Some(ChildAt(r', s))
            else
              (s in r'.statics <==> s in r.statics) && ChildAt(r', s) == ChildAt(r, s)
  {
  }

  lemma StaticStep(r: Route, r': Route, init: seq<Registration>, last: Registration, s: Segment)
    requires !Dyn(s) && StaticBelow(r, init, s) && Inserted(r, r', last)
    ensures StaticBelow(r', init + [last], s)
  {
    UnderLast(init, last, s);
    InsertChild(r, last.pattern, last.verb, last.entry, s);
    if Leads(last, s) {
      BuildLast(Under(init, s), Tail(last));
    } else {
      assert Under(init, s) + [] == Under(init, s);
    }
  }

  lemma DynamicStep(r: Route, r': Route, init: seq<Registration>, last: Registration, s: Segment)
    requires Dyn(s) && DynamicBelow(r, init, s) && Inserted(r, r', last)
    requires r.dynamic.Some? ==> DynamicBelow(r, init, [':'] + r.dynamic.value.name)
    ensures DynamicBelow(r', init + [last], s)
  {
    UnderLast(init, last, s);
    if Leads(last, s) {
      BuildLast(Under(init, s), Tail(last));
    } else {
      assert Under(init, s) + [] == Under(init, s);
      if last.pattern != [] && Dyn(last.pattern[0]) {
        assert s == [':'] + NameOf(s) && last.pattern[0] == [':'] + NameOf(last.pattern[0]);
      }
    }
  }

  // ----- which tables can be built -----

  lemma {:induction false} CompatibleBothWays(p: seq<Segment>, q: seq<Segment>)
    ensures Compatible(p, q) <==> Compatible(q, p)
  {
    if p != [] && q != [] {
      CompatibleBothWays(p[1..], q[1..]);
    }
  }

  lemma {:induction false} CompatibleWithItself(p: seq<Segment>)
    ensures Compatible(p, p)
  {
    if p != [] {
      CompatibleWithItself(p[1..]);
    }
  }

  ghost predicate AllCompatible(table: seq<Registration>, p: seq<Segment>) {
    forall r <- table :: Compatible(r.pattern, p)
  }

  /** Below a segment two patterns fit together when they do with the segment in front. */
  lemma CompatibleUnder(table: seq<Registration>, p: seq<Segment>)
    requires p != []
    requires Dyn(p[0]) ==> forall r <- table :: r.pattern != [] && Dyn(r.pattern[0]) ==> r.pattern[0] == p[0]
    ensures AllCompatible(Under(table, p[0]), p[1..]) <==> AllCompatible(table, p)
  {
    var s := p[0];
    InUnder(table, s);
    if AllCompatible(Under(table, s), p[1..]) {
      forall r <- table ensures Compatible(r.pattern, p) {
        if Leads(r, s) {
          assert Compatible(Tail(r).pattern, p[1..]);
        }
      }
    }
    if AllCompatible(table, p) {
      forall r <- Under(table, s) ensures Compatible(r.pattern, p[1..]) {
        assert Compatible(Above(r, s).pattern, p);
        assert Above(r, s).pattern[1..] == r.pattern;
      }
    }
  }

  /** An insertion panics exactly when the pattern clashes with one in the table. */
  lemma {:induction false} InsertSucceedsIff(table: seq<Registration>, r: Route, p: seq<Segment>, verb: string, e: Entry)
    requires Build(table) == Some(r)
    ensures Insert(r, p, verb, e).Some? <==> AllCompatible(table, p)
    decreases |p|
  {
    if p != [] {
      BuildRepresents(table);
      var s := p[0];
      InUnder(table, s);
      if !Dyn(s) {
        assert StaticBelow(r, table, s);
        InsertSucceedsIff(Under(table, s), ChildAt(r, s), p[1..], verb, e);
        CompatibleUnder(table, p);
      } else if r.dynamic.Some? && r.dynamic.value.name != NameOf(s) {
        ClashingName(table, r, p);
      } else {
        assert DynamicBelow(r, table, s);
        var child := if r.dynamic.Some? then r.dynamic.value.route else EMPTY;
        InsertSucceedsIff(Under(table, s), child, p[1..], verb, e);
        OneName(table, r, s);
        CompatibleUnder(table, p);
      }
    }
  }

  lemma NameAtTop(table: seq<Registration>, r: Route, q: Registration)
    requires q in table && q.pattern != [] && Dyn(q.pattern[0]) && DynamicBelow(r, table, q.pattern[0])
    ensures r.dynamic.Some? && q.pattern[0] == [':'] + r.dynamic.value.name
  {
    InUnder(table, q.pattern[0]);
    assert Leads(q, q.pattern[0]) && Tail(q) in Under(table, q.pattern[0]);
    assert q.pattern[0] == [':'] + NameOf(q.pattern[0]);
  }

  /** All patterns that start dynamically start with the name the trie holds. */
  lemma OneName(table: seq<Registration>, r: Route, s: Segment)
    requires Represents(r, table) && Dyn(s) && (r.dynamic.Some? ==> r.dynamic.value.name == NameOf(s))
    ensures forall q <- table :: q.pattern != [] && Dyn(q.pattern[0]) ==> r.dynamic.Some? && q.pattern[0] == s
  {
    assert s == [':'] + NameOf(s);
    forall q <- table | q.pattern != [] && Dyn(q.pattern[0]) ensures r.dynamic.Some? && q.pattern[0] == s {
      NameAtTop(table, r, q);
    }
  }

  lemma ClashingName(table: seq<Registration>, r: Route, p: seq<Segment>)
    requires Represents(r, table) && p != [] && Dyn(p[0])
    requires r.dynamic.Some? && r.dynamic.value.name != NameOf(p[0])
    ensures !AllCompatible(table, p)
  {
    var s := [':'] + r.dynamic.value.name;
    assert NameOf(s) == r.dynamic.value.name;
    assert DynamicBelow(r, table, s);
    InUnder(table, s);
    var q := Above(Under(table, s)[0], s);
    assert Under(table, s)[0] in Under(table, s);
    assert q in table && !Compatible(q.pattern, p);
  }

  /** Building never panics exactly when all the patterns fit together, whatever the order. */
  lemma {:induction false} BuildSucceedsIff(table: seq<Registration>)
    ensures Build(table).Some? <==> NoConflict(table)
  {
    if table != [] {
      var init, last := table[..|table| - 1], table[|table| - 1];
      BuildSucceedsIff(init);
      assert last in table && forall r <- table :: r in init || r == last;
      assert forall r <- init :: r in table;
      CompatibleWithItself(last.pattern);
      forall r <- init ensures Compatible(r.pattern, last.pattern) <==> Compatible(last.pattern, r.pattern) {
        CompatibleBothWays(r.pattern, last.pattern);
      }
      if Build(init).Some? {
        InsertSucceedsIff(init, Build(init).value, last.pattern, last.verb, last.entry);
      }
    }
  }

  // ----- what a search finds -----

  lemma {:induction false} LastUnder(table: seq<Registration>, s: Segment, p: seq<Segment>, verb: string)
    ensures LastEntry(Under(table, s), p, verb) == LastEntry(table, [s] + p, verb)
  {
    if table != [] {
      var init, last := table[..|table| - 1], table[|table| - 1];
      LastUnder(init, s, p, verb);
      if Leads(last, s) {
        assert last.pattern == [s] + last.pattern[1..] && ([s] + p)[1..] == p;
        assert Under(table, s)[..|Under(init, s)|] == Under(init, s);
      } else {
        assert ([s] + p)[0] == s;
        assert Under(table, s) == Under(init, s);
      }
    }
  }

  lemma {:induction false} LastEntryExists(table: seq<Registration>, p: seq<Segment>, verb: string)
    ensures LastEntry(table, p, verb).Some? <==> exists r <- table :: r.pattern == p && r.verb == verb
    ensures LastEntry(table, p, verb).Some? ==> Registration(p, verb, LastEntry(table, p, verb).value) in table
  {
    if table != [] {
      var init, last := table[..|table| - 1], table[|table| - 1];
      LastEntryExists(init, p, verb);
      assert last in table && forall r <- table :: r in init || r == last;
      assert forall r <- init :: r in table;
    }
  }

  ghost predicate Holds(node: Route, table: seq<Registration>, p: seq<Segment>, verb: string) {
    var e := LastEntry(table, p, verb);
    (verb in node.handlers <==> e.Some?) && (e.Some? ==> node.handlers[verb] == e.value)
  }

  lemma NothingHere(table: seq<Registration>, r: Route)
    requires Represents(r, table)
    ensures r.handlers == map[] <==> forall q <- table :: q.pattern != []
  {
    if r.handlers != map[] {
      var verb :| verb in r.handlers;
      assert HandlerHere(r, table, verb);
      LastEntryExists(table, [], verb);
    }
    if q :| q in table && q.pattern == [] {
      assert HandlerHere(r, table, q.verb);
      LastEntryExists(table, [], q.verb);
    }
  }

  lemma BestByStatic(table: seq<Registration>, p: seq<Segment>, path: seq<Segment>)
    requires path != [] && !Dyn(path[0]) && Best(Under(table, path[0]), p, path[1..])
    ensures Best(table, [path[0]] + p, path)
  {
    var s := path[0];
    InUnder(table, s);
    assert ([s] + p)[1..] == p;
    var u :| u in Under(table, s) && u.pattern == p;
    assert Above(u, s) in table;
    forall q <- table | Matches(q.pattern, path) ensures q.pattern == [s] + p || Precedes([s] + p, q.pattern) {
      if Leads(q, s) {
        assert Tail(q) in Under(table, s);
        assert q.pattern == [s] + Tail(q).pattern;
      }
    }
  }

  lemma BestByDynamic(table: seq<Registration>, s: Segment, p: seq<Segment>, path: seq<Segment>)
    requires path != [] && Dyn(s) && Best(Under(table, s), p, path[1..])
    requires forall q <- table :: Matches(q.pattern, path) ==> q.pattern[0] == s
    ensures Best(table, [s] + p, path)
  {
    InUnder(table, s);
    assert ([s] + p)[1..] == p;
    var u :| u in Under(table, s) && u.pattern == p;
    assert Above(u, s) in table;
    forall q <- table | Matches(q.pattern, path) ensures q.pattern == [s] + p || Precedes([s] + p, q.pattern) {
      assert Leads(q, s) && Tail(q) in Under(table, s);
      assert q.pattern == [s] + Tail(q).pattern;
    }
  }

  lemma NoneUnder(table: seq<Registration>, s: Segment, path: seq<Segment>)
    requires path != []
    requires forall q <- Under(table, s) :: !Matches(q.pattern, path[1..])
    ensures forall q <- table :: Leads(q, s) ==> !Matches(q.pattern, path)
  {
    InUnder(table, s);
    forall q <- table | Leads(q, s) ensures !Matches(q.pattern, path) {
      assert Tail(q) in Under(table, s);
    }
  }

  lemma HoldsAbove(node: Route, table: seq<Registration>, s: Segment, p: seq<Segment>)
    requires forall verb :: Holds(node, Under(table, s), p, verb)
    ensures forall verb :: Holds(node, table, [s] + p, verb)
  {
    forall verb ensures Holds(node, table, [s] + p, verb) {
      assert Holds(node, Under(table, s), p, verb);
      LastUnder(table, s, p, verb);
    }
  }

  /** The search ends at the node of the best pattern, or nowhere when none matches. */
  lemma {:induction false} MatchFindsBest(table: seq<Registration>, r: Route, path: seq<Segment>, params: Params) returns (p: seq<Segment>)
    requires Build(table) == Some(r)
    ensures var node := Match(r, path, params).0;
            && (node.None? ==> forall q <- table :: !Matches(q.pattern, path))
            && (node.Some? ==> Best(table, p, path) && forall verb :: Holds(node.value, table, p, verb))
    decreases |path|
  {
    BuildRepresents(table);
    p := [];
    if path == [] {
      NothingHere(table, r);
      forall verb ensures Holds(r, table, [], verb) {
        assert HandlerHere(r, table, verb);
      }
      return;
    }
    var s, after := path[0], params;
    if s in r.statics {
      assert StaticBelow(r, table, s);
      p := MatchFindsBest(Under(table, s), r.statics[s], path[1..], params);
      after := Match(r.statics[s], path[1..], params).1;
      if Match(r.statics[s], path[1..], params).0.Some? {
        BestByStatic(table, p, path);
        HoldsAbove(Match(r, path, params).0.value, table, s, p);
        p := [s] + p;
        return;
      }
    } else if !Dyn(s) {
      assert StaticBelow(r, table, s);
    }
    if !Dyn(s) {
      NoneUnder(table, s, path);
    }
    if r.dynamic.None? {
      OneName(table, r, [':']);
    } else {
      var d := [':'] + r.dynamic.value.name;
      assert NameOf(d) == r.dynamic.value.name;
      assert DynamicBelow(r, table, d);
      OneName(table, r, d);
      p := MatchFindsBest(Under(table, d), r.dynamic.value.route, path[1..], after[r.dynamic.value.name := s]);
      if Match(r, path, params).0.Some? {
        BestByDynamic(table, d, p, path);
        HoldsAbove(Match(r, path, params).0.value, table, d, p);
        p := [d] + p;
      } else {
        NoneUnder(table, d, path);
      }
    }
  }

  /** What a scan of the table answers, apart from the parameters. */
  datatype Answer = Nothing | OtherMethod | Entered(entry: Entry)

  function ScanAnswer(table: seq<Registration>, path: seq<Segment>, verb: string): Answer {
    match Scan(table, path)
    case None => Nothing
    case Some(p) => match LastEntry(table, p, verb) case None => OtherMethod case Some(e) => Entered(e)
  }

  function AnswerOf(m: RouteMatch): Answer {
    match m
    case NotFound => Nothing
    case WrongMethod => OtherMethod
    case Found(handler, _, limit) => Entered(Entry(handler, limit))
  }

  /** Searching the trie is scanning the table. */
  lemma FindIsScan(table: seq<Registration>, r: Route, path: seq<Segment>, verb: string)
    requires Build(table) == Some(r)
    ensures AnswerOf(Find(r, path, verb)) == ScanAnswer(table, path, verb)
  {
    BuildSucceedsIff(table);
    var p := MatchFindsBest(table, r, path, map[]);
    var node := Match(r, path, map[]).0;
    if node.Some? {
      ScanIs(table, p, path);
      assert Holds(node.value, table, p, verb);
    } else {
      ScanFindsBest(table, path);
    }
  }

  // ----- the order of registration -----

  /** No pattern and verb are registered twice. */
  ghost predicate DistinctKeys(table: seq<Registration>) {
    forall i, j | 0 <= i < j < |table| :: table[i].pattern != table[j].pattern || table[i].verb != table[j].verb
  }

  ghost predicate SameEntries(t: seq<Registration>, u: seq<Registration>) {
    forall r :: r in t <==> r in u
  }

  lemma {:induction false} OnlyEntry(table: seq<Registration>, r: Registration)
    requires DistinctKeys(table) && r in table
    ensures LastEntry(table, r.pattern, r.verb) == Some(r.entry)
  {
    var init, last := table[..|table| - 1], table[|table| - 1];
    if r != last {
      assert r in init;
      OnlyEntry(init, r);
      var i :| 0 <= i < |init| && init[i] == r;
      assert table[i] == r;
    } else if last.pattern == r.pattern && last.verb == r.verb {
      assert last == r;
    }
  }

  lemma {:induction false} DistinctUnder(table: seq<Registration>, s: Segment)
    requires DistinctKeys(table)
    ensures DistinctKeys(Under(table, s))
  {
    if table != [] {
      var init, last := table[..|table| - 1], table[|table| - 1];
      DistinctUnder(init, s);
      InUnder(init, s);
      if Leads(last, s) {
        forall r <- Under(init, s) ensures r.pattern != Tail(last).pattern || r.verb != last.verb {
          var i :| 0 <= i < |init| && init[i] == Above(r, s);
          assert table[i] == Above(r, s) && Above(r, s).pattern[1..] == r.pattern;
          assert last.pattern == [s] + last.pattern[1..];
        }
      }
    }
  }

  lemma SameUnder(t: seq<Registration>, u: seq<Registration>, s: Segment)
    requires SameEntries(t, u)
    ensures SameEntries(Under(t, s), Under(u, s))
  {
    InUnder(t, s);
    InUnder(u, s);
    forall r ensures r in Under(t, s) <==> r in Under(u, s) {
      assert Above(r, s).pattern[1..] == r.pattern;
      assert Leads(Above(r, s), s) && Tail(Above(r, s)) == r;
    }
  }

  lemma SameIsEmpty(t: seq<Registration>, u: seq<Registration>)
    requires SameEntries(t, u)
    ensures t == [] <==> u == []
  {
    if t != [] { assert t[0] in t; }
    if u != [] { assert u[0] in u; }
  }

  function Depth(table: seq<Registration>): nat {
    if table == [] then 0
    else
      var d, l := Depth(table[..|table| - 1]), |table[|table| - 1].pattern|;
      if l > d then l else d
  }

  lemma DepthLast(init: seq<Registration>, last: Registration)
    ensures Depth(init + [last]) == if |last.pattern| > Depth(init) then |last.pattern| else Depth(init)
  {
    assert (init + [last])[..|init|] == init;
  }

  /** Depths fall from a table to what is under a segment of it. */
  lemma {:induction false} DepthUnder(table: seq<Registration>, s: Segment)
    ensures Under(table, s) != [] ==> Depth(Under(table, s)) < Depth(table)
  {
    if table != [] {
      var init, last := table[..|table| - 1], table[|table| - 1];
      assert table == init + [last];
      DepthUnder(init, s);
      DepthLast(init, last);
      UnderLast(init, last, s);
      if Leads(last, s) {
        DepthLast(Under(init, s), Tail(last));
        assert |last.pattern| == |Tail(last).pattern| + 1;
        assert Under(init, s) == [] ==> Depth(Under(init, s)) == 0;
      } else {
        assert Under(table, s) == Under(init, s);
      }
    }
  }

  lemma SameHandlers(t: seq<Registration>, u: seq<Registration>, a: Route, b: Route)
    requires SameEntries(t, u) && DistinctKeys(t) && DistinctKeys(u)
    requires Represents(a, t) && Represents(b, u)
    ensures a.handlers == b.handlers
  {
    forall verb ensures (verb in a.handlers <==> verb in b.handlers) && (verb in a.handlers ==> a.handlers[verb] == b.handlers[verb]) {
      assert HandlerHere(a, t, verb) && HandlerHere(b, u, verb);
      LastEntryExists(t, [], verb);
      LastEntryExists(u, [], verb);
      if verb in a.handlers {
        OnlyEntry(u, Registration([], verb, a.handlers[verb]));
      }
    }
  }

  lemma SameStatics(t: seq<Registration>, u: seq<Registration>, a: Route, b: Route)
    requires Represents(a, t) && Represents(b, u)
    requires forall s | !Dyn(s) :: Under(t, s) == [] <==> Under(u, s) == []
    requires forall s | !Dyn(s) && Under(t, s) != [] :: Build(Under(t, s)) == Build(Under(u, s))
    ensures a.statics == b.statics
  {
    forall s ensures (s in a.statics <==> s in b.statics) && (s in a.statics ==> a.statics[s] == b.statics[s]) {
      if !Dyn(s) {
        assert StaticBelow(a, t, s) && StaticBelow(b, u, s);
      }
    }
  }

  /** With distinct keys, the trie is a function of the set of registrations: their order does not matter. */
  lemma {:induction false} OrderDoesNotMatter(t: seq<Registration>, u: seq<Registration>)
    requires SameEntries(t, u) && DistinctKeys(t) && DistinctKeys(u)
    ensures Build(t) == Build(u)
    decreases Depth(t)
  {
    BuildSucceedsIff(t);
    BuildSucceedsIff(u);
    if NoConflict(t) {
      var a, b := Build(t).value, Build(u).value;
      BuildRepresents(t);
      BuildRepresents(u);
      forall s ensures Under(t, s) == [] <==> Under(u, s) == []
               ensures Under(t, s) != [] ==> Build(Under(t, s)) == Build(Under(u, s))
      {
        SameUnder(t, u, s);
        SameIsEmpty(Under(t, s), Under(u, s));
        DistinctUnder(t, s);
        DistinctUnder(u, s);
        DepthUnder(t, s);
        if Under(t, s) != [] {
          OrderDoesNotMatter(Under(t, s), Under(u, s));
        }
      }
      SameHandlers(t, u, a, b);
      SameStatics(t, u, a, b);
      SameDynamic(t, u, a, b);
    }
  }

  lemma SameDynamic(t: seq<Registration>, u: seq<Registration>, a: Route, b: Route)
    requires Represents(a, t) && Represents(b, u)
    requires forall s | Dyn(s) :: Under(t, s) == [] <==> Under(u, s) == []
    requires forall s | Dyn(s) && Under(t, s) != [] :: Build(Under(t, s)) == Build(Under(u, s))
    ensures a.dynamic == b.dynamic
  {
    if a.dynamic.Some? || b.dynamic.Some? {
      var s := [':'] + if a.dynamic.Some? then a.dynamic.value.name else b.dynamic.value.name;
      assert NameOf(s) == s[1..] == if a.dynamic.Some? then a.dynamic.value.name else b.dynamic.value.name;
      assert DynamicBelow(a, t, s) && DynamicBelow(b, u, s);
    }
  }

  // ----- path parameters -----

  /** The pattern's parameter names are pairwise distinct. */
  predicate DistinctNames(p: seq<Segment>) {
    forall i, j | 0 <= i < j < |p| && Dyn(p[i]) && Dyn(p[j]) :: p[i] != p[j]
  }

  predicate Mentions(table: seq<Registration>, name: string) {
    exists r <- table :: ([':'] + name) in r.pattern
  }

  lemma MentionsUnder(table: seq<Registration>, s: Segment, name: string)
    ensures Mentions(Under(table, s), name) ==> Mentions(table, name)
  {
    InUnder(table, s);
    if Mentions(Under(table, s), name) {
      var u :| u in Under(table, s) && ([':'] + name) in u.pattern;
      assert Above(u, s) in table && ([':'] + name) in Above(u, s).pattern;
    }
  }

  lemma DynamicIsMentioned(table: seq<Registration>, r: Route)
    requires Represents(r, table) && r.dynamic.Some?
    ensures var d := [':'] + r.dynamic.value.name;
            Under(table, d) != [] && Build(Under(table, d)) == Some(r.dynamic.value.route)
    ensures Mentions(table, r.dynamic.value.name)
  {
    var d := [':'] + r.dynamic.value.name;
    assert NameOf(d) == r.dynamic.value.name;
    assert DynamicBelow(r, table, d);
    InUnder(table, d);
    assert Under(table, d)[0] in Under(table, d);
    assert Above(Under(table, d)[0], d) in table && d in Above(Under(table, d)[0], d).pattern;
  }

  /** A search leaves alone the names that no pattern mentions. */
  lemma {:induction false} UnmentionedStays(table: seq<Registration>, r: Route, path: seq<Segment>, params: Params, name: string)
    requires Build(table) == Some(r) && !Mentions(table, name)
    ensures var after := Match(r, path, params).1;
            (name in after <==> name in params) && (name in after ==> after[name] == params[name])
    decreases |path|
  {
    BuildRepresents(table);
    if path != [] {
      var s, after := path[0], params;
      if s in r.statics {
        assert StaticBelow(r, table, s);
        MentionsUnder(table, s, name);
        UnmentionedStays(Under(table, s), r.statics[s], path[1..], params, name);
        after := Match(r.statics[s], path[1..], params).1;
      }
      if r.dynamic.Some? {
        DynamicIsMentioned(table, r);
        var d := r.dynamic.value;
        MentionsUnder(table, [':'] + d.name, name);
        UnmentionedStays(Under(table, [':'] + d.name), d.route, path[1..], after[d.name := s], name);
      }
    }
  }

  /** Each parameter of the pattern is bound to the path segment in its place. */
  predicate Binds(p: seq<Segment>, path: seq<Segment>, params: Params) {
    |p| == |path| && forall i | 0 <= i < |p| && Dyn(p[i]) :: NameOf(p[i]) in params && params[NameOf(p[i])] == path[i]
  }

  ghost predicate AllDistinctNames(table: seq<Registration>) {
    forall r <- table :: DistinctNames(r.pattern)
  }

  lemma DistinctNamesUnder(table: seq<Registration>, s: Segment)
    requires AllDistinctNames(table)
    ensures AllDistinctNames(Under(table, s))
    ensures Dyn(s) ==> !Mentions(Under(table, s), NameOf(s))
  {
    InUnder(table, s);
    forall u <- Under(table, s) ensures DistinctNames(u.pattern) && (Dyn(s) ==> s !in u.pattern) {
      var p := Above(u, s).pattern;
      assert DistinctNames(p) && p[0] == s;
      assert forall i | 0 <= i < |u.pattern| :: p[i + 1] == u.pattern[i];
    }
    assert Dyn(s) ==> s == [':'] + NameOf(s);
  }

  lemma BindsBelow(s: Segment, p: seq<Segment>, path: seq<Segment>, params: Params)
    requires path != [] && Binds(p, path[1..], params)
    requires Dyn(s) ==> NameOf(s) in params && params[NameOf(s)] == path[0]
    ensures Binds([s] + p, path, params)
  {
    var q := [s] + p;
    forall i | 0 <= i < |q| && Dyn(q[i]) ensures NameOf(q[i]) in params && params[NameOf(q[i])] == path[i] {
      if i > 0 {
        assert q[i] == p[i - 1] && path[i] == path[1..][i - 1];
      }
    }
  }

  /**
    With distinct names in every pattern, what failed branches left behind never overwrites a
    parameter of the pattern that is found.
  */
  lemma {:induction false} MatchBinds(table: seq<Registration>, r: Route, path: seq<Segment>, params: Params) returns (p: seq<Segment>)
    requires Build(table) == Some(r) && AllDistinctNames(table)
    requires Match(r, path, params).0.Some?
    ensures Best(table, p, path) && Binds(p, path, Match(r, path, params).1)
    decreases |path|, 1
  {
    BuildRepresents(table);
    p := [];
    if path == [] {
      NothingHere(table, r);
    } else if path[0] in r.statics && Match(r.statics[path[0]], path[1..], params).0.Some? {
      var s := path[0];
      assert StaticBelow(r, table, s);
      DistinctNamesUnder(table, s);
      p := MatchBinds(Under(table, s), r.statics[s], path[1..], params);
      BestByStatic(table, p, path);
      BindsBelow(s, p, path, Match(r, path, params).1);
      p := [s] + p;
    } else {
      StaticFailed(table, r, path, params);
      var after := if path[0] in r.statics then Match(r.statics[path[0]], path[1..], params).1 else params;
      p := DynamicBinds(table, r, path, after);
    }
  }

  lemma {:induction false} DynamicBinds(table: seq<Registration>, r: Route, path: seq<Segment>, after: Params) returns (p: seq<Segment>)
    requires Build(table) == Some(r) && Represents(r, table) && AllDistinctNames(table)
    requires path != [] && r.dynamic.Some?
    requires forall q <- table :: Matches(q.pattern, path) ==> Dyn(q.pattern[0])
    requires Match(r.dynamic.value.route, path[1..], after[r.dynamic.value.name := path[0]]).0.Some?
    ensures Best(table, p, path)
    ensures Binds(p, path, Match(r.dynamic.value.route, path[1..], after[r.dynamic.value.name := path[0]]).1)
    decreases |path|, 0
  {
    var d := r.dynamic.value;
    var ds, mid := [':'] + d.name, after[d.name := path[0]];
    DynamicIsMentioned(table, r);
    DistinctNamesUnder(table, ds);
    assert NameOf(ds) == d.name;
    p := MatchBinds(Under(table, ds), d.route, path[1..], mid);
    UnmentionedStays(Under(table, ds), d.route, path[1..], mid, d.name);
    OneName(table, r, ds);
    BestByDynamic(table, ds, p, path);
    BindsBelow(ds, p, path, Match(d.route, path[1..], mid).1);
    p := [ds] + p;
  }

  lemma StaticFailed(table: seq<Registration>, r: Route, path: seq<Segment>, params: Params)
    requires Build(table) == Some(r) && Represents(r, table) && path != []
    requires path[0] in r.statics ==> Match(r.statics[path[0]], path[1..], params).0.None?
    ensures forall q <- table :: Matches(q.pattern, path) ==> Dyn(q.pattern[0])
  {
    var s := path[0];
    if !Dyn(s) {
      assert StaticBelow(r, table, s);
      if s in r.statics {
        var p := MatchFindsBest(Under(table, s), r.statics[s], path[1..], params);
      }
      NoneUnder(table, s, path);
    }
  }

  /** A found route binds every name of the scan's pattern to its own segment. */
  lemma FoundBinds(table: seq<Registration>, r: Route, path: seq<Segment>, verb: string)
    requires Build(table) == Some(r) && AllDistinctNames(table)
    requires Find(r, path, verb).Found?
    ensures Scan(table, path).Some? && Binds(Scan(table, path).value, path, Find(r, path, verb).params)
  {
    BuildSucceedsIff(table);
    var p := MatchBinds(table, r, path, map[]);
    ScanIs(table, p, path);
  }

  /** If the search finds a route, each name of the scan's pattern is bound to its own segment. */
  ghost predicate RightlyBound(table: seq<Registration>, r: Route, path: seq<Segment>, verb: string) {
    var found := Find(r, path, verb);
    found.Found? ==> Scan(table, path).Some? && Binds(Scan(table, path).value, path, found.params)
  }

  function Longest(pattern: seq<Segment>): (n: nat)
    ensures forall s <- pattern :: |s| <= n
  {
    if pattern == [] then 0
    else
      var n := Longest(pattern[1..]);
      assert pattern == [pattern[0]] + pattern[1..];
      if |pattern[0]| > n then |pattern[0]| else n
  }

  function LongestIn(table: seq<Registration>): (n: nat)
    ensures forall r <- table, s <- r.pattern :: |s| <= n
  {
    if table == [] then 0
    else
      var n, l := LongestIn(table[1..]), Longest(table[0].pattern);
      assert table == [table[0]] + table[1..];
      if l > n then l else n
  }

  /** Segments of different lengths, all longer than `n`. */
  function Long(n: nat): nat -> Segment {
    (i: nat) => seq(n + 1 + i, _ => 'x')
  }

  lemma {:induction false} PrecedesSomewhere(p: seq<Segment>, q: seq<Segment>) returns (i: nat)
    requires Precedes(p, q)
    ensures i < |p| && i < |q| && !Dyn(p[i]) && Dyn(q[i])
  {
    if Dyn(p[0]) == Dyn(q[0]) {
      i := PrecedesSomewhere(p[1..], q[1..]);
      i := i + 1;
    } else {
      i := 0;
    }
  }

  lemma {:induction false} MatchesAt(pattern: seq<Segment>, path: seq<Segment>, i: nat)
    requires Matches(pattern, path) && i < |pattern|
    ensures |pattern| == |path| && (Dyn(pattern[i]) || pattern[i] == path[i])
  {
    MatchesLength(pattern, path);
    if i > 0 {
      MatchesAt(pattern[1..], path[1..], i - 1);
    }
  }

  lemma {:induction false} MatchesLength(pattern: seq<Segment>, path: seq<Segment>)
    requires Matches(pattern, path)
    ensures |pattern| == |path|
  {
    if pattern != [] {
      MatchesLength(pattern[1..], path[1..]);
    }
  }

  /** A pattern is not preferred to one whose dynamic places the path fills with segments the former lacks. */
  lemma NotBefore(q: seq<Segment>, p: seq<Segment>, path: seq<Segment>, n: nat)
    requires Matches(q, path) && |p| == |path|
    requires forall i | 0 <= i < |q| :: |q[i]| <= n
    requires forall i | 0 <= i < |p| && Dyn(p[i]) :: |path[i]| > n
    ensures !Precedes(q, p)
  {
    if Precedes(q, p) {
      var i := PrecedesSomewhere(q, p);
      MatchesAt(q, path, i);
    }
  }

  lemma ShortInTable(table: seq<Registration>, q: Registration)
    requires q in table
    ensures forall i | 0 <= i < |q.pattern| :: |q.pattern[i]| <= LongestIn(table)
  {
    assert forall s <- q.pattern :: |s| <= LongestIn(table);
  }

  /** Filled with segments that occur nowhere in the table, a registered pattern is the best one for that path. */
  lemma FilledIsBest(table: seq<Registration>, r: Registration)
    requires NoConflict(table) && r in table
    ensures Best(table, r.pattern, Filled(r.pattern, Long(LongestIn(table))))
  {
    var n := LongestIn(table);
    var p, path := r.pattern, Filled(r.pattern, Long(n));
    MatchesPointwise(p, path);
    forall q <- table | Matches(q.pattern, path) ensures q.pattern == p || Precedes(p, q.pattern) {
      PrecedesTotal(p, q.pattern, path);
      ShortInTable(table, q);
      NotBefore(q.pattern, p, path, n);
    }
  }

  lemma NoBindingForBoth(p: seq<Segment>, n: nat, params: Params)
    requires !DistinctNames(p)
    ensures !Binds(p, Filled(p, Long(n)), params)
  {
    var i, j :| 0 <= i < j < |p| && Dyn(p[i]) && Dyn(p[j]) && p[i] == p[j];
    assert |Filled(p, Long(n))[i]| < |Filled(p, Long(n))[j]|;
  }

  lemma RepeatedNameMisbinds(table: seq<Registration>, r: Route, reg: Registration)
    requires Build(table) == Some(r) && reg in table && !DistinctNames(reg.pattern)
    ensures !RightlyBound(table, r, Filled(reg.pattern, Long(LongestIn(table))), reg.verb)
  {
    var p, n := reg.pattern, LongestIn(table);
    var path := Filled(p, Long(n));
    BuildSucceedsIff(table);
    FilledIsBest(table, reg);
    ScanIs(table, p, path);
    FoundWhereRegistered(table, r, reg, path);
    NoBindingForBoth(p, n, Find(r, path, reg.verb).params);
  }

  lemma FoundWhereRegistered(table: seq<Registration>, r: Route, reg: Registration, path: seq<Segment>)
    requires Build(table) == Some(r) && reg in table && Scan(table, path) == Some(reg.pattern)
    ensures Find(r, path, reg.verb).Found?
  {
    FindIsScan(table, r, path, reg.verb);
    LastEntryExists(table, reg.pattern, reg.verb);
  }

  /** Every search binds rightly exactly when no registered pattern uses a name twice. */
  lemma BindsIffNamesDistinct(table: seq<Registration>, r: Route)
    requires Build(table) == Some(r)
    ensures AllDistinctNames(table) <==> forall path, verb :: RightlyBound(table, r, path, verb)
  {
    if AllDistinctNames(table) {
      forall path, verb ensures RightlyBound(table, r, path, verb) {
        if Find(r, path, verb).Found? { FoundBinds(table, r, path, verb); }
      }
    } else {
      var reg :| reg in table && !DistinctNames(reg.pattern);
      RepeatedNameMisbinds(table, r, reg);
    }
  }

  /** Where a binding comes from: a registered pattern that follows the path up to a parameter of that name. */
  predicate FromPattern(p: seq<Segment>, path: seq<Segment>, name: string, value: Segment) {
    p != [] && path != [] &&
    ((p[0] == [':'] + name && value == path[0]) ||
     ((Dyn(p[0]) || p[0] == path[0]) && FromPattern(p[1..], path[1..], name, value)))
  }

  predicate Explained(table: seq<Registration>, path: seq<Segment>, name: string, value: Segment) {
    exists r <- table :: FromPattern(r.pattern, path, name, value)
  }

  lemma ExplainedUnder(table: seq<Registration>, s: Segment, path: seq<Segment>, name: string, value: Segment)
    requires path != [] && (Dyn(s) || s == path[0])
    requires Explained(Under(table, s), path[1..], name, value)
    ensures Explained(table, path, name, value)
  {
    InUnder(table, s);
    var u :| u in Under(table, s) && FromPattern(u.pattern, path[1..], name, value);
    assert Above(u, s).pattern[1..] == u.pattern;
    assert Above(u, s) in table && FromPattern(Above(u, s).pattern, path, name, value);
  }

  /** Every binding a search leaves was there before or comes from a pattern followed that far. */
  lemma {:induction false} BindingsAreExplained(table: seq<Registration>, r: Route, path: seq<Segment>, params: Params, name: string)
    requires Build(table) == Some(r)
    ensures var after := Match(r, path, params).1;
            name in after ==> (name in params && after[name] == params[name]) || Explained(table, path, name, after[name])
    decreases |path|
  {
    BuildRepresents(table);
    if path != [] {
      var s, mid, after := path[0], params, Match(r, path, params).1;
      if s in r.statics {
        assert StaticBelow(r, table, s);
        BindingsAreExplained(Under(table, s), r.statics[s], path[1..], params, name);
        mid := Match(r.statics[s], path[1..], params).1;
        if name in mid && Explained(Under(table, s), path[1..], name, mid[name]) {
          ExplainedUnder(table, s, path, name, mid[name]);
        }
      }
      if r.dynamic.Some? && !(s in r.statics && Match(r.statics[s], path[1..], params).0.Some?) {
        DynamicIsMentioned(table, r);
        var d := r.dynamic.value;
        var ds := [':'] + d.name;
        BindingsAreExplained(Under(table, ds), d.route, path[1..], mid[d.name := s], name);
        if name in after && Explained(Under(table, ds), path[1..], name, after[name]) {
          ExplainedUnder(table, ds, path, name, after[name]);
        } else if name == d.name {
          InUnder(table, ds);
          assert Under(table, ds)[0] in Under(table, ds);
          var q := Above(Under(table, ds)[0], ds);
          assert q in table && FromPattern(q.pattern, path, name, s);
        }
      }
    }
  }

  /** With a name used twice, an abandoned branch can overwrite a parameter of the pattern that is found. */
  lemma RepeatedNameIsOverwritten(e: Entry)
    ensures var p, q := [":a", "x", ":a", "end"], [":a", ":b", ":c"];
            var table := [Registration(p, "GET", e), Registration(q, "GET", e)];
            Build(table).Some? &&
            Find(Build(table).value, ["1", "x", "2"], "GET") == Found(e.handler, map["a" := "2", "b" := "x", "c" := "2"], e.limit)
  {
    var p, q := [":a", "x", ":a", "end"], [":a", ":b", ":c"];
    var leaf := EMPTY.(handlers := map["GET" := e]);
    var x := EMPTY.(dynamic := Some(Dynamic("a", EMPTY.(statics := map["end" := leaf]))));
    var b := EMPTY.(dynamic := Some(Dynamic("c", leaf)));
    assert Insert(EMPTY, p[3..], "GET", e) == Some(EMPTY.(statics := map["end" := leaf]));
    assert Insert(EMPTY, p[2..], "GET", e) == Some(x);
    assert Insert(EMPTY, p[1..], "GET", e) == Some(EMPTY.(statics := map["x" := x]));
    var one := EMPTY.(dynamic := Some(Dynamic("a", EMPTY.(statics := map["x" := x]))));
    assert Insert(EMPTY, p, "GET", e) == Some(one);
    assert Insert(EMPTY, q[2..], "GET", e) == Some(b);
    var a := Route(map["x" := x], Some(Dynamic("b", b)), map[]);
    assert Insert(one.dynamic.value.route, q[1..], "GET", e) == Some(a);
    var two := EMPTY.(dynamic := Some(Dynamic("a", a)));
    assert Insert(one, q, "GET", e) == Some(two);
    BuildLast([], Registration(p, "GET", e));
    BuildLast([Registration(p, "GET", e)], Registration(q, "GET", e));
    assert [Registration(p, "GET", e)] + [Registration(q, "GET", e)] == [Registration(p, "GET", e), Registration(q, "GET", e)];
    assert [] + [Registration(p, "GET", e)] == [Registration(p, "GET", e)];
    var path := ["1", "x", "2"];
    assert path[1..] == ["x", "2"] && path[2..] == ["2"] && path[1..][1..] == ["2"];
    assert map["a" := "1"]["a" := "2"] == map["a" := "2"];
    assert Match(x.dynamic.value.route, [], map["a" := "2"]) == (None, map["a" := "2"]);
    assert Match(x, path[2..], map["a" := "1"]) == (None, map["a" := "2"]);
    assert leaf.handlers["GET"] == e && leaf.handlers != map[];
    assert Match(leaf, [], map["a" := "2", "b" := "x", "c" := "2"]).0 == Some(leaf);
    assert Match(b, path[2..], map["a" := "2", "b" := "x"]) == (Some(leaf), map["a" := "2", "b" := "x", "c" := "2"]);
    assert Match(a, path[1..], map["a" := "1"]).0 == Some(leaf);
    assert Match(two, path, map[]).0 == Some(leaf);
  }
}
