/**
  Route groups, the limits on request bodies, and the way from a parsed request to its handler
  (`initialize_routes` and `resolve_route`, engine/src/lib.rs).

  Middlewares are part of the opaque handlers; decoding a request target into a path is a parameter.
*/
module App {
  import opened Wrappers
  import opened Routes
  import opened RouteTree
  import Bytes
  import Head
  import Http
  import Connection

  datatype RouteDef = RouteDef(spec: string, handler: Handler)

  datatype Group = Group(limit: Option<nat>, routes: seq<RouteDef>)

  // ----- registration -----

  function SlashFrom(s: string, i: nat): (j: nat)
    requires i <= |s|
    ensures i <= j <= |s| && '/' !in s[i..j] && (j < |s| ==> s[j] == '/')
    decreases |s| - i
  {
    if i < |s| && s[i] != '/' then
      var j := SlashFrom(s, i + 1);
      assert s[i..j] == [s[i]] + s[i + 1..j];
      j
    else i
  }

  /** The captures of `^:([^/]+)(.*)$`, whose dot does not match a line feed. */
  function Captures(spec: string): Option<(string, string)> {
    if spec == "" || spec[0] != ':' then None
    else
      var j := SlashFrom(spec, 1);
      if j == 1 || '\n' in spec[j..] then None else Some((spec[1..j], spec[j..]))
  }

  function LowerChar(c: char): char {
    if 'A' <= c <= 'Z' then (c as int + 32) as char else c
  }

  function Lower(s: string): string {
    seq(|s|, i requires 0 <= i < |s| => LowerChar(s[i]))
  }

  function VerbOf(text: string): Option<string> {
    if text == "delete" then Some("DELETE")
    else if text == "patch" then Some("PATCH")
    else if text == "post" then Some("POST")
    else if text == "put" then Some("PUT")
    else if text == "get" then Some("GET")
    else if text == "head" then Some("HEAD")
    else if text == "options" then Some("OPTIONS")
    else None
  }

  /** A route without a method or with an unknown one is skipped. */
  function RegistrationOf(d: RouteDef, limit: Option<nat>): Option<Registration> {
    match Captures(d.spec)
    case None => None
    case Some((text, path)) =>
      match VerbOf(Lower(text))
      case None => None
      case Some(verb) => Some(Registration(PatternSegments(path), verb, Entry(d.handler, limit)))
  }

  function Line(d: RouteDef, limit: Option<nat>): seq<Registration> {
    match RegistrationOf(d, limit)
    case Some(r) => [r]
    case None => []
  }

  function GroupTable(routes: seq<RouteDef>, limit: Option<nat>): seq<Registration> {
    if routes == [] then [] else GroupTable(routes[..|routes| - 1], limit) + Line(routes[|routes| - 1], limit)
  }

  /** The route table the groups stand for, in order. */
  function TableOf(groups: seq<Group>): seq<Registration> {
    if groups == [] then []
    else TableOf(groups[..|groups| - 1]) + GroupTable(groups[|groups| - 1].routes, groups[|groups| - 1].limit)
  }

  // ----- what the table holds -----

  /** The verb in letters of any case. */
  predicate MethodOf(text: string, verb: string) {
    && verb in ["DELETE", "PATCH", "POST", "PUT", "GET", "HEAD", "OPTIONS"]
    && |text| == |verb| && forall i :: 0 <= i < |verb| ==> text[i] == verb[i] || text[i] as int == verb[i] as int + 32
  }

  /** A route's text is ":", then the method, then the path. */
  ghost predicate Declares(d: RouteDef, verb: string, path: string) {
    && (path == "" || path[0] == '/') && '\n' !in path
    && exists text: string :: MethodOf(text, verb) && d.spec == ":" + text + path
  }

  lemma SlashAt(text: string, path: string, i: nat)
    requires i <= |text| && '/' !in text && (path == "" || path[0] == '/')
    ensures SlashFrom(":" + text + path, i + 1) == |text| + 1
    decreases |text| - i
  {
    if i < |text| {
      assert (":" + text + path)[i + 1] == text[i] && text[i] in text;
      SlashAt(text, path, i + 1);
    }
  }

  lemma CapturesIff(spec: string, text: string, path: string)
    ensures Captures(spec) == Some((text, path)) <==>
            spec == ":" + text + path && text != "" && '/' !in text && (path == "" || path[0] == '/') && '\n' !in path
  {
    if Captures(spec) == Some((text, path)) {
      var j := SlashFrom(spec, 1);
      assert spec == [spec[0]] + spec[1..j] + spec[j..];
    }
    if spec == ":" + text + path && '/' !in text && (path == "" || path[0] == '/') {
      SlashAt(text, path, 0);
      assert spec[1..|text| + 1] == text && spec[|text| + 1..] == path;
    }
  }

  lemma LoweredIs(text: string, verb: string, small: string)
    requires |small| == |verb|
    requires forall i :: 0 <= i < |verb| ==> 'A' <= verb[i] <= 'Z' && small[i] as int == verb[i] as int + 32
    ensures Lower(text) == small <==>
            |text| == |verb| && forall i :: 0 <= i < |verb| ==> text[i] == verb[i] || text[i] as int == verb[i] as int + 32
  {
    if Lower(text) == small {
      forall i | 0 <= i < |verb| ensures text[i] == verb[i] || text[i] as int == verb[i] as int + 32 {
        assert Lower(text)[i] == small[i];
      }
    }
    if |text| == |verb| && forall i :: 0 <= i < |verb| ==> text[i] == verb[i] || text[i] as int == verb[i] as int + 32 {
      forall i | 0 <= i < |verb| ensures Lower(text)[i] == small[i] {
      }
    }
  }

  lemma VerbIff(text: string, verb: string)
    ensures VerbOf(Lower(text)) == Some(verb) <==> MethodOf(text, verb)
  {
    LoweredIs(text, "DELETE", "delete");
    LoweredIs(text, "PATCH", "patch");
    LoweredIs(text, "POST", "post");
    LoweredIs(text, "PUT", "put");
    LoweredIs(text, "GET", "get");
    LoweredIs(text, "HEAD", "head");
    LoweredIs(text, "OPTIONS", "options");
  }

  lemma MethodHasNoSlash(text: string, verb: string)
    requires MethodOf(text, verb)
    ensures text != "" && '/' !in text
  {
  }

  ghost predicate RegistersAs(d: RouteDef, pattern: seq<Segment>, verb: string) {
    exists path: string :: Declares(d, verb, path) && PatternSegments(path) == pattern
  }

  lemma RegistrationIff(d: RouteDef, limit: Option<nat>, r: Registration)
    ensures RegistrationOf(d, limit) == Some(r) <==> RegistersAs(d, r.pattern, r.verb) && r.entry == Entry(d.handler, limit)
  {
    if RegistrationOf(d, limit) == Some(r) {
      var (text, path) := Captures(d.spec).value;
      CapturesIff(d.spec, text, path);
      VerbIff(text, r.verb);
      assert Declares(d, r.verb, path);
    }
    if RegistersAs(d, r.pattern, r.verb) {
      var path: string :| Declares(d, r.verb, path) && PatternSegments(path) == r.pattern;
      var text: string :| MethodOf(text, r.verb) && d.spec == ":" + text + path;
      MethodHasNoSlash(text, r.verb);
      CapturesIff(d.spec, text, path);
      VerbIff(text, r.verb);
    }
  }

  /** The `j`-th route of the `i`-th group stands for this pattern and method. */
  ghost predicate Registers(groups: seq<Group>, i: nat, j: nat, pattern: seq<Segment>, verb: string) {
    i < |groups| && j < |groups[i].routes| && RegistersAs(groups[i].routes[j], pattern, verb)
  }

  lemma {:induction false} InGroupIff(routes: seq<RouteDef>, limit: Option<nat>, r: Registration)
    ensures r in GroupTable(routes, limit) <==>
            exists d <- routes :: RegistersAs(d, r.pattern, r.verb) && r.entry == Entry(d.handler, limit)
  {
    if routes != [] {
      var init, last := routes[..|routes| - 1], routes[|routes| - 1];
      assert routes == init + [last];
      InGroupIff(init, limit, r);
      RegistrationIff(last, limit, r);
    }
  }

  /** A registration is in the table exactly if some group's route spells it, with that route's handler and that group's limit. */
  lemma {:induction false} InTableIff(groups: seq<Group>, r: Registration)
    ensures r in TableOf(groups) <==>
            exists g <- groups, d <- g.routes :: RegistersAs(d, r.pattern, r.verb) && r.entry == Entry(d.handler, g.limit)
  {
    if groups != [] {
      var init, last := groups[..|groups| - 1], groups[|groups| - 1];
      assert groups == init + [last];
      InTableIff(init, r);
      InGroupIff(last.routes, last.limit, r);
    }
  }

  /** No later route, in that group or in a later one, stands for it too. */
  ghost predicate RegistersLast(groups: seq<Group>, i: nat, j: nat, pattern: seq<Segment>, verb: string) {
    && Registers(groups, i, j, pattern, verb)
    && forall i': nat, j': nat | Registers(groups, i', j', pattern, verb) :: i' < i || (i' == i && j' <= j)
  }

  lemma {:induction false} LastEntryOfBoth(a: seq<Registration>, b: seq<Registration>, pattern: seq<Segment>, verb: string)
    ensures LastEntry(a + b, pattern, verb) ==
            if LastEntry(b, pattern, verb).Some? then LastEntry(b, pattern, verb) else LastEntry(a, pattern, verb)
  {
    if b == [] {
      assert a + b == a;
    } else {
      assert (a + b)[..|a + b| - 1] == a + b[..|b| - 1];
      LastEntryOfBoth(a, b[..|b| - 1], pattern, verb);
    }
  }

  ghost predicate LastInGroup(routes: seq<RouteDef>, j: nat, pattern: seq<Segment>, verb: string) {
    && j < |routes| && RegistersAs(routes[j], pattern, verb)
    && forall k | j < k < |routes| :: !RegistersAs(routes[k], pattern, verb)
  }

  lemma LineEntry(d: RouteDef, limit: Option<nat>, pattern: seq<Segment>, verb: string)
    ensures LastEntry(Line(d, limit), pattern, verb) == if RegistersAs(d, pattern, verb) then Some(Entry(d.handler, limit)) else None
  {
    RegistrationIff(d, limit, Registration(pattern, verb, Entry(d.handler, limit)));
    var r := RegistrationOf(d, limit);
    if r.Some? {
      RegistrationIff(d, limit, r.value);
      assert [r.value][..0] == [];
      assert LastEntry([], pattern, verb) == None;
    }
  }

  lemma GroupEntryStep(init: seq<RouteDef>, d: RouteDef, limit: Option<nat>, pattern: seq<Segment>, verb: string)
    ensures LastEntry(GroupTable(init + [d], limit), pattern, verb) ==
            if RegistersAs(d, pattern, verb) then Some(Entry(d.handler, limit)) else LastEntry(GroupTable(init, limit), pattern, verb)
  {
    assert (init + [d])[..|init|] == init;
    LineEntry(d, limit, pattern, verb);
    LastEntryOfBoth(GroupTable(init, limit), Line(d, limit), pattern, verb);
  }

  lemma {:induction false} NoGroupEntry(routes: seq<RouteDef>, limit: Option<nat>, pattern: seq<Segment>, verb: string)
    requires forall d <- routes :: !RegistersAs(d, pattern, verb)
    ensures LastEntry(GroupTable(routes, limit), pattern, verb) == None
  {
    if routes != [] {
      var init, d := routes[..|routes| - 1], routes[|routes| - 1];
      assert routes == init + [d];
      NoGroupEntry(init, limit, pattern, verb);
      GroupEntryStep(init, d, limit, pattern, verb);
    }
  }

  lemma {:induction false} GroupEntry(routes: seq<RouteDef>, limit: Option<nat>, j: nat, pattern: seq<Segment>, verb: string)
    requires LastInGroup(routes, j, pattern, verb)
    ensures LastEntry(GroupTable(routes, limit), pattern, verb) == Some(Entry(routes[j].handler, limit))
  {
    var init, d := routes[..|routes| - 1], routes[|routes| - 1];
    assert routes == init + [d];
    GroupEntryStep(init, d, limit, pattern, verb);
    if j < |init| {
      GroupEntry(init, limit, j, pattern, verb);
    }
  }

  lemma TableEntryStep(init: seq<Group>, g: Group, pattern: seq<Segment>, verb: string)
    ensures LastEntry(TableOf(init + [g]), pattern, verb) ==
            var e := LastEntry(GroupTable(g.routes, g.limit), pattern, verb); if e.Some? then e else LastEntry(TableOf(init), pattern, verb)
  {
    assert (init + [g])[..|init|] == init;
    LastEntryOfBoth(TableOf(init), GroupTable(g.routes, g.limit), pattern, verb);
  }

  lemma LastOfItsGroup(groups: seq<Group>, i: nat, j: nat, pattern: seq<Segment>, verb: string)
    requires RegistersLast(groups, i, j, pattern, verb)
    ensures LastInGroup(groups[i].routes, j, pattern, verb)
  {
    forall k | j < k < |groups[i].routes| ensures !RegistersAs(groups[i].routes[k], pattern, verb) {
      assert !Registers(groups, i, k, pattern, verb);
    }
  }

  lemma LastBefore(groups: seq<Group>, n: nat, i: nat, j: nat, pattern: seq<Segment>, verb: string)
    requires RegistersLast(groups, i, j, pattern, verb) && i < n < |groups|
    ensures RegistersLast(groups[..n], i, j, pattern, verb)
    ensures forall d <- groups[n].routes :: !RegistersAs(d, pattern, verb)
  {
    forall k | 0 <= k < |groups[n].routes| ensures !RegistersAs(groups[n].routes[k], pattern, verb) {
      assert !Registers(groups, n, k, pattern, verb);
    }
    forall i': nat, j': nat | Registers(groups[..n], i', j', pattern, verb) ensures i' < i || (i' == i && j' <= j) {
      assert Registers(groups, i', j', pattern, verb);
    }
  }

  /** What the table gives for a pattern and a method is the handler of the route that registered it last, under its group's limit. */
  lemma {:induction false} LastRegistrationCounts(groups: seq<Group>, i: nat, j: nat, pattern: seq<Segment>, verb: string)
    requires RegistersLast(groups, i, j, pattern, verb)
    ensures LastEntry(TableOf(groups), pattern, verb) == Some(Entry(groups[i].routes[j].handler, groups[i].limit))
  {
    var n := |groups| - 1;
    var last := groups[n];
    assert groups == groups[..n] + [last];
    TableEntryStep(groups[..n], last, pattern, verb);
    if i == n {
      LastOfItsGroup(groups, i, j, pattern, verb);
      GroupEntry(last.routes, last.limit, j, pattern, verb);
    } else {
      LastBefore(groups, n, i, j, pattern, verb);
      NoGroupEntry(last.routes, last.limit, pattern, verb);
      LastRegistrationCounts(groups[..n], i, j, pattern, verb);
    }
  }

  function Larger(a: nat, b: nat): nat {
    if a < b then b else a
  }

  function MaxSeen(groups: seq<Group>, global: nat): (m: nat)
    ensures m >= global
  {
    if groups == [] then global
    else
      var m := MaxSeen(groups[..|groups| - 1], global);
      if groups[|groups| - 1].limit.Some? then Larger(m, groups[|groups| - 1].limit.value) else m
  }

  /** It is one of them, and so the largest. */
  lemma {:induction false} MaxSeenIsLargest(groups: seq<Group>, global: nat)
    ensures MaxSeen(groups, global) == global || exists g <- groups :: g.limit == Some(MaxSeen(groups, global))
    ensures forall g <- groups :: g.limit.Some? ==> g.limit.value <= MaxSeen(groups, global)
  {
    if groups != [] {
      assert groups == groups[..|groups| - 1] + [groups[|groups| - 1]];
      MaxSeenIsLargest(groups[..|groups| - 1], global);
    }
  }

  lemma {:induction false} BuildFailsEarly(table: seq<Registration>, more: seq<Registration>)
    requires Build(table).None?
    ensures Build(table + more).None?
  {
    if more == [] {
      assert table + more == table;
    } else {
      BuildFailsEarly(table, more[..|more| - 1]);
      assert table + more == (table + more[..|more| - 1]) + [more[|more| - 1]];
      BuildLast(table + more[..|more| - 1], more[|more| - 1]);
    }
  }

  lemma GroupTableStep(routes: seq<RouteDef>, i: nat, limit: Option<nat>)
    requires i < |routes|
    ensures GroupTable(routes[..i + 1], limit) == GroupTable(routes[..i], limit) + Line(routes[i], limit)
  {
    assert routes[..i + 1][..i] == routes[..i];
  }

  lemma Regroup<T>(a: seq<T>, b: seq<T>, c: seq<T>)
    ensures a + b + c == a + (b + c)
  {
  }

  lemma {:induction false} GroupFailsEarly(table: seq<Registration>, routes: seq<RouteDef>, i: nat, limit: Option<nat>)
    requires i <= |routes| && Build(table + GroupTable(routes[..i], limit)).None?
    ensures Build(table + GroupTable(routes, limit)).None?
    decreases |routes| - i
  {
    if i == |routes| {
      assert routes[..i] == routes;
    } else {
      GroupTableStep(routes, i, limit);
      BuildFailsEarly(table + GroupTable(routes[..i], limit), Line(routes[i], limit));
      Regroup(table, GroupTable(routes[..i], limit), Line(routes[i], limit));
      GroupFailsEarly(table, routes, i + 1, limit);
    }
  }

  lemma LineBuilds(table: seq<Registration>, done: seq<Registration>, d: RouteDef, limit: Option<nat>)
    ensures var r := RegistrationOf(d, limit);
            Build(table + (done + Line(d, limit))) ==
            if r.None? || Build(table + done).None? then Build(table + done)
            else Insert(Build(table + done).value, r.value.pattern, r.value.verb, r.value.entry)
  {
    var r := RegistrationOf(d, limit);
    if r.Some? {
      BuildLast(table + done, r.value);
      assert table + (done + [r.value]) == table + done + [r.value];
    } else {
      assert done + [] == done;
    }
  }

  lemma TableStep(groups: seq<Group>, i: nat, global: nat)
    requires i < |groups|
    ensures TableOf(groups[..i + 1]) == TableOf(groups[..i]) + GroupTable(groups[i].routes, groups[i].limit)
    ensures MaxSeen(groups[..i + 1], global) ==
            if groups[i].limit.Some? then Larger(MaxSeen(groups[..i], global), groups[i].limit.value) else MaxSeen(groups[..i], global)
  {
    assert groups[..i + 1][..i] == groups[..i];
  }

  lemma {:induction false} TablePrefixFails(groups: seq<Group>, i: nat)
    requires i <= |groups| && Build(TableOf(groups[..i])).None?
    ensures Build(TableOf(groups)).None?
    decreases |groups| - i
  {
    if i == |groups| {
      assert groups[..i] == groups;
    } else {
      TableStep(groups, i, 0);
      BuildFailsEarly(TableOf(groups[..i]), GroupTable(groups[i].routes, groups[i].limit));
      TablePrefixFails(groups, i + 1);
    }
  }

  /** The server's routing state. */
  class Rpress {
    var tree: RouteNode
    var maxBodySize: nat
    var maxParserBodySize: nat

    constructor (maxBodySize: nat)
      ensures tree.Valid() && fresh(tree.repr) && tree.view == EMPTY && this !in tree.repr
      ensures this.maxBodySize == maxBodySize
    {
      tree := new RouteNode();
      this.maxBodySize, maxParserBodySize := maxBodySize, maxBodySize;
    }

    /** `initialize_routes`; false is the panic on conflicting parameter names. */
    method InitializeRoutes(groups: seq<Group>) returns (ok: bool)
      requires tree.Valid() && tree.view == EMPTY && this !in tree.repr
      modifies this`maxParserBodySize, tree.repr
      ensures ok <==> Build(TableOf(groups)).Some?
      ensures ok ==> tree.Valid() && Build(TableOf(groups)) == Some(tree.view)
      ensures ok ==> maxParserBodySize == MaxSeen(groups, maxBodySize)
    {
      var maxSeen := maxBodySize;
      for i := 0 to |groups|
        invariant tree.Valid() && this !in tree.repr && fresh(tree.repr - old(tree.repr))
        invariant Build(TableOf(groups[..i])) == Some(tree.view)
        invariant maxSeen == MaxSeen(groups[..i], maxBodySize)
      {
        TableStep(groups, i, maxBodySize);
        if groups[i].limit.Some? {
          maxSeen := Larger(maxSeen, groups[i].limit.value);
        }
        ok := AddGroup(groups[i], TableOf(groups[..i]));
        if !ok {
          TablePrefixFails(groups, i + 1);
          return;
        }
      }
      assert groups[..|groups|] == groups;
      maxParserBodySize := maxSeen;
      ok := true;
    }

    method AddGroup(group: Group, ghost table: seq<Registration>) returns (ok: bool)
      requires tree.Valid() && this !in tree.repr && Build(table) == Some(tree.view)
      modifies tree.repr
      ensures fresh(tree.repr - old(tree.repr))
      ensures ok <==> Build(table + GroupTable(group.routes, group.limit)).Some?
      ensures ok ==> tree.Valid() && Build(table + GroupTable(group.routes, group.limit)) == Some(tree.view)
    {
      ghost var done: seq<Registration> := [];
      assert table + done == table;
      for i := 0 to |group.routes|
        invariant tree.Valid() && fresh(tree.repr - old(tree.repr))
        invariant done == GroupTable(group.routes[..i], group.limit)
        invariant Build(table + done) == Some(tree.view)
      {
        ok := AddRoute(group.routes[i], group.limit, table, done);
        GroupTableStep(group.routes, i, group.limit);
        done := done + Line(group.routes[i], group.limit);
        if !ok {
          GroupFailsEarly(table, group.routes, i + 1, group.limit);
          return;
        }
      }
      assert group.routes[..|group.routes|] == group.routes;
      ok := true;
    }

    method AddRoute(d: RouteDef, limit: Option<nat>, ghost table: seq<Registration>, ghost done: seq<Registration>) returns (ok: bool)
      requires tree.Valid() && this !in tree.repr && Build(table + done) == Some(tree.view)
      modifies tree.repr
      ensures fresh(tree.repr - old(tree.repr))
      ensures ok <==> Build(table + (done + Line(d, limit))).Some?
      ensures ok ==> tree.Valid() && Build(table + (done + Line(d, limit))) == Some(tree.view)
    {
      LineBuilds(table, done, d, limit);
      var r := RegistrationOf(d, limit);
      ok := true;
      if r.Some? {
        ok := tree.Add(r.value.pattern, r.value.verb, r.value.entry);
      }
    }
  }
}
