/**
  The routing trie as the source keeps it (`Route`, engine/src/core/routes.rs): nodes that own their
  children and are extended in place. Every method is proved against the trie value of Routes.dfy.
*/
module RouteTree {
  import opened Wrappers
  import opened Routes

  /** A trie with one child replaced. */
  function Replaced(r: Route, key: Option<Segment>, child: Route): Route {
    match key
    case Some(s) => r.(statics := r.statics[s := child])
    case None => if r.dynamic.Some? then r.(dynamic := Some(r.dynamic.value.(route := child))) else r
  }

  class RouteNode {
    var statics: map<Segment, RouteNode>
    /** The dynamic child and its parameter name, if there is one. */
    var paramName: string
    var param: RouteNode?
    var handlers: map<string, Entry>
    /** All nodes of this subtree, and the trie value it stands for. */
    ghost var repr: set<object>
    ghost var view: Route

    /** The nodes form a tree of which `view` is the value. */
    ghost predicate Valid()
      reads this, repr
      decreases repr, 1
    {
      && this in repr
      && view.handlers == handlers
      && view.statics.Keys == statics.Keys
      && (forall s <- statics :: Below(statics[s], view.statics[s]))
      && (forall s, t | s in statics && t in statics && s != t :: Apart(statics[s], statics[t]))
      && (view.dynamic.Some? <==> param != null)
      && (param != null ==> Below(param, view.dynamic.value.route) && view.dynamic.value.name == paramName)
      && (param != null ==> forall s <- statics :: Apart(statics[s], param))
    }

    /** A child inside this tree that stands for `value`. */
    ghost predicate Below(child: RouteNode, value: Route)
      reads this, repr
      decreases repr, 0
    {
      && this in repr && child in repr && child in child.repr && child.repr <= repr && this !in child.repr
      && child.Valid() && child.view == value
    }

    ghost predicate Apart(a: RouteNode, b: RouteNode)
      reads a, b
    {
      a.repr !! b.repr
    }

    constructor ()
      ensures Valid() && fresh(repr) && view == EMPTY
    {
      statics, paramName, param, handlers := map[], "", null, map[];
      repr, view := {this}, EMPTY;
    }

    /** `recursive_insert`; false is the panic. */
    method Add(pattern: seq<Segment>, verb: string, e: Entry) returns (ok: bool)
      requires Valid()
      modifies repr
      ensures fresh(repr - old(repr))
      ensures ok <==> Insert(old(view), pattern, verb, e).Some?
      ensures ok ==> Valid() && view == Insert(old(view), pattern, verb, e).value
      decreases |pattern|, 1
    {
      if pattern == [] {
        handlers := handlers[verb := e];
        view := view.(handlers := handlers);
        return true;
      }
      var s := pattern[0];
      if Dyn(s) {
        ok := AddDynamic(NameOf(s), pattern, verb, e);
      } else {
        ok := AddStatic(s, pattern, verb, e);
      }
    }

    /** `entry(..).or_default()` */
    method ChildFor(s: Segment) returns (child: RouteNode)
      requires Valid()
      modifies this
      ensures Valid() && fresh(repr - old(repr))
      ensures s in statics && child == statics[s]
      ensures view == old(view).(statics := old(view).statics[s := ChildAt(old(view), s)])
    {
      if s in statics {
        child := statics[s];
        assert view.statics == view.statics[s := view.statics[s]];
      } else {
        child := new RouteNode();
        AdoptStatic(s, child);
      }
    }

    method AdoptStatic(s: Segment, child: RouteNode)
      requires Valid() && s !in statics
      requires child.Valid() && child.view == EMPTY && child in child.repr && child.repr !! repr
      modifies this
      ensures Valid() && repr == old(repr) + child.repr
      ensures s in statics && child == statics[s]
      ensures view == old(view).(statics := old(view).statics[s := EMPTY])
    {
      statics := statics[s := child];
      repr := repr + child.repr;
      view := view.(statics := view.statics[s := EMPTY]);
    }

    method AddStatic(s: Segment, pattern: seq<Segment>, verb: string, e: Entry) returns (ok: bool)
      requires Valid() && pattern != [] && pattern[0] == s && !Dyn(s)
      modifies repr
      ensures fresh(repr - old(repr))
      ensures ok <==> Insert(old(view), pattern, verb, e).Some?
      ensures ok ==> Valid() && view == Insert(old(view), pattern, verb, e).value
      decreases |pattern|, 0
    {
      var child := ChildFor(s);
      ok := AddBelow(Some(s), child, pattern[1..], verb, e);
    }

    method DynamicFor(name: string) returns (child: RouteNode)
      requires Valid() && (param != null ==> paramName == name)
      modifies this
      ensures Valid() && fresh(repr - old(repr))
      ensures param == child && paramName == name
      ensures view == old(view).(dynamic := Some(Dynamic(name, if old(view).dynamic.Some? then old(view).dynamic.value.route else EMPTY)))
    {
      if param != null {
        child := param;
      } else {
        child := new RouteNode();
        paramName, param := name, child;
        repr := repr + child.repr;
        view := view.(dynamic := Some(Dynamic(name, EMPTY)));
      }
    }

    /** A child by its static segment, or the dynamic child. */
    ghost predicate IsChild(key: Option<Segment>, child: RouteNode)
      reads this
    {
      match key
      case Some(s) => s in statics && statics[s] == child
      case None => param == child
    }

    /** `Valid`, except that one child has grown and this node does not know it yet. */
    ghost predicate ValidBut(key: Option<Segment>, child: RouteNode)
      reads *
    {
      && this in repr && IsChild(key, child)
      && child in child.repr && this !in child.repr && child.Valid()
      && view.handlers == handlers
      && view.statics.Keys == statics.Keys
      && (view.dynamic.Some? <==> param != null)
      && (view.dynamic.Some? ==> view.dynamic.value.name == paramName)
      && (forall s <- statics | key != Some(s) :: Below(statics[s], view.statics[s]))
      && (param != null && key != None ==> Below(param, view.dynamic.value.route))
      && (forall s, t | s in statics && t in statics && s != t :: Apart(statics[s], statics[t]))
      && (param != null ==> forall s <- statics :: Apart(statics[s], param))
    }

    method AddToChild(key: Option<Segment>, child: RouteNode, rest: seq<Segment>, verb: string, e: Entry) returns (ok: bool)
      requires Valid() && IsChild(key, child)
      modifies child.repr
      ensures fresh(child.repr - old(child.repr))
      ensures ok <==> Insert(old(child.view), rest, verb, e).Some?
      ensures ok ==> ValidBut(key, child) && child.view == Insert(old(child.view), rest, verb, e).value
      decreases |rest|, 2
    {
      ok := child.Add(rest, verb, e);
    }

    /** Take the grown child's nodes and value over. */
    ghost method Adopt(key: Option<Segment>, child: RouteNode)
      requires ValidBut(key, child)
      modifies this`repr, this`view
      ensures Valid() && repr == old(repr) + child.repr && view == Replaced(old(view), key, child.view)
    {
      if key.Some? {
        AdoptGrownStatic(key.value, child);
      } else {
        AdoptGrownParam(child);
      }
    }

    ghost method AdoptGrownStatic(s: Segment, child: RouteNode)
      requires ValidBut(Some(s), child)
      modifies this`repr, this`view
      ensures Valid() && repr == old(repr) + child.repr && view == Replaced(old(view), Some(s), child.view)
    {
      repr := repr + child.repr;
      view := view.(statics := view.statics[s := child.view]);
      forall t <- statics ensures Below(statics[t], view.statics[t]) {
        if t != s { assert old(Below(statics[t], view.statics[t])); }
      }
    }

    ghost method AdoptGrownParam(child: RouteNode)
      requires ValidBut(None, child)
      modifies this`repr, this`view
      ensures Valid() && repr == old(repr) + child.repr && view == Replaced(old(view), None, child.view)
    {
      repr := repr + child.repr;
      view := view.(dynamic := Some(Dynamic(paramName, child.view)));
    }

    method AddBelow(key: Option<Segment>, child: RouteNode, rest: seq<Segment>, verb: string, e: Entry) returns (ok: bool)
      requires Valid() && IsChild(key, child)
      modifies repr
      ensures fresh(repr - old(repr))
      ensures ok <==> Insert(old(child.view), rest, verb, e).Some?
      ensures ok ==> Valid() && view == Replaced(old(view), key, Insert(old(child.view), rest, verb, e).value)
      decreases |rest|, 3
    {
      ok := AddToChild(key, child, rest, verb, e);
      if ok {
        Adopt(key, child);
      }
    }

    method AddDynamic(name: string, pattern: seq<Segment>, verb: string, e: Entry) returns (ok: bool)
      requires Valid() && pattern != [] && Dyn(pattern[0]) && NameOf(pattern[0]) == name
      modifies repr
      ensures fresh(repr - old(repr))
      ensures ok <==> Insert(old(view), pattern, verb, e).Some?
      ensures ok ==> Valid() && view == Insert(old(view), pattern, verb, e).value
      decreases |pattern|, 0
    {
      if param != null && paramName != name {
        return false;
      }
      var child := DynamicFor(name);
      ok := AddBelow(None, child, pattern[1..], verb, e);
    }

    /** `match_recursive`, which fills in `params` on its way. */
    method Search(path: seq<Segment>, params: Params) returns (node: RouteNode?, after: Params)
      requires Valid()
      ensures var (found, left) := Match(view, path, params);
              && after == left
              && (node == null <==> found.None?)
              && (node != null ==> node.Valid() && found == Some(node.view))
      decreases |path|
    {
      if path == [] {
        return if handlers == map[] then null else this, params;
      }
      after := params;
      if path[0] in statics {
        node, after := statics[path[0]].Search(path[1..], params);
        if node != null {
          return;
        }
      }
      if param != null {
        node, after := param.Search(path[1..], after[paramName := path[0]]);
      } else {
        node := null;
      }
    }

    /** `find` */
    method Lookup(path: string, verb: string) returns (m: RouteMatch)
      requires Valid()
      ensures m == Find(view, LookupSegments(path), verb)
    {
      var node, params := Search(LookupSegments(path), map[]);
      if node == null {
        m := NotFound;
      } else if verb in node.handlers {
        m := Found(node.handlers[verb].handler, params, node.handlers[verb].limit);
      } else {
        m := WrongMethod;
      }
    }

    /** `insert_route` */
    method Register(path: string, verb: string, handler: Handler, limit: Option<nat>) returns (ok: bool)
      requires Valid()
      modifies repr
      ensures fresh(repr - old(repr))
      ensures ok <==> Insert(old(view), PatternSegments(path), verb, Entry(handler, limit)).Some?
      ensures ok ==> Valid() && view == Insert(old(view), PatternSegments(path), verb, Entry(handler, limit)).value
    {
      ok := Add(PatternSegments(path), verb, Entry(handler, limit));
    }
  }
}
