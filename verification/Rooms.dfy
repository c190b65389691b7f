/**
  The in-memory adapter of engine/src/core/socketio/room.rs.

  The room table is a value; `RoomManager` is the object that owns one table, the
  outbound channels, and the log of the packets it has handed to those channels.
*/
module Rooms {
  import opened Wrappers

  /** Namespaces, rooms, sockets and sessions are named by strings that are only ever compared. */
  type Name(==, !new)

  type SocketId = Name
  type ChannelId = nat

  datatype RoomKey = RoomKey(namespace: Name, room: Name)

  type RoomTable = map<RoomKey, set<SocketId>>

  /** One packet handed to the outbound channel of one member. */
  datatype Delivery<+P> = Delivery(to: SocketId, channel: ChannelId, packet: P)

  function Members(table: RoomTable, key: RoomKey): set<SocketId> {
    if key in table then table[key] else {}
  }

  function Joined(table: RoomTable, key: RoomKey, id: SocketId): RoomTable {
    table[key := Members(table, key) + {id}]
  }

  function Left(table: RoomTable, key: RoomKey, id: SocketId): RoomTable {
    if key !in table then table
    else if table[key] - {id} == {} then map k | k in table && k != key :: table[k]
    else table[key := table[key] - {id}]
  }

  function LeftAll(table: RoomTable, id: SocketId): RoomTable {
    map k | k in table && table[k] - {id} != {} :: table[k] - {id}
  }

  ghost predicate NoEmptyRoom(table: RoomTable) {
    forall k <- table :: table[k] != {}
  }

  /** `id` is listed by no room at all. */
  ghost predicate Absent(table: RoomTable, id: SocketId) {
    forall k <- table :: id !in table[k]
  }

  /** Members of any room of the namespace. */
  ghost function NamespaceMembers(table: RoomTable, namespace: Name): set<SocketId> {
    set k, m | k in table && k.namespace == namespace && m in table[k] :: m
  }

  ghost function Reachable(members: set<SocketId>, senders: map<SocketId, ChannelId>, exclude: Option<SocketId>): set<SocketId> {
    set m | m in members && m in senders && exclude != Some(m)
  }

  /** How many deliveries of the log go to `id`. */
  ghost function Copies<P>(log: seq<Delivery<P>>, id: SocketId): nat {
    if log == [] then 0
    else Copies(log[..|log|-1], id) + if log[|log|-1].to == id then 1 else 0
  }

  /** Exactly one copy for every recipient, on its own channel, and none for anybody else. */
  ghost predicate OnePerRecipient<P>(sent: seq<Delivery<P>>, recipients: set<SocketId>, senders: map<SocketId, ChannelId>, packet: P) {
    && (forall id :: Copies(sent, id) == if id in recipients then 1 else 0)
    && (forall d <- sent :: d.packet == packet && d.to in senders && senders[d.to] == d.channel)
  }

  // ----- the table operations -----

  /** Membership after a join: the joined pair is added and nothing else changes. */
  lemma JoinedMembers(table: RoomTable, key: RoomKey, id: SocketId, k: RoomKey)
    ensures Members(Joined(table, key, id), k) == Members(table, k) + (if k == key then {id} else {})
    ensures NoEmptyRoom(table) ==> NoEmptyRoom(Joined(table, key, id))
  {
    assert id in Joined(table, key, id)[key];
  }

  /** Membership after a leave, and no room is left behind empty. */
  lemma LeftMembers(table: RoomTable, key: RoomKey, id: SocketId, k: RoomKey)
    ensures Members(Left(table, key, id), k) == Members(table, k) - (if k == key then {id} else {})
    ensures NoEmptyRoom(table) ==> NoEmptyRoom(Left(table, key, id))
  {
  }

  lemma LeftAllMembers(table: RoomTable, id: SocketId, k: RoomKey)
    ensures Members(LeftAll(table, id), k) == Members(table, k) - {id}
    ensures NoEmptyRoom(LeftAll(table, id))
  {
  }

  /** Tables without empty rooms are determined by their members. */
  lemma TableExtensionality(a: RoomTable, b: RoomTable)
    requires NoEmptyRoom(a) && NoEmptyRoom(b)
    requires forall k :: Members(a, k) == Members(b, k)
    ensures a == b
  {
    forall k ensures k in a <==> k in b {
      assert Members(a, k) == Members(b, k);
    }
    forall k | k in a ensures a[k] == b[k] {
      assert Members(a, k) == Members(b, k);
    }
  }

  /** A leave undoes the join of a socket that was not in the room. */
  lemma LeaveUndoesJoin(table: RoomTable, key: RoomKey, id: SocketId)
    requires NoEmptyRoom(table) && id !in Members(table, key)
    ensures Left(Joined(table, key, id), key, id) == table
  {
    var joined := Joined(table, key, id);
    JoinedMembers(table, key, id, key);
    LeftMembers(joined, key, id, key);
    forall k ensures Members(Left(joined, key, id), k) == Members(table, k) {
      JoinedMembers(table, key, id, k);
      LeftMembers(joined, key, id, k);
    }
    TableExtensionality(Left(joined, key, id), table);
  }

  /** Leaving everything a second time, or when nothing is left, is invisible. */
  lemma LeaveAllOfAbsent(table: RoomTable, id: SocketId)
    requires NoEmptyRoom(table) && Absent(table, id)
    ensures LeftAll(table, id) == table
  {
    forall k ensures Members(LeftAll(table, id), k) == Members(table, k) {
      LeftAllMembers(table, id, k);
    }
    LeftAllMembers(table, id, RoomKey(id, id));
    TableExtensionality(LeftAll(table, id), table);
  }

  lemma {:induction false} CopiesConcat<P>(a: seq<Delivery<P>>, b: seq<Delivery<P>>, id: SocketId)
    ensures Copies(a + b, id) == Copies(a, id) + Copies(b, id)
  {
    if b == [] {
      assert a + b == a;
    } else {
      CopiesConcat(a, b[..|b|-1], id);
      assert (a + b)[..|a + b|-1] == a + b[..|b|-1];
    }
  }

  lemma {:induction false} CopiesPositive<P>(log: seq<Delivery<P>>, id: SocketId)
    ensures Copies(log, id) > 0 <==> exists d <- log :: d.to == id
  {
    if log != [] {
      CopiesPositive(log[..|log|-1], id);
      var init, last := log[..|log|-1], log[|log|-1];
      assert log == init + [last];
      assert last in log;
      assert forall d <- init :: d in log;
    }
  }

  /** One more delivery extends the recipients by its addressee. */
  lemma OneMore<P>(sent: seq<Delivery<P>>, recipients: set<SocketId>, senders: map<SocketId, ChannelId>, packet: P, id: SocketId)
    requires OnePerRecipient(sent, recipients, senders, packet)
    requires id !in recipients && id in senders
    ensures OnePerRecipient(sent + [Delivery(id, senders[id], packet)], recipients + {id}, senders, packet)
  {
    var more := sent + [Delivery(id, senders[id], packet)];
    forall x ensures Copies(more, x) == if x in recipients + {id} then 1 else 0 {
      assert more[..|more|-1] == sent;
      assert Copies(sent, x) == if x in recipients then 1 else 0;
    }
  }

  // ----- copies sent by a builder that names several rooms -----

  /** How many of the named rooms list `id`, counted with multiplicity. */
  ghost function RoomsListing(table: RoomTable, namespace: Name, rooms: seq<Name>, id: SocketId): nat {
    if rooms == [] then 0
    else RoomsListing(table, namespace, rooms[..|rooms|-1], id)
         + if id in Members(table, RoomKey(namespace, rooms[|rooms|-1])) then 1 else 0
  }

  lemma {:induction false} RoomsListingBounds(table: RoomTable, namespace: Name, rooms: seq<Name>, id: SocketId)
    ensures RoomsListing(table, namespace, rooms, id) > 0
            <==> exists i :: 0 <= i < |rooms| && id in Members(table, RoomKey(namespace, rooms[i]))
    ensures RoomsListing(table, namespace, rooms, id) > 1
            <==> exists i, j :: 0 <= i < j < |rooms|
                   && id in Members(table, RoomKey(namespace, rooms[i]))
                   && id in Members(table, RoomKey(namespace, rooms[j]))
  {
    if rooms != [] {
      var n := |rooms| - 1;
      var init := rooms[..n];
      RoomsListingBounds(table, namespace, init, id);
      assert forall i :: 0 <= i < n ==> init[i] == rooms[i];
      if id in Members(table, RoomKey(namespace, rooms[n])) && RoomsListing(table, namespace, init, id) > 0 {
        var i :| 0 <= i < |init| && id in Members(table, RoomKey(namespace, init[i]));
        assert 0 <= i < n < |rooms|;
        assert id in Members(table, RoomKey(namespace, rooms[i])) && id in Members(table, RoomKey(namespace, rooms[n]));
      }
    }
  }

  /** The in-memory adapter. `outbox` logs every packet given to a channel, oldest first. */
  class RoomManager<P(==)> {
    var rooms: RoomTable
    var senders: map<SocketId, ChannelId>
    var outbox: seq<Delivery<P>>

    constructor ()
      ensures rooms == map[] && senders == map[] && outbox == []
    {
      rooms, senders, outbox := map[], map[], [];
    }

    method RegisterSender(id: SocketId, channel: ChannelId)
      modifies this`senders
      ensures senders == old(senders)[id := channel]
    {
      senders := senders[id := channel];
    }

    method UnregisterSender(id: SocketId)
      modifies this`senders
      ensures senders == old(senders) - {id}
    {
      senders := senders - {id};
    }

    method Join(namespace: Name, room: Name, id: SocketId)
      modifies this`rooms
      ensures rooms == Joined(old(rooms), RoomKey(namespace, room), id)
    {
      var key := RoomKey(namespace, room);
      if key !in rooms {
        rooms := rooms[key := {}];
      }
      rooms := rooms[key := rooms[key] + {id}];
    }

    method Leave(namespace: Name, room: Name, id: SocketId)
      modifies this`rooms
      ensures rooms == Left(old(rooms), RoomKey(namespace, room), id)
    {
      var key := RoomKey(namespace, room);
      if key in rooms {
        rooms := rooms[key := rooms[key] - {id}];
        if rooms[key] == {} {
          rooms := map k | k in rooms && k != key :: rooms[k];
        }
      }
    }

    /** Visits every room once, in any order, and drops the ones that end up empty. */
    method LeaveAll(id: SocketId)
      modifies this`rooms
      ensures rooms == LeftAll(old(rooms), id)
    {
      var todo := rooms.Keys;
      while todo != {}
        invariant todo <= old(rooms).Keys
        invariant forall k :: k in rooms <==> k in old(rooms) && (k in todo || old(rooms)[k] - {id} != {})
        invariant forall k <- rooms :: rooms[k] == if k in todo then old(rooms)[k] else old(rooms)[k] - {id}
      {
        var key :| key in todo;
        todo := todo - {key};
        rooms := rooms[key := rooms[key] - {id}];
        if rooms[key] == {} {
          rooms := map k | k in rooms && k != key :: rooms[k];
        }
      }
    }

    /** Every registered member of the room except the excluded one gets one copy. */
    method BroadcastRoom(namespace: Name, room: Name, packet: P, exclude: Option<SocketId>)
      modifies this`outbox
      ensures old(outbox) <= outbox
      ensures OnePerRecipient(outbox[|old(outbox)|..], Reachable(Members(rooms, RoomKey(namespace, room)), senders, exclude), senders, packet)
    {
      var key := RoomKey(namespace, room);
      var members := if key in rooms then rooms[key] else {};
      var todo := members;
      ghost var sent: seq<Delivery<P>> := [];
      while todo != {}
        invariant todo <= members
        invariant outbox == old(outbox) + sent
        invariant OnePerRecipient(sent, Reachable(members - todo, senders, exclude), senders, packet)
      {
        var id :| id in todo;
        ghost var before := Reachable(members - todo, senders, exclude);
        todo := todo - {id};
        if exclude == Some(id) {
          assert Reachable(members - todo, senders, exclude) == before;
          continue;
        }
        if id in senders {
          OneMore(sent, before, senders, packet, id);
          sent := sent + [Delivery(id, senders[id], packet)];
          outbox := outbox + [Delivery(id, senders[id], packet)];
          assert Reachable(members - todo, senders, exclude) == before + {id};
        } else {
          assert Reachable(members - todo, senders, exclude) == before;
        }
      }
      assert members - todo == Members(rooms, key);
      assert outbox[|old(outbox)|..] == sent;
    }

    /** One copy for every registered member of the namespace, however many of its rooms list it. */
    method BroadcastNamespace(namespace: Name, packet: P, exclude: Option<SocketId>)
      modifies this`outbox
      ensures old(outbox) <= outbox
      ensures OnePerRecipient(outbox[|old(outbox)|..], Reachable(NamespaceMembers(rooms, namespace), senders, exclude), senders, packet)
    {
      var sent: set<SocketId> := {};
      ghost var log: seq<Delivery<P>> := [];
      var todo := rooms.Keys;
      while todo != {}
        invariant todo <= rooms.Keys
        invariant outbox == old(outbox) + log
        invariant OnePerRecipient(log, sent, senders, packet)
        invariant sent <= Reachable(NamespaceMembers(rooms, namespace), senders, exclude)
        invariant forall k | k in rooms && k !in todo && k.namespace == namespace :: Reachable(rooms[k], senders, exclude) <= sent
      {
        var key :| key in todo;
        todo := todo - {key};
        if key.namespace != namespace {
          continue;
        }
        var inRoom := rooms[key];
        while inRoom != {}
          invariant inRoom <= rooms[key]
          invariant outbox == old(outbox) + log
          invariant OnePerRecipient(log, sent, senders, packet)
          invariant sent <= Reachable(NamespaceMembers(rooms, namespace), senders, exclude)
          invariant forall k | k in rooms && k !in todo && k != key && k.namespace == namespace :: Reachable(rooms[k], senders, exclude) <= sent
          invariant Reachable(rooms[key] - inRoom, senders, exclude) <= sent
        {
          var id :| id in inRoom;
          inRoom := inRoom - {id};
          if exclude == Some(id) || id in sent {
            continue;
          }
          if id in senders {
            OneMore(log, sent, senders, packet, id);
            log := log + [Delivery(id, senders[id], packet)];
            outbox := outbox + [Delivery(id, senders[id], packet)];
            sent := sent + {id};
          }
        }
        assert rooms[key] - inRoom == rooms[key];
      }
      assert Reachable(NamespaceMembers(rooms, namespace), senders, exclude) <= sent by {
        forall m | m in Reachable(NamespaceMembers(rooms, namespace), senders, exclude) ensures m in sent {
          var k :| k in rooms && k.namespace == namespace && m in rooms[k];
          assert m in Reachable(rooms[k], senders, exclude);
        }
      }
      assert outbox[|old(outbox)|..] == log;
    }
  }
}
