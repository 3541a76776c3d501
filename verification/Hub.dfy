/**
 The panel's registry of live agent connections and their bounded write queues
 (internal/panel/hub.go).
 */
module Hub {
  import opened Wrappers

  // ------------------------------------------------- registry as a value

  /** A connection: the node it registered as, and which connection of the panel it is. */
  datatype ConnId = ConnId(node: int, serial: nat)

  datatype Event = Registered(conn: ConnId) | Unregistered(conn: ConnId)

  datatype Registry = Registry(conns: map<int, ConnId>, closed: set<ConnId>)

  function Register(r: Registry, c: ConnId): Registry {
    Registry(r.conns[c.node := c], if c.node in r.conns then r.closed + {r.conns[c.node]} else r.closed)
  }

  function Unregister(r: Registry, c: ConnId): Registry {
    Registry(if c.node in r.conns && r.conns[c.node] == c then r.conns - {c.node} else r.conns, r.closed + {c})
  }

  function After(events: seq<Event>): Registry {
    if events == [] then Registry(map[], {})
    else
      var r := After(events[..|events| - 1]);
      match events[|events| - 1]
      case Registered(c) => Register(r, c)
      case Unregistered(c) => Unregister(r, c)
  }

  /** Every connection registers once, and unregisters only after that. */
  ghost predicate Legal(events: seq<Event>) {
    forall k :: 0 <= k < |events| ==>
      match events[k]
      case Registered(c) => forall j :: 0 <= j < k ==> events[j].conn != c
      case Unregistered(c) => exists j :: 0 <= j < k && events[j] == Registered(c)
  }

  ghost predicate EverRegistered(events: seq<Event>, c: ConnId) {
    exists k :: 0 <= k < |events| && events[k] == Registered(c)
  }

  /** c registered, and since then it neither unregistered nor was followed by another of its node. */
  ghost predicate Current(events: seq<Event>, c: ConnId) {
    exists k :: 0 <= k < |events| && CurrentSince(events, c, k)
  }

  ghost predicate CurrentSince(events: seq<Event>, c: ConnId, k: nat)
    requires k < |events|
  {
    && events[k] == Registered(c)
    && forall j :: k < j < |events| ==>
         events[j] != Unregistered(c) && (events[j].Registered? ==> events[j].conn.node != c.node)
  }

  lemma CurrentStep(events: seq<Event>, c: ConnId)
    requires events != []
    ensures var last := events[|events| - 1];
      Current(events, c) <==>
        || last == Registered(c)
        || (Current(events[..|events| - 1], c)
            && last != Unregistered(c) && (last.Registered? ==> last.conn.node != c.node))
  {
    var n := |events| - 1;
    var init := events[..n];
    if events[n] == Registered(c) {
      assert CurrentSince(events, c, n);
    } else {
      if Current(events, c) {
        var k :| 0 <= k < |events| && CurrentSince(events, c, k);
        assert CurrentSince(init, c, k);
        assert events[n] != Unregistered(c);
      }
      if Current(init, c) && events[n] != Unregistered(c) && (events[n].Registered? ==> events[n].conn.node != c.node) {
        var k :| 0 <= k < |init| && CurrentSince(init, c, k);
        forall j | k < j < |events|
          ensures events[j] != Unregistered(c) && (events[j].Registered? ==> events[j].conn.node != c.node)
        {
          if j < n {
            assert init[j] == events[j];
          }
        }
        assert CurrentSince(events, c, k);
      }
    }
  }

  lemma LegalInit(events: seq<Event>)
    requires Legal(events) && events != []
    ensures Legal(events[..|events| - 1])
  {
  }

  /**
   Connection registry: over every interleaving of registers and unregisters, a
   node's entry is exactly its latest registered connection unless that one has
   unregistered, and a connection that ever registered is open exactly while it
   is that entry. So a late unregister of a displaced connection removes nothing.
   */
  lemma {:induction false} RegistryExact(events: seq<Event>)
    requires Legal(events)
    ensures forall c: ConnId :: c.node in After(events).conns && After(events).conns[c.node] == c <==> Current(events, c)
    ensures forall id :: id in After(events).conns ==> After(events).conns[id].node == id
    ensures forall c: ConnId :: c in After(events).closed <==>
      EverRegistered(events, c) && !Current(events, c)
  {
    if events == [] {
    } else {
      var n := |events| - 1;
      var init, last := events[..n], events[n];
      LegalInit(events);
      RegistryExact(init);
      forall c: ConnId {
        CurrentStep(events, c);
      }
      forall c: ConnId
        ensures c in After(events).closed <==>
          EverRegistered(events, c) && !Current(events, c)
      {
        RegisteredStep(events, c);
        if last == Unregistered(c) {
          assert exists j :: 0 <= j < n && events[j] == Registered(c);
        }
      }
    }
  }

  lemma RegisteredStep(events: seq<Event>, c: ConnId)
    requires events != []
    ensures EverRegistered(events, c) <==>
      events[|events| - 1] == Registered(c) || EverRegistered(events[..|events| - 1], c)
  {
  }

  /** An entry cannot be undone by the unregister of an older connection. */
  lemma LateUnregisterHarmless(r: Registry, old': ConnId, new': ConnId)
    requires old'.node == new'.node && old' != new'
    ensures Unregister(Register(r, new'), old').conns == Register(r, new').conns
  {
  }

  // ------------------------------------------------- the objects

  const QUEUE_CAPACITY := 8

  /** One connection with its bounded write queue of messages of type M. */
  class NodeConn<M> {
    const id: ConnId
    var send: seq<M>
    var closed: bool

    constructor (id: ConnId)
      ensures this.id == id && send == [] && !closed
    {
      this.id, send, closed := id, [], false;
    }

    /** close is idempotent; what was queued is not written any more. */
    method Close()
      modifies this`closed
      ensures closed
    {
      closed := true;
    }

    /** trySend never blocks: a full or closed queue drops the message and says so. */
    method TrySend(m: M) returns (sent: bool)
      modifies this`send
      ensures sent <==> !old(closed) && |old(send)| < QUEUE_CAPACITY
      ensures send == if sent then old(send) + [m] else old(send)
    {
      if closed || |send| >= QUEUE_CAPACITY {
        return false;
      }
      send := send + [m];
      return true;
    }

    /** writeLoop takes the oldest queued message. */
    method Take() returns (m: Option<M>)
      modifies this`send
      ensures old(send) == [] ==> m == None && send == []
      ensures old(send) != [] ==> m == Some(old(send)[0]) && send == old(send)[1..]
    {
      if send == [] {
        return None;
      }
      m := Some(send[0]);
      send := send[1..];
    }
  }

  class ConnTable<M> {
    var conns: map<int, NodeConn<M>>

    /** Every entry is open and filed under its own node. */
    ghost predicate Valid()
      reads this, conns.Values
    {
      forall node :: node in conns ==> conns[node].id.node == node && !conns[node].closed
    }

    function Entries(): map<int, ConnId>
      reads this
    {
      map node | node in conns :: conns[node].id
    }

    constructor ()
      ensures conns == map[] && Valid()
    {
      conns := map[];
    }

    method RegisterConn(c: NodeConn<M>)
      requires Valid() && !c.closed && c !in conns.Values
      modifies this, if c.id.node in conns then {conns[c.id.node]} else {}
      ensures Valid()
      ensures conns == old(conns)[c.id.node := c]
      ensures Entries() == Register(Registry(old(Entries()), {}), c.id).conns
      ensures c.id.node in old(conns) ==> old(conns)[c.id.node].closed
    {
      if c.id.node in conns {
        conns[c.id.node].Close();
      }
      conns := conns[c.id.node := c];
    }

    method UnregisterConn(c: NodeConn<M>) returns (removed: bool)
      requires Valid()
      modifies this, c`closed
      ensures Valid() && c.closed
      ensures removed <==> c.id.node in old(conns) && old(conns)[c.id.node] == c
      ensures conns == if removed then old(conns) - {c.id.node} else old(conns)
      ensures (c.id.node in old(conns) && old(conns)[c.id.node].id == c.id ==> old(conns)[c.id.node] == c) ==>
        Entries() == Unregister(Registry(old(Entries()), {}), c.id).conns
    {
      removed := c.id.node in conns && conns[c.id.node] == c;
      if removed {
        conns := conns - {c.id.node};
      }
      c.Close();
    }
  }
}
