/**
 Config delivery from the panel to one node (internal/panel/traffic.go syncNode
 and forceSyncNode, internal/panel/hub.go PushConfig, internal/panel/api.go
 handleUpdateNode): the per-node signature cache that skips needless pushes, the
 connection's queue, and the agent applying what it receives.

 syncNode and forceSyncNode are each one step with one clock reading. The node is
 the machine of ApplySteps, step by step: applies may fail half-way and go on from
 there, the agent may die at any point and recover or reject its baseline, Xray
 may restart by itself. Node ids are never reused, so a deleted node stays deleted.
 */
module PanelSync {
  import opened Wrappers
  import opened XrayConfig
  import opened Provisioning
  import opened ApplySteps
  import opened BaselineCrash
  import Hub

  /** What a config frame was generated from. */
  datatype Push = Push(params: NodeParams, users: seq<User>, now: int) {
    function Config(): Doc {
      NodeConfig(params, users, now)
    }

    function Sig(): string {
      Signature(users, now)
    }
  }

  // ------------------------------------------------- the panel's objects

  class Panel {
    const table: Hub.ConnTable<Push>
    var params: map<int, NodeParams>     // nodes rows
    var members: map<int, seq<User>>     // UsersForNode
    var cache: map<int, string>          // activeCache

    constructor (table: Hub.ConnTable<Push>)
      ensures this.table == table && params == map[] && members == map[] && cache == map[]
    {
      this.table, params, members, cache := table, map[], map[], map[];
    }

    function UsersForNode(id: int): seq<User>
      reads this
    {
      if id in members then members[id] else []
    }

    /** A write queue after a push of the node's current config, if it is accepted. */
    function Queued(queue: seq<Push>, id: int, now: int, accepted: bool): seq<Push>
      reads this
    {
      if accepted && id in params then queue + [Push(params[id], UsersForNode(id), now)] else queue
    }

    /** The push can be queued: the node is online, exists, and its queue has room. */
    ghost predicate Deliverable(id: int)
      reads this, table, table.conns.Values
    {
      id in table.conns && id in params && !table.conns[id].closed && |table.conns[id].send| < Hub.QUEUE_CAPACITY
    }

    /** The node's write queue takes another message. */
    ghost predicate HasRoom(id: int)
      reads table, table.conns.Values
    {
      id in table.conns && !table.conns[id].closed && |table.conns[id].send| < Hub.QUEUE_CAPACITY
    }

    /** What this panel holds about one node. */
    ghost function Row(id: int): NodeRow
      reads this, table, table.conns.Values
    {
      NodeRow(if id in params then Some(params[id]) else None, UsersForNode(id),
              if id in cache then Some(cache[id]) else None,
              if id in table.conns then Some(table.conns[id].send) else None)
    }

    method PushConfig(id: int, now: int) returns (sent: bool)
      modifies if id in table.conns then {table.conns[id]} else {}
      ensures sent <==> old(Deliverable(id))
      ensures id in table.conns ==> table.conns[id].closed == old(table.conns[id].closed)
      ensures id in table.conns ==> table.conns[id].send == Queued(old(table.conns[id].send), id, now, sent)
    {
      if id !in table.conns || id !in params {
        return false;
      }
      sent := table.conns[id].TrySend(Push(params[id], UsersForNode(id), now));
    }

    method SyncNode(id: int, now: int)
      modifies this`cache, if id in table.conns then {table.conns[id]} else {}
      ensures cache == old(SyncCache(cache, id, Signature(UsersForNode(id), now), Deliverable(id)))
      ensures id in table.conns ==>
        var skip := id in old(cache) && old(cache)[id] == Signature(UsersForNode(id), now);
        table.conns[id].send == Queued(old(table.conns[id].send), id, now, !skip && old(Deliverable(id)))
      ensures forall l :: Shows(l, old(Row(id))) ==> Shows(Next(l, Sync(now, old(HasRoom(id)))), Row(id))
    {
      ghost var row, room := Row(id), HasRoom(id);
      forall l | Shows(l, row) ensures Shows(Next(l, Sync(now, room)), SyncRow(row, now, room)) {
        SyncShows(l, row, now, room);
      }
      var sig := ActiveSignature(UsersForNode(id), now);
      if id in cache && cache[id] == sig {
        return;
      }
      var sent := PushConfig(id, now);
      if !sent {
        return;
      }
      cache := cache[id := sig];
      assert Row(id) == SyncRow(row, now, room);
    }

    method ForceSyncNode(id: int, now: int)
      modifies this`cache, if id in table.conns then {table.conns[id]} else {}
      ensures cache == old(ForceCache(cache, id, Signature(UsersForNode(id), now), Deliverable(id)))
      ensures id in table.conns ==>
        table.conns[id].send == Queued(old(table.conns[id].send), id, now, old(Deliverable(id)))
      ensures forall l :: Shows(l, old(Row(id))) ==> Shows(Next(l, Force(now, old(HasRoom(id)))), Row(id))
    {
      ghost var row, room := Row(id), HasRoom(id);
      forall l | Shows(l, row) ensures Shows(Next(l, Force(now, room)), ForceRow(row, now, room)) {
        ForceShows(l, row, now, room);
      }
      var sig := ActiveSignature(UsersForNode(id), now);
      var sent := PushConfig(id, now);
      if !sent {
        cache := cache - {id};
        assert Row(id) == ForceRow(row, now, room);
        return;
      }
      cache := cache[id := sig];
      assert Row(id) == ForceRow(row, now, room);
    }
  }

  /** A node as the panel's objects hold it: settings, users, cached signature, and the write queue if it is online. */
  datatype NodeRow = NodeRow(params: Option<NodeParams>, users: seq<User>, cache: Option<string>, queue: Option<seq<Push>>)

  /** l describes the row: what waits in the write queue is the end of what was queued. */
  ghost predicate Shows(l: Link, row: NodeRow) {
    && l.params == row.params && l.users == row.users && l.cache == row.cache
    && l.conn.Some? == row.queue.Some?
    && (row.queue.Some? ==> EndsWith(l.conn.value.log, row.queue.value))
  }

  function PushRow(row: NodeRow, now: int): NodeRow {
    if row.queue.Some? && row.params.Some? then
      row.(queue := Some(row.queue.value + [Push(row.params.value, row.users, now)]), cache := Some(Signature(row.users, now)))
    else row
  }

  function SyncRow(row: NodeRow, now: int, room: bool): NodeRow {
    if row.cache == Some(Signature(row.users, now)) || !room then row else PushRow(row, now)
  }

  function ForceRow(row: NodeRow, now: int, room: bool): NodeRow {
    if row.queue.Some? && row.params.Some? && room then PushRow(row, now) else row.(cache := None)
  }

  lemma PushShows(l: Link, row: NodeRow, now: int)
    requires Shows(l, row) && row.queue.Some? && row.params.Some?
    ensures Shows(Queue(l, now).(cache := Some(Signature(l.users, now))), PushRow(row, now))
  {
  }

  lemma SyncShows(l: Link, row: NodeRow, now: int, room: bool)
    requires Shows(l, row)
    ensures Shows(Next(l, Sync(now, room)), SyncRow(row, now, room))
  {
  }

  lemma ForceShows(l: Link, row: NodeRow, now: int, room: bool)
    requires Shows(l, row)
    ensures Shows(Next(l, Force(now, room)), ForceRow(row, now, room))
  {
    if row.queue.Some? && row.params.Some? {
      PushShows(l, row, now);
    }
  }

  ghost predicate EndsWith(log: seq<Push>, queue: seq<Push>) {
    |queue| <= |log| && log[|log| - |queue|..] == queue
  }

  /** The cache after syncNode and after forceSyncNode. */
  function SyncCache(cache: map<int, string>, id: int, sig: string, delivered: bool): map<int, string> {
    if (id in cache && cache[id] == sig) || !delivered then cache else cache[id := sig]
  }

  function ForceCache(cache: map<int, string>, id: int, sig: string, delivered: bool): map<int, string> {
    if delivered then cache[id := sig] else cache - {id}
  }

  // ------------------------------------------------- one node over time

  /** A connection: everything queued on it, and how much of that the agent has started to apply. */
  datatype Conn = Conn(log: seq<Push>, done: nat)

  datatype Link = Link(
    params: Option<NodeParams>,   // None once the node is deleted
    users: seq<User>,
    cache: Option<string>,
    conn: Option<Conn>,
    last: Option<Push>,           // last config queued for the node, on any connection
    forcing: bool,                // settings changed or an agent connected, forceSyncNode still to run
    node: State,
    raw: Option<Push>,            // last config the running agent received, as it was received
    bare: bool,                   // the TLS certificate was missing when that config was last applied
    safe: bool)                   // that apply met a node that it was sure to repair

  datatype Event =
    | SetUsers(users: seq<User>)     // any change of assignment, quota, expiry, usage or uuid
    | Sync(now: int, room: bool)     // room: the queue accepts the message
    | UpdateNode(params: NodeParams)
    | Connect
    | Force(now: int, room: bool)
    | Disconnect
    | DeleteNode
    | PanelRestarts
    | Receive(certMissing: bool)     // the agent starts to apply the next frame
    | Reapply(certMissing: bool)     // the certificate changed: the agent starts to apply its last config again
    | OnNode(step: Step)             // the apply goes on, the agent dies and restarts, or Xray does

  predicate Delivered(s: Link, room: bool) {
    s.conn.Some? && s.params.Some? && room
  }

  function Queue(s: Link, now: int): Link {
    if s.conn.Some? && s.params.Some? then
      var p := Push(s.params.value, s.users, now);
      s.(conn := Some(s.conn.value.(log := s.conn.value.log + [p])), last := Some(p))
    else s
  }

  /** The config that the next frame brings, as written to the node's file. */
  function Incoming(s: Link, certMissing: bool): Doc {
    if s.conn.Some? && s.conn.value.done < |s.conn.value.log|
    then Strip(s.conn.value.log[s.conn.value.done].Config(), certMissing) else Malformed
  }

  /** The config that the agent applies again, as written to the node's file. */
  function Again(s: Link, certMissing: bool): Doc {
    if s.raw.Some? then Strip(s.raw.value.Config(), certMissing) else Malformed
  }

  /** The agent starts to apply a document. */
  ghost function Start(s: Link, doc: Doc, certMissing: bool): Link {
    s.(node := Apply(s.node, Write(doc)), bare := certMissing, safe := Repairs(s.node, doc))
  }

  ghost predicate Possible(s: Link, e: Event) {
    match e
    case SetUsers(users) => Valid(users)
    case UpdateNode(_) => s.params.Some?
    case Receive(_) => s.conn.Some? && s.conn.value.done < |s.conn.value.log| && Ready(s.node)
    case Reapply(_) => s.raw.Some? && Ready(s.node)
    case OnNode(step) => !step.Write? && Enabled(s.node, step)
    case _ => true
  }

  ghost function Next(s: Link, e: Event): Link {
    match e
    case SetUsers(users) => s.(users := users)
    case Sync(now, room) =>
      var sig := Signature(s.users, now);
      if s.cache == Some(sig) || !Delivered(s, room) then s else Queue(s, now).(cache := Some(sig))
    case UpdateNode(params) => s.(params := Some(params), forcing := true)
    case Connect => s.(conn := Some(Conn([], 0)), forcing := true)
    case Force(now, room) =>
      if Delivered(s, room) then Queue(s, now).(cache := Some(Signature(s.users, now)), forcing := false)
      else s.(cache := None, forcing := false)
    case Disconnect => s.(conn := None)
    case DeleteNode => s.(params := None, users := [])
    case PanelRestarts => s.(cache := None, conn := None, forcing := false)
    case Receive(certMissing) =>
      if s.conn.Some? && s.conn.value.done < |s.conn.value.log| then
        Start(s, Incoming(s, certMissing), certMissing).(
          conn := Some(s.conn.value.(done := s.conn.value.done + 1)), raw := Some(s.conn.value.log[s.conn.value.done]))
      else s
    case Reapply(certMissing) => Start(s, Again(s, certMissing), certMissing)
    case OnNode(step) =>
      var t := s.(node := Apply(s.node, step));
      if step.Crash? then t.(conn := None, raw := None) else t
  }

  ghost function After(s: Link, events: seq<Event>): Link
    decreases |events|
  {
    if events == [] then s else After(Next(s, events[0]), events[1..])
  }

  ghost predicate History(s: Link, events: seq<Event>)
    decreases |events|
  {
    events == [] || (Possible(s, events[0]) && History(Next(s, events[0]), events[1..]))
  }

  /** A new node: nobody assigned, never connected, and an agent that has recorded nothing. */
  function Init(params: NodeParams, running: Running): Link {
    Link(Some(params), [], None, None, None, false, Boot(None, running), None, false, true)
  }

  /** Nothing is about to force a push, so the cached signature is in charge. */
  predicate Settled(s: Link) {
    s.cache.Some? && s.params.Some? && !s.forcing
  }

  /** The agent has applied everything queued on the current connection, and the last apply returned nil. */
  predicate Drained(s: Link) {
    s.conn.Some? && s.conn.value.done == |s.conn.value.log| && s.node.phase == Done(true)
  }

  ghost predicate CacheInv(s: Link) {
    && Valid(s.users)
    && (s.last.Some? ==> Valid(s.last.value.users))
    && (Settled(s) ==>
          && s.last.Some?
          && s.last.value.params == s.params.value
          && s.last.value.Sig() == s.cache.value
          && (s.conn.Some? ==> s.conn.value.log != [] && s.conn.value.log[|s.conn.value.log| - 1] == s.last.value))
  }

  /** The node's file holds the last frame received, less TLS if it was bare, and its apply is safe if it began safely. */
  ghost predicate NodeInv(s: Link) {
    s.conn.Some? ==>
      && s.conn.value.done <= |s.conn.value.log|
      && (s.conn.value.done > 0 ==>
            && s.raw == Some(s.conn.value.log[s.conn.value.done - 1])
            && s.node.file == Some(Strip(s.raw.value.Config(), s.bare))
            && (s.safe ==> ApplySafe(s.node)))
  }

  lemma CacheQueued(s: Link, now: int, forcing: bool)
    requires CacheInv(s) && s.conn.Some? && s.params.Some?
    ensures CacheInv(Queue(s, now).(cache := Some(Signature(s.users, now)), forcing := forcing))
  {
  }

  /** Settled only if it was before, with the same settings, cache and queue. */
  lemma CacheFrame(s: Link, t: Link)
    requires CacheInv(s) && Valid(t.users) && t.last == s.last
    requires Settled(t) ==> Settled(s) && t.params == s.params && t.cache == s.cache
    requires Settled(t) && t.conn.Some? ==> s.conn.Some? && t.conn.value.log == s.conn.value.log
    ensures CacheInv(t)
  {
  }

  lemma CacheStep(s: Link, e: Event)
    requires CacheInv(s) && Possible(s, e)
    ensures CacheInv(Next(s, e))
  {
    if (e.Sync? || e.Force?) && Delivered(s, e.room) {
      CacheQueued(s, e.now, if e.Force? then false else s.forcing);
    } else {
      CacheFrame(s, Next(s, e));
    }
  }

  lemma NodeStep(s: Link, e: Event)
    requires NodeInv(s) && Possible(s, e)
    ensures NodeInv(Next(s, e))
  {
    match e
    case Receive(certMissing) =>
      if Repairs(s.node, Incoming(s, certMissing)) {
        WriteSafe(s.node, Incoming(s, certMissing));
      }
    case Reapply(certMissing) =>
      if Repairs(s.node, Again(s, certMissing)) {
        WriteSafe(s.node, Again(s, certMissing));
      }
    case OnNode(step) =>
      if !step.Crash? && ApplySafe(s.node) {
        SafeStep(s.node, step);
      }
    case _ =>
  }

  lemma {:induction false} InvRun(s: Link, events: seq<Event>)
    requires CacheInv(s) && NodeInv(s) && History(s, events)
    ensures CacheInv(After(s, events)) && NodeInv(After(s, events))
    decreases |events|
  {
    if events == [] {
    } else {
      CacheStep(s, events[0]);
      NodeStep(s, events[0]);
      InvRun(Next(s, events[0]), events[1..]);
    }
  }

  // ------------------------------------------------- theorems

  /** The same active users under the same settings make the same Xray. */
  lemma SameUsersSameLoad(p: NodeParams, a: seq<User>, nowA: int, b: seq<User>, nowB: int)
    requires Valid(a) && Valid(b)
    requires forall name: string, id: string :: Provides(a, nowA, name, id) <==> Provides(b, nowB, name, id)
    ensures Load(NodeConfig(p, a, nowA)) == Load(NodeConfig(p, b, nowB))
  {
    var ca, cb := ActiveClients(a, nowA), ActiveClients(b, nowB);
    BuildSkeleton(p, ca, cb);
    BuildClients(p, ca);
    BuildClients(p, cb);
    ActiveClientsGood(a, nowA);
    ActiveClientsGood(b, nowB);
    ActiveClientsMeaning(a, nowA);
    ActiveClientsMeaning(b, nowB);
    forall c ensures c in ca <==> c in cb {
      assert Client(c.uuid, c.email) in ca <==> Provides(a, nowA, c.email, c.uuid);
      assert Client(c.uuid, c.email) in cb <==> Provides(b, nowB, c.email, c.uuid);
    }
    SameClientsSameUsers(ca, cb);
  }

  /**
   Skip soundness: in every reachable state of an existing node with no forced
   push outstanding, a sync that skips would have pushed a config that loads
   exactly like the last one queued, and that one sits at the end of the current
   connection's queue if the node is online. Dropped pushes, reconnects and failed
   force-syncs cannot break this.
   */
  lemma SkipSound(params: NodeParams, running: Running, events: seq<Event>, now: int)
    requires History(Init(params, running), events)
    ensures var s := After(Init(params, running), events);
      Settled(s) && s.cache == Some(Signature(s.users, now)) ==>
        && s.last.Some?
        && Load(NodeConfig(s.params.value, s.users, now)) == Load(s.last.value.Config())
        && (s.conn.Some? ==> s.conn.value.log != [] && s.conn.value.log[|s.conn.value.log| - 1] == s.last.value)
  {
    InvRun(Init(params, running), events);
    SkipSoundIn(After(Init(params, running), events), now);
  }

  lemma SkipSoundIn(s: Link, now: int)
    requires CacheInv(s)
    ensures Settled(s) && s.cache == Some(Signature(s.users, now)) ==>
      && s.last.Some?
      && Load(NodeConfig(s.params.value, s.users, now)) == Load(s.last.value.Config())
      && (s.conn.Some? ==> s.conn.value.log != [] && s.conn.value.log[|s.conn.value.log| - 1] == s.last.value)
  {
    if Settled(s) && s.cache == Some(Signature(s.users, now)) {
      SameAsLast(s, now);
    }
  }

  /** A cached signature that equals the current one stands for a config that loads like the current one. */
  lemma SameAsLast(s: Link, now: int)
    requires CacheInv(s) && Settled(s) && s.cache == Some(Signature(s.users, now))
    ensures Load(NodeConfig(s.params.value, s.users, now)) == Load(s.last.value.Config())
  {
    var p := s.last.value;
    CanonicalSignature(s.users, now, p.users, p.now);
    SameUsersSameLoad(p.params, s.users, now, p.users, p.now);
  }

  /**
   An inbound the node should serve: it is there, unless it is TLS and the
   certificate was missing at the last apply, and it holds exactly the users active
   now.
   */
  ghost predicate Serves(s: Link, now: int, tag: string) {
    var sets := s.node.running.clients;
    && (tag in sets <==> !(tag == TAG_TLS && s.bare))
    && (tag in sets ==> forall name: string, id: string ::
          name in sets[tag] && sets[tag][name] == id <==> Provides(s.users, now, name, id))
  }

  lemma ServesLoaded(s: Link, now: int, tag: string)
    requires CacheInv(s) && Settled(s) && s.cache == Some(Signature(s.users, now)) && tag in ServedTags(s.params.value)
    requires s.node.file == Some(Strip(s.last.value.Config(), s.bare)) && s.node.running == Load(s.node.file.value)
    ensures Serves(s, now, tag)
  {
    var p := s.last.value;
    SameAsLast(s, now);
    StripClients(p.Config().inbounds);
    forall name: string, id: string ensures var sets := Load(NodeConfig(p.params, s.users, now)).clients;
        tag in sets && (name in sets[tag] && sets[tag][name] == id <==> Provides(s.users, now, name, id))
    {
      ConfigProvides(p.params, s.users, now, tag, name, id);
    }
  }

  /**
   End-to-end convergence, for every history: pushes lost or skipped, applies that
   failed and left Xray half-way, agents that died and recovered any baseline. In
   every reachable state in which the node is online, its queue is applied with the
   last apply returning nil, a sync would find nothing to do, and the last frame
   met a node that it was sure to repair, every inbound the node should serve is
   there and holds exactly the users active now, except that TLS is absent if and
   only if its certificate was missing when the config was last applied.
   */
  lemma Converged(params: NodeParams, running: Running, events: seq<Event>, now: int, tag: string)
    requires History(Init(params, running), events)
    ensures var s := After(Init(params, running), events);
      Settled(s) && Drained(s) && s.safe && s.cache == Some(Signature(s.users, now)) && tag in ServedTags(s.params.value)
      ==> Serves(s, now, tag)
  {
    InvRun(Init(params, running), events);
    var s := After(Init(params, running), events);
    if Settled(s) && Drained(s) && s.safe && s.cache == Some(Signature(s.users, now)) && tag in ServedTags(s.params.value) {
      ServesLoaded(s, now, tag);
    }
  }

  // ------------------------------------------------- when frames are safe

  /** The node's steps are orderly: the condition on pushes, and at most one write behind a recovered baseline. */
  ghost predicate OrderlyEvent(s: Link, e: Event) {
    match e
    case Receive(certMissing) => Orderly(s.node, Write(Incoming(s, certMissing)))
    case Reapply(certMissing) => Orderly(s.node, Write(Again(s, certMissing)))
    case OnNode(step) => Orderly(s.node, step)
    case _ => true
  }

  ghost predicate AllOrderlyEvents(s: Link, events: seq<Event>)
    decreases |events|
  {
    events == [] || (OrderlyEvent(s, events[0]) && AllOrderlyEvents(Next(s, events[0]), events[1..]))
  }

  lemma OrderlyStart(node: State, doc: Doc)
    requires BaselineCrash.Inv(node) && Enabled(node, Write(doc)) && Orderly(node, Write(doc))
    ensures BaselineCrash.Inv(Apply(node, Write(doc))) && Repairs(node, doc)
  {
    RecordedRepairs(node, doc);
    BaselineCrash.InvStep(node, Write(doc));
  }

  lemma OrderlyStep(s: Link, e: Event)
    requires Possible(s, e) && OrderlyEvent(s, e) && BaselineCrash.Inv(s.node) && s.safe
    ensures BaselineCrash.Inv(Next(s, e).node) && Next(s, e).safe
  {
    match e
    case Receive(certMissing) => OrderlyStart(s.node, Incoming(s, certMissing));
    case Reapply(certMissing) => OrderlyStart(s.node, Again(s, certMissing));
    case OnNode(step) => BaselineCrash.InvStep(s.node, step);
    case _ =>
  }

  lemma {:induction false} OrderlyRun(s: Link, events: seq<Event>)
    requires History(s, events) && AllOrderlyEvents(s, events) && BaselineCrash.Inv(s.node) && s.safe
    ensures BaselineCrash.Inv(After(s, events).node) && After(s, events).safe
    decreases |events|
  {
    if events == [] {
    } else {
      OrderlyStep(s, events[0]);
      OrderlyRun(Next(s, events[0]), events[1..]);
    }
  }

  /**
   Convergence of orderly histories: if each push starts with no baseline, with no
   write outstanding, or repairs, and no baseline is recovered across more than one
   write, then every node that is online, drained and in sync serves its users.
   */
  lemma ConvergedOrderly(params: NodeParams, running: Running, events: seq<Event>, now: int, tag: string)
    requires History(Init(params, running), events) && AllOrderlyEvents(Init(params, running), events)
    ensures var s := After(Init(params, running), events);
      Settled(s) && Drained(s) && s.cache == Some(Signature(s.users, now)) && tag in ServedTags(s.params.value)
      ==> Serves(s, now, tag)
  {
    OrderlyRun(Init(params, running), events);
    Converged(params, running, events, now, tag);
  }

  // ------------------------------------------------- when they are not

  lemma {:induction false} HistoryExtends(s: Link, events: seq<Event>, e: Event)
    requires History(s, events) && Possible(After(s, events), e)
    ensures History(s, events + [e]) && After(s, events + [e]) == Next(After(s, events), e)
    decreases |events|
  {
    var all := events + [e];
    if events == [] {
      assert all[0] == e && all[1..] == [];
      assert History(Next(s, e), []);
    } else {
      HistoryExtends(Next(s, events[0]), events[1..], e);
      assert all[0] == events[0] && all[1..] == events[1..] + [e];
    }
  }

  /** A frame that is not sure to repair can be applied with nil and leave Xray on something else. */
  lemma UnsafeFrameCanMiss(s: Link, certMissing: bool) returns (events: seq<Event>)
    requires Possible(s, Receive(certMissing)) && !Repairs(s.node, Incoming(s, certMissing))
    ensures History(s, events)
    ensures var t := After(s, events);
      && t.conn == Some(s.conn.value.(done := s.conn.value.done + 1)) && t.node.phase == Done(true)
      && t.node.file == Some(Incoming(s, certMissing)) && t.node.running != Load(Incoming(s, certMissing))
  {
    var steps := MissingSteps(s.node, Incoming(s, certMissing));
    events := [Receive(certMissing)] + NodeEvents(steps);
    NodeEventsRun(Next(s, Receive(certMissing)), steps);
    assert events[1..] == NodeEvents(steps);
  }

  lemma MissingSteps(node: State, doc: Doc) returns (steps: seq<Step>)
    requires !Repairs(node, doc)
    ensures var w := Apply(node, Write(doc));
      && Works(w, steps)
      && var t := Exec(w, steps); t.phase == Done(true) && t.file == Some(doc) && t.running != Load(doc)
  {
    RepairsExactly(node, doc);
    var t :| ApplyRun(node, doc, t) && t.phase == Done(true) && t.running != Load(doc);
    RunOutcome(node, doc, t);
    steps :| Works(Apply(node, Write(doc)), steps) && Exec(Apply(node, Write(doc)), steps) == t;
  }

  function NodeEvents(steps: seq<Step>): seq<Event> {
    seq(|steps|, i requires 0 <= i < |steps| => OnNode(steps[i]))
  }

  lemma {:induction false} NodeEventsRun(s: Link, steps: seq<Step>)
    requires Works(s.node, steps)
    ensures History(s, NodeEvents(steps)) && After(s, NodeEvents(steps)) == s.(node := Exec(s.node, steps))
    decreases |steps|
  {
    var events := NodeEvents(steps);
    if steps != [] {
      assert Working(steps[0]) && events[0] == OnNode(steps[0]);
      NodeEventsRun(Next(s, events[0]), steps[1..]);
      assert events[1..] == NodeEvents(steps[1..]);
    }
  }

  /** alice and bob, as users of the example node. */
  function Pair(): seq<User> {
    [User("alice", "u1", true, 0, 0, 0), User("bob", "u2", true, 0, 0, 0)]
  }

  lemma PairConfig()
    ensures Valid(Pair()) && Valid([])
    ensures NodeConfig(Settings(), Pair(), 0) == TwoUsers() && NodeConfig(Settings(), [], 0) == NoUsers()
    ensures Provides(Pair(), 0, "alice", "u1") && TAG_REALITY in ServedTags(Settings())
  {
    var pair := Pair();
    assert pair[..1] == [pair[0]] && [pair[0]][..0] == [];
    assert ActiveClients([pair[0]], 0) == [Client("u1", "alice")];
    assert ActiveClients(pair, 0) == [Client("u1", "alice"), Client("u2", "bob")];
    assert pair[0].Active(0);
  }

  /** The state after a connected agent was sent the node's config and started to apply it. */
  function Delivery(s: Link, users: seq<User>): Link
    requires s.params.Some?
  {
    var p := Push(s.params.value, users, 0);
    s.(users := users, conn := Some(Conn([p], 1)), last := Some(p), cache := Some(Signature(users, 0)), forcing := false,
       node := Apply(s.node, Write(p.Config())), raw := Some(p), bare := false)
  }

  lemma DeliveryReached(init: Link, events: seq<Event>, users: seq<User>) returns (more: seq<Event>)
    requires History(init, events) && Valid(users)
    requires var s := After(init, events); s.params.Some? && Ready(s.node)
    ensures History(init, more)
    ensures var s, t := After(init, events), After(init, more);
      t == Delivery(s, users).(safe := Repairs(s.node, NodeConfig(s.params.value, users, 0)))
  {
    more := events;
    var s := After(init, more);
    HistoryExtends(init, more, SetUsers(users));
    more := more + [SetUsers(users)];
    HistoryExtends(init, more, Connect);
    more := more + [Connect];
    HistoryExtends(init, more, Force(0, true));
    more := more + [Force(0, true)];
    var p := Push(s.params.value, users, 0);
    assert [] + [p] == [p];
    assert Incoming(After(init, more), false) == p.Config();
    HistoryExtends(init, more, Receive(false));
    more := more + [Receive(false)];
  }

  lemma NodeStepReached(init: Link, events: seq<Event>, step: Step) returns (more: seq<Event>)
    requires History(init, events) && !step.Write? && Enabled(After(init, events).node, step)
    ensures History(init, more) && After(init, more) == Next(After(init, events), OnNode(step))
  {
    HistoryExtends(init, events, OnNode(step));
    more := events + [OnNode(step)];
  }

  /** The same, seen from the node only: it gets doc, and works off some steps. */
  lemma DeliveryAndStepsReached(init: Link, events: seq<Event>, users: seq<User>, doc: Doc, steps: seq<Step>) returns (more: seq<Event>)
    requires History(init, events) && Valid(users)
    requires var s := After(init, events); s.params.Some? && Ready(s.node) && doc == NodeConfig(s.params.value, users, 0)
    requires Legal(Apply(After(init, events).node, Write(doc)), steps) && forall i :: 0 <= i < |steps| ==> !steps[i].Write?
    ensures History(init, more)
    ensures var s, t := After(init, events), After(init, more);
      t.params == s.params && t.node == Exec(Apply(s.node, Write(doc)), steps)
  {
    more := DeliveryReached(init, events, users);
    more := NodeStepsReached(init, more, steps);
  }

  lemma {:induction false} NodeStepsReached(init: Link, events: seq<Event>, steps: seq<Step>) returns (more: seq<Event>)
    requires History(init, events) && Legal(After(init, events).node, steps)
    requires forall i :: 0 <= i < |steps| ==> !steps[i].Write?
    ensures History(init, more)
    ensures After(init, more).params == After(init, events).params
    ensures After(init, more).node == Exec(After(init, events).node, steps)
    decreases |steps|
  {
    more := events;
    if steps != [] {
      more := NodeStepReached(init, events, steps[0]);
      more := NodeStepsReached(init, more, steps[1..]);
    }
  }

  lemma TwoSteps(s: State, a: Step, b: Step)
    requires Enabled(s, a) && Enabled(Apply(s, a), b)
    ensures Legal(s, [a, b]) && Exec(s, [a, b]) == Apply(Apply(s, a), b)
  {
    assert Legal(s, []) && Exec(s, []) == s;
    Extend(s, [], a);
    assert [] + [a] == [a];
    Extend(s, [a], b);
    assert [a] + [b] == [a, b];
  }

  /** Two users served, then a live removal cut short by the agent's death. */
  lemma CutShortHistory(running: Running) returns (events: seq<Event>)
    ensures History(Init(Settings(), running), events)
    ensures var s := After(Init(Settings(), running), events);
      && s.params == Some(Settings())
      && s.node == State(Some(NoUsers()), Put(Load(TwoUsers()), ALICE, None), None, Some(TwoUsers()), Idle, 1)
  {
    var init := Init(Settings(), running);
    PairConfig();
    events := ServedHistory(running);
    var node := After(init, events).node;
    RemovalStarts(node);
    TwoSteps(Apply(node, Write(NoUsers())), Edit(ALICE, false), Crash);
    events := DeliveryAndStepsReached(init, events, [], NoUsers(), [Edit(ALICE, false), Crash]);
  }

  lemma ServedHistory(running: Running) returns (events: seq<Event>)
    ensures History(Init(Settings(), running), events)
    ensures var s := After(Init(Settings(), running), events);
      && s.params == Some(Settings())
      && s.node == State(Some(TwoUsers()), Load(TwoUsers()), Some(TwoUsers()), Some(TwoUsers()), Done(true), 0)
  {
    var init := Init(Settings(), running);
    PairConfig();
    TwoSteps(Apply(init.node, Write(TwoUsers())), RestartDone, Record);
    events := DeliveryAndStepsReached(init, [], Pair(), TwoUsers(), [RestartDone, Record]);
  }

  lemma RemovalStarts(node: State)
    requires node.mem == Some(TwoUsers()) && node.running == Load(TwoUsers())
    ensures var t := Apply(node, Write(NoUsers()));
      && t == node.(file := Some(NoUsers()), phase := Editing(NoUsers(), Delta(TwoUsers(), NoUsers()), None), writes := node.writes + 1)
      && Enabled(t, Edit(ALICE, false)) && Removes(t, ALICE)
  {
    ExampleUsers();
    ExampleDelta();
  }

  /**
   A history that is not orderly and does not converge: after the cut above, the
   old users are assigned again, their push cannot restart Xray, and the agent dies.
   Two writes lie behind the baseline it now recovers, so the next push of the same
   users succeeds without a call: the node is online, drained and in sync, and
   alice is not served.
   */
  lemma RecoveredBaselineMisses(running: Running) returns (events: seq<Event>)
    ensures History(Init(Settings(), running), events)
    ensures var s := After(Init(Settings(), running), events);
      && Settled(s) && Drained(s) && s.cache == Some(Signature(s.users, 0)) && TAG_REALITY in ServedTags(s.params.value)
      && !Serves(s, 0, TAG_REALITY)
  {
    var init := Init(Settings(), running);
    PairConfig();
    events := RecoveredHistory(running);
    SamePushAgain(After(init, events).node);
    events := DeliveryReached(init, events, Pair());
    events := FinishUntouched(init, events);
    AliceMissing(After(init, events));
  }

  lemma SamePushAgain(node: State)
    requires node.mem == Some(TwoUsers())
    ensures Apply(node, Write(TwoUsers())) ==
      node.(file := Some(TwoUsers()), phase := Editing(TwoUsers(), {}, None), writes := node.writes + 1)
  {
    ExampleDelta();
  }

  /** An apply with nothing to do returns nil and records its config. */
  lemma FinishUntouched(init: Link, events: seq<Event>) returns (more: seq<Event>)
    requires History(init, events)
    requires var node := After(init, events).node; node.phase.Editing? && node.phase.todo == {}
    ensures History(init, more)
    ensures var s := After(init, events);
      var doc := s.node.phase.doc;
      After(init, more) == s.(node := s.node.(mem := Some(doc), disk := Some(doc), phase := Done(true), writes := 0))
  {
    more := NodeStepReached(init, events, LiveDone);
    more := NodeStepReached(init, more, Record);
  }

  lemma RecoveredHistory(running: Running) returns (events: seq<Event>)
    ensures History(Init(Settings(), running), events)
    ensures var s := After(Init(Settings(), running), events);
      && s.params == Some(Settings())
      && s.node == State(Some(TwoUsers()), Put(Load(TwoUsers()), ALICE, None), Some(TwoUsers()), Some(TwoUsers()), Idle, 0)
  {
    var init := Init(Settings(), running);
    PairConfig();
    events := CutShortHistory(running);
    var node := After(init, events).node;
    TwoSteps(Apply(node, Write(TwoUsers())), RestartFails, Crash);
    events := DeliveryAndStepsReached(init, events, Pair(), TwoUsers(), [RestartFails, Crash]);
  }

  lemma AliceMissing(s: Link)
    requires s.users == Pair() && s.node.running == Put(Load(TwoUsers()), ALICE, None)
    ensures !Serves(s, 0, TAG_REALITY)
  {
    PairConfig();
    ExampleUsers();
    PutAt(Load(TwoUsers()), ALICE, None, ALICE);
    assert At(s.node.running.clients, ALICE) == None;
    assert Provides(s.users, 0, "alice", "u1");
  }

  /** A pushed change is never forgotten: if the user set differs, a sync of an online node with room queues it. */
  lemma SyncQueuesChanges(s: Link, now: int)
    requires CacheInv(s) && Settled(s) && s.conn.Some?
    ensures var t := Next(s, Sync(now, true));
      if forall name: string, id: string ::
           Provides(s.users, now, name, id) <==> Provides(s.last.value.users, s.last.value.now, name, id)
      then t == s
      else t.last == Some(Push(s.params.value, s.users, now)) && t.conn.value.log == s.conn.value.log + [t.last.value]
  {
    CanonicalSignature(s.users, now, s.last.value.users, s.last.value.now);
  }
}
