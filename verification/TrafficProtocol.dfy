/**
 The ack-gated traffic protocol between one agent and the panel, as a transition
 system: the agent's buffer in memory and on disk, the two directions of the
 current connection, and the panel's last applied number and accounting
 (internal/agent/pending.go, internal/agent/agent.go session,
 internal/panel/hub.go readLoop, internal/panel/traffic.go ingestTraffic).

 Hypotheses built into the steps: a connection is FIFO and a replaced one
 delivers nothing more; one ingest is one step whose store calls succeed; a save
 that is reached succeeds and the buffer file is not lost.
 */
module TrafficProtocol {
  import opened Wrappers
  import opened Traffic
  import opened PendingBuffer

  datatype Msg = Msg(sn: int, items: seq<Item>)

  /** The buffer operation that has changed memory but has not reached its save. */
  datatype Op = Idle | Collecting(items: seq<Item>) | Promoting | Acking

  datatype State = State(
    mem: Buffer, disk: Buffer, op: Op,
    hand: Option<Msg>,       // returned by batch(), not yet written to the socket
    attached: bool,          // the agent holds the connection
    up: seq<Msg>,            // sent, not yet read by the panel
    down: seq<int>,          // acks queued for the agent
    last: int,               // nodes.traffic_seq
    members: set<string>,   // usernames assigned to the node
    // histories, for stating properties only
    read: seq<Item>,         // everything ever read (and reset) from Xray
    lost: seq<Item>,         // read, but the agent died before the save
    applied: seq<Item>,      // credited by AddTraffic
    discarded: seq<Item>,    // ignored: user not assigned to the node
    sent: seq<Msg>,          // every traffic frame written to a socket
    ingested: seq<int>)      // batch numbers the panel applied, in order

  datatype Step =
    | Read(items: seq<Item>)       // collectTraffic, then collect up to its save
    | StartBatch                   // batch: promote pending bytes, up to its save
    | Save                         // the pending save reaches the disk
    | Take(listing: seq<Item>)     // batch returns the in-flight batch
    | Send
    | Deliver(ackQueued: bool)     // the panel reads a frame, ingests and acks it
    | ReceiveAck
    | Detach                       // the agent's side of the connection ends
    | Connect                      // a new connection replaces the old one
    | Crash                        // the agent dies and reloads its file
    | Assign(users: set<string>)   // the operator changes the node's users

  function Init(members: set<string>): State {
    State(FRESH, FRESH, Idle, None, false, [], [], 0, members, [], [], [], [], [], [])
  }

  /** The items ingestTraffic credits, and those it ignores as not assigned. */
  function Credited(items: seq<Item>, members: set<string>): seq<Item> {
    if items == [] then []
    else
      var it := items[|items| - 1];
      var rest := Credited(items[..|items| - 1], members);
      if (it.up == 0 && it.down == 0) || it.email !in members then rest else rest + [it]
  }

  function Ignored(items: seq<Item>, members: set<string>): seq<Item> {
    if items == [] then []
    else
      var it := items[|items| - 1];
      var rest := Ignored(items[..|items| - 1], members);
      if (it.up == 0 && it.down == 0) || it.email in members then rest else rest + [it]
  }

  lemma {:induction false} CreditedTotals(items: seq<Item>, members: set<string>, e: string, d: Dir)
    ensures Total(Credited(items, members), e, d) == if e in members then Total(items, e, d) else 0
  {
    if items == [] {
    } else {
      var n := |items| - 1;
      CreditedTotals(items[..n], members, e, d);
      TotalPush(Credited(items[..n], members), items[n], e, d);
    }
  }

  lemma {:induction false} IgnoredTotals(items: seq<Item>, members: set<string>, e: string, d: Dir)
    ensures Total(Ignored(items, members), e, d) == if e in members then 0 else Total(items, e, d)
  {
    if items == [] {
    } else {
      var n := |items| - 1;
      IgnoredTotals(items[..n], members, e, d);
      TotalPush(Ignored(items[..n], members), items[n], e, d);
    }
  }

  /** A report splits into what its assigned users are credited and what is ignored. */
  lemma CreditedPlusIgnored(items: seq<Item>, members: set<string>, e: string, d: Dir)
    ensures Total(Credited(items, members), e, d) + Total(Ignored(items, members), e, d) == Total(items, e, d)
    ensures Total(if e in members then Ignored(items, members) else Credited(items, members), e, d) == 0
  {
    CreditedTotals(items, members, e, d);
    IgnoredTotals(items, members, e, d);
  }

  function Ingest(s: State, m: Msg): State {
    if m.sn != 0 && m.sn == s.last then s
    else s.(
      applied := s.applied + Credited(m.items, s.members),
      discarded := s.discarded + Ignored(m.items, s.members),
      last := if m.sn != 0 then m.sn else s.last,
      ingested := s.ingested + [m.sn])
  }

  ghost predicate Enabled(s: State, step: Step) {
    match step
    case Read(items) => s.op.Idle? && items != []
    case StartBatch => s.op.Idle? && CanPromote(s.mem)
    case Save => !s.op.Idle?
    case Take(listing) => s.op.Idle? && s.mem.flightAt && s.attached && Lists(listing, s.mem.flight)
    case Send => s.attached && s.hand.Some?
    case Deliver(_) => s.up != []
    case ReceiveAck => s.attached && s.op.Idle? && s.down != []
    case Detach => s.attached
    case Connect => !s.attached
    case Crash => true
    case Assign(_) => true
  }

  function Apply(s: State, step: Step): State {
    match step
    case Read(items) => s.(mem := Collect(s.mem, items), op := Collecting(items), read := s.read + items)
    case StartBatch => s.(mem := Promote(s.mem), op := Promoting)
    case Save => s.(disk := s.mem, op := Idle)
    case Take(listing) => s.(hand := Some(Msg(s.mem.sn, listing)))
    case Send =>
      if s.hand.None? then s
      else s.(up := s.up + [s.hand.value], sent := s.sent + [s.hand.value], hand := None)
    case Deliver(ackQueued) =>
      if s.up == [] then s
      else
        var m := s.up[0];
        var t := Ingest(s, m);
        t.(up := s.up[1..], down := if ackQueued && s.attached then s.down + [m.sn] else s.down)
    case ReceiveAck =>
      if s.down == [] then s
      else
        var mem := Ack(s.mem, s.down[0]);
        s.(down := s.down[1..], mem := mem, op := if mem == s.mem then s.op else Acking)   // only a change is saved
    case Detach => s.(attached := false, hand := None, down := [])
    case Connect => s.(attached := true, hand := None, up := [], down := [])
    case Crash =>
      s.(mem := s.disk, op := Idle, attached := false, hand := None, down := [],
         lost := s.lost + (if s.op.Collecting? then s.op.items else []))
    case Assign(users) => s.(members := users)
  }

  function Exec(s: State, steps: seq<Step>): State
    decreases |steps|
  {
    if steps == [] then s else Exec(Apply(s, steps[0]), steps[1..])
  }

  ghost predicate Legal(s: State, steps: seq<Step>)
    decreases |steps|
  {
    steps == [] || (Enabled(s, steps[0]) && Legal(Apply(s, steps[0]), steps[1..]))
  }

  // ---------------------------------------------------------------- invariant

  /** Memory is the disk copy plus at most the one operation being saved. */
  ghost predicate MemInv(s: State) {
    && (s.disk.flightAt <==> s.disk.flight != map[])
    && match s.op
       case Idle => s.mem == s.disk
       case Collecting(items) => items != [] && s.mem == Collect(s.disk, items)
       case Promoting => CanPromote(s.disk) && s.mem == Promote(s.disk)
       case Acking => s.disk.flightAt && s.last == s.disk.sn && s.mem == Ack(s.disk, s.disk.sn)
  }

  /** Agent and panel agree on the batch number up to the batch in flight. */
  ghost predicate SeqInv(s: State) {
    && 0 <= s.last && (s.disk.flightAt ==> 1 <= s.disk.sn)
    && (if s.disk.flightAt then s.last == s.disk.sn || s.last == s.disk.sn - 1 else s.last == s.disk.sn)
    && (forall i :: 0 <= i < |s.down| ==> s.down[i] <= s.last)
    && (!s.attached ==> s.down == [] && s.hand == None)
    && s.ingested == seq(s.last, i => i + 1)
  }

  ghost predicate MsgOk(disk: Buffer, last: int, m: Msg) {
    && 1 <= m.sn <= disk.sn
    && last <= m.sn <= last + 1
    && (m.sn == disk.sn && disk.flightAt ==> Lists(m.items, disk.flight))
  }

  ghost predicate QueueInv(s: State) {
    && (forall i :: 0 <= i < |s.up| ==> MsgOk(s.disk, s.last, s.up[i]))
    && (forall i, j :: 0 <= i < j < |s.up| ==> s.up[i].sn <= s.up[j].sn)
    && (s.hand.Some? ==> MsgOk(s.disk, s.last, s.hand.value) && forall i :: 0 <= i < |s.up| ==> s.up[i].sn <= s.hand.value.sn)
  }

  ghost predicate SameContent(a: Msg, b: Msg) {
    a.sn == b.sn ==> multiset(a.items) == multiset(b.items)
  }

  ghost predicate SentInv(s: State) {
    && (forall i, j :: 0 <= i < j < |s.sent| ==> s.sent[i].sn <= s.sent[j].sn && SameContent(s.sent[i], s.sent[j]))
    && (forall i :: 0 <= i < |s.sent| ==>
          && s.sent[i].sn <= s.disk.sn
          && (s.sent[i].sn == s.disk.sn && s.disk.flightAt ==> Lists(s.sent[i].items, s.disk.flight))
          && (s.hand.Some? ==> s.sent[i].sn <= s.hand.value.sn && SameContent(s.sent[i], s.hand.value)))
  }

  /** Bytes read but so far only in the agent's memory. */
  function Unsaved(s: State, e: string, d: Dir): int {
    if s.op.Collecting? then Total(s.op.items, e, d) else 0
  }

  /** Bytes of the in-flight batch, as long as the panel has not applied it. */
  function Unapplied(s: State, e: string, d: Dir): int {
    if s.disk.flightAt && s.last != s.disk.sn then At(s.disk.flight, e, d) else 0
  }

  function Accounted(s: State, e: string, d: Dir): int {
    Total(s.lost, e, d) + Unsaved(s, e, d) + At(s.disk.pend, e, d) + Unapplied(s, e, d)
    + Total(s.applied, e, d) + Total(s.discarded, e, d)
  }

  ghost predicate Conserved(s: State) {
    forall e: string, d: Dir :: Total(s.read, e, d) == Accounted(s, e, d)
  }

  ghost predicate Inv(s: State) {
    MemInv(s) && SeqInv(s) && QueueInv(s) && SentInv(s) && Conserved(s)
  }

  lemma InitInv(members: set<string>)
    ensures Inv(Init(members))
  {
  }

  lemma MemSeqDeliver(s: State, ackQueued: bool)
    requires MemInv(s) && SeqInv(s) && QueueInv(s) && Enabled(s, Deliver(ackQueued))
    ensures MemInv(Apply(s, Deliver(ackQueued))) && SeqInv(Apply(s, Deliver(ackQueued)))
  {
    var t := Apply(s, Deliver(ackQueued));
    assert MsgOk(s.disk, s.last, s.up[0]);
    if s.up[0].sn != s.last {
      assert seq(t.last, i => i + 1) == seq(s.last, i => i + 1) + [t.last];
    }
  }

  lemma MemSeqAck(s: State)
    requires MemInv(s) && SeqInv(s) && Enabled(s, ReceiveAck)
    ensures MemInv(Apply(s, ReceiveAck)) && SeqInv(Apply(s, ReceiveAck))
  {
  }

  lemma MemSeqSave(s: State)
    requires MemInv(s) && SeqInv(s) && Enabled(s, Save)
    ensures MemInv(Apply(s, Save)) && SeqInv(Apply(s, Save))
  {
  }

  lemma MemSeqStep(s: State, step: Step)
    requires MemInv(s) && SeqInv(s) && QueueInv(s) && Enabled(s, step)
    ensures MemInv(Apply(s, step)) && SeqInv(Apply(s, step))
  {
    match step
    case Deliver(ackQueued) => MemSeqDeliver(s, ackQueued);
    case ReceiveAck => MemSeqAck(s);
    case Save => MemSeqSave(s);
    case _ =>
  }

  lemma QueueDeliver(s: State, ackQueued: bool)
    requires SeqInv(s) && QueueInv(s) && Enabled(s, Deliver(ackQueued))
    ensures QueueInv(Apply(s, Deliver(ackQueued)))
  {
  }

  lemma QueueSave(s: State)
    requires MemInv(s) && SeqInv(s) && QueueInv(s) && Enabled(s, Save)
    ensures QueueInv(Apply(s, Save))
  {
  }

  lemma QueueTake(s: State, listing: seq<Item>)
    requires MemInv(s) && SeqInv(s) && QueueInv(s) && Enabled(s, Take(listing))
    ensures QueueInv(Apply(s, Take(listing)))
  {
  }

  lemma QueueSend(s: State)
    requires QueueInv(s) && Enabled(s, Send)
    ensures QueueInv(Apply(s, Send))
  {
  }

  /** Nothing but the frame in hand may have gone. */
  lemma QueueFrame(s: State, t: State)
    requires QueueInv(s) && t.up == s.up && t.disk == s.disk && t.last == s.last && (t.hand == s.hand || t.hand == None)
    ensures QueueInv(t)
  {
  }

  lemma QueueStep(s: State, step: Step)
    requires MemInv(s) && SeqInv(s) && QueueInv(s) && Enabled(s, step)
    ensures QueueInv(Apply(s, step))
  {
    match step
    case Deliver(ackQueued) => QueueDeliver(s, ackQueued);
    case Save => QueueSave(s);
    case Take(listing) => QueueTake(s, listing);
    case Send => QueueSend(s);
    case Connect =>
    case _ => QueueFrame(s, Apply(s, step));
  }

  lemma SentTake(s: State, listing: seq<Item>)
    requires MemInv(s) && SentInv(s) && Enabled(s, Take(listing))
    ensures SentInv(Apply(s, Take(listing)))
  {
    var t := Apply(s, Take(listing));
    forall i | 0 <= i < |s.sent| ensures SameContent(s.sent[i], t.hand.value) {
      if s.sent[i].sn == s.disk.sn {
        ListingsPermute(s.sent[i].items, listing, s.disk.flight);
      }
    }
  }

  lemma SentSend(s: State)
    requires QueueInv(s) && SentInv(s) && Enabled(s, Send)
    ensures SentInv(Apply(s, Send))
  {
  }

  lemma SentSave(s: State)
    requires MemInv(s) && SentInv(s) && Enabled(s, Save)
    ensures SentInv(Apply(s, Save))
  {
  }

  lemma SentStep(s: State, step: Step)
    requires MemInv(s) && SeqInv(s) && QueueInv(s) && SentInv(s) && Enabled(s, step)
    ensures SentInv(Apply(s, step))
  {
    match step
    case Take(listing) => SentTake(s, listing);
    case Send => SentSend(s);
    case Save => SentSave(s);
    case _ =>
      var t := Apply(s, step);
      assert t.sent == s.sent && t.disk == s.disk && (t.hand == s.hand || t.hand == None);
  }

  lemma ConservedRead(s: State, items: seq<Item>, e: string, d: Dir)
    requires Enabled(s, Read(items))
    ensures var t := Apply(s, Read(items));
      Total(t.read, e, d) - Accounted(t, e, d) == Total(s.read, e, d) - Accounted(s, e, d)
  {
    TotalAppend(s.read, items, e, d);
  }

  lemma ConservedSave(s: State, e: string, d: Dir)
    requires MemInv(s) && SeqInv(s) && Enabled(s, Save) && Total(s.read, e, d) == Accounted(s, e, d)
    ensures Total(Apply(s, Save).read, e, d) == Accounted(Apply(s, Save), e, d)
  {
    if s.op.Collecting? {
      MergeTotals(s.disk.pend, s.op.items, e, d);
    }
  }

  lemma ConservedDeliver(s: State, ackQueued: bool, e: string, d: Dir)
    requires MemInv(s) && SeqInv(s) && QueueInv(s) && Enabled(s, Deliver(ackQueued))
    requires Total(s.read, e, d) == Accounted(s, e, d)
    ensures Total(Apply(s, Deliver(ackQueued)).read, e, d) == Accounted(Apply(s, Deliver(ackQueued)), e, d)
  {
    var m := s.up[0];
    assert MsgOk(s.disk, s.last, m);
    if m.sn != s.last {
      ListedTotals(m.items, s.disk.flight, e, d);
      CreditedPlusIgnored(m.items, s.members, e, d);
      TotalAppend(s.applied, Credited(m.items, s.members), e, d);
      TotalAppend(s.discarded, Ignored(m.items, s.members), e, d);
    }
  }

  lemma ConservedCrash(s: State, e: string, d: Dir)
    ensures var t := Apply(s, Crash);
      Total(t.read, e, d) - Accounted(t, e, d) == Total(s.read, e, d) - Accounted(s, e, d)
  {
    if s.op.Collecting? {
      TotalAppend(s.lost, s.op.items, e, d);
    } else {
      assert s.lost + [] == s.lost;
    }
  }

  lemma ConservedStep(s: State, step: Step, e: string, d: Dir)
    requires MemInv(s) && SeqInv(s) && QueueInv(s) && Enabled(s, step)
    requires Total(s.read, e, d) == Accounted(s, e, d)
    ensures Total(Apply(s, step).read, e, d) == Accounted(Apply(s, step), e, d)
  {
    match step
    case Read(items) => ConservedRead(s, items, e, d);
    case Save => ConservedSave(s, e, d);
    case Deliver(ackQueued) => ConservedDeliver(s, ackQueued, e, d);
    case Crash => ConservedCrash(s, e, d);
    case _ => AccountedFrame(s, Apply(s, step), e, d);
  }

  lemma AccountedFrame(s: State, t: State, e: string, d: Dir)
    requires t.lost == s.lost && t.disk == s.disk && t.last == s.last
    requires t.applied == s.applied && t.discarded == s.discarded
    requires s.op == t.op || !(s.op.Collecting? || t.op.Collecting?)
    ensures Accounted(t, e, d) == Accounted(s, e, d)
  {
  }

  lemma InvStep(s: State, step: Step)
    requires Inv(s) && Enabled(s, step)
    ensures Inv(Apply(s, step))
  {
    MemSeqStep(s, step);
    QueueStep(s, step);
    SentStep(s, step);
    forall e: string, d: Dir ensures Total(Apply(s, step).read, e, d) == Accounted(Apply(s, step), e, d) {
      ConservedStep(s, step, e, d);
    }
  }

  lemma {:induction false} InvRun(s: State, steps: seq<Step>)
    requires Inv(s) && Legal(s, steps)
    ensures Inv(Exec(s, steps))
    decreases |steps|
  {
    if steps == [] {
    } else {
      InvStep(s, steps[0]);
      InvRun(Apply(s, steps[0]), steps[1..]);
    }
  }

  // ----------------------------------------------------------------- theorems

  /**
   Exactly-once conservation: after every run from a fresh buffer and node row,
   and for every user and direction, the bytes read from Xray are the bytes
   waiting, plus the in-flight bytes the panel has not applied, plus the bytes
   credited, plus the bytes ignored as not assigned, plus what the agent held
   only in memory (now, or when it died).
   */
  lemma ExactlyOnce(members: set<string>, steps: seq<Step>, e: string, d: Dir)
    requires Legal(Init(members), steps)
    ensures var s := Exec(Init(members), steps);
      Total(s.read, e, d) == Total(s.applied, e, d) + Total(s.discarded, e, d) + At(s.disk.pend, e, d)
        + Unapplied(s, e, d) + Unsaved(s, e, d) + Total(s.lost, e, d)
  {
    InitInv(members);
    InvRun(Init(members), steps);
    var s := Exec(Init(members), steps);
    assert Total(s.read, e, d) == Accounted(s, e, d);
  }

  /** Xray's counters are never negative. */
  predicate Counted(items: seq<Item>) {
    forall i :: 0 <= i < |items| ==> items[i].up >= 0 && items[i].down >= 0
  }

  predicate AllCounted(s: State, steps: seq<Step>) {
    && (s.op.Collecting? ==> Counted(s.op.items))
    && forall i :: 0 <= i < |steps| && steps[i].Read? ==> Counted(steps[i].items)
  }

  /** The agent dies between reading some bytes and saving them. */
  ghost predicate LosesBytes(s: State, step: Step) {
    step.Crash? && s.op.Collecting? && exists i :: 0 <= i < |s.op.items| && s.op.items[i].up + s.op.items[i].down > 0
  }

  ghost predicate NoCrashBeforeSave(s: State, steps: seq<Step>)
    decreases |steps|
  {
    steps == [] || (!LosesBytes(s, steps[0]) && NoCrashBeforeSave(Apply(s, steps[0]), steps[1..]))
  }

  lemma {:induction false} CountedTotals(items: seq<Item>, e: string, d: Dir)
    requires Counted(items)
    ensures 0 <= Total(items, e, d)
    ensures forall i :: 0 <= i < |items| ==> Share(items[i], e, d) <= Total(items, e, d)
  {
    if items == [] {
    } else {
      CountedTotals(items[..|items| - 1], e, d);
    }
  }

  lemma {:induction false} ZeroTotals(items: seq<Item>, e: string, d: Dir)
    requires Counted(items) && forall i :: 0 <= i < |items| ==> items[i].up + items[i].down <= 0
    ensures Total(items, e, d) == 0
  {
    if items == [] {
    } else {
      ZeroTotals(items[..|items| - 1], e, d);
    }
  }

  /** Only a losing crash changes what was lost, and it loses bytes of some user. */
  lemma LostStep(s: State, step: Step) returns (e: string, d: Dir)
    requires s.op.Collecting? ==> Counted(s.op.items)
    ensures forall e': string, d': Dir :: Total(s.lost, e', d') <= Total(Apply(s, step).lost, e', d')
    ensures if LosesBytes(s, step) then Total(s.lost, e, d) < Total(Apply(s, step).lost, e, d)
            else forall e': string, d': Dir :: Total(s.lost, e', d') == Total(Apply(s, step).lost, e', d')
  {
    e, d := "", Up;
    if step.Crash? && s.op.Collecting? {
      var items := s.op.items;
      forall e': string, d': Dir
        ensures Total(Apply(s, step).lost, e', d') == Total(s.lost, e', d') + Total(items, e', d') && 0 <= Total(items, e', d')
        ensures !LosesBytes(s, step) ==> Total(items, e', d') == 0
      {
        TotalAppend(s.lost, items, e', d');
        CountedTotals(items, e', d');
        if !LosesBytes(s, step) {
          ZeroTotals(items, e', d');
        }
      }
      if i :| 0 <= i < |items| && items[i].up + items[i].down > 0 {
        e, d := items[i].email, if items[i].up > 0 then Up else Down;
        CountedTotals(items, e, d);
        assert Share(items[i], e, d) > 0;
      }
    } else {
      assert step.Crash? ==> s.lost + [] == s.lost;
    }
  }

  /** A run loses bytes, of some user in some direction, exactly when a crash falls between reading bytes and saving them. */
  lemma {:induction false} NothingLostOtherwise(s: State, steps: seq<Step>)
    requires AllCounted(s, steps)
    ensures (forall e: string, d: Dir :: Total(Exec(s, steps).lost, e, d) == Total(s.lost, e, d)) <==> NoCrashBeforeSave(s, steps)
    ensures forall e: string, d: Dir :: Total(s.lost, e, d) <= Total(Exec(s, steps).lost, e, d)
    decreases |steps|
  {
    if steps == [] {
    } else {
      var t := Apply(s, steps[0]);
      var e, d := LostStep(s, steps[0]);
      assert AllCounted(t, steps[1..]);
      NothingLostOtherwise(t, steps[1..]);
      assert Total(t.lost, e, d) <= Total(Exec(s, steps).lost, e, d);
    }
  }

  /**
   Sequence agreement in every reachable state: without a batch in flight the
   panel has applied exactly the buffer's number; with one, that or the previous;
   no queued ack exceeds what the panel applied; nothing older than the last
   applied number is waiting; and the panel has applied 1, 2, ..., last, each once.
   */
  lemma SeqAgreement(members: set<string>, steps: seq<Step>)
    requires Legal(Init(members), steps)
    ensures var s := Exec(Init(members), steps);
      && (!s.disk.flightAt ==> s.last == s.disk.sn)
      && (s.disk.flightAt ==> s.last == s.disk.sn || s.last == s.disk.sn - 1)
      && (forall i :: 0 <= i < |s.down| ==> s.down[i] <= s.last)
      && (forall i :: 0 <= i < |s.up| ==> s.last <= s.up[i].sn <= s.last + 1)
      && 0 <= s.last && s.ingested == seq(s.last, i => i + 1)
  {
    InitInv(members);
    InvRun(Init(members), steps);
    var s := Exec(Init(members), steps);
    forall i | 0 <= i < |s.up| ensures s.last <= s.up[i].sn <= s.last + 1 {
      assert MsgOk(s.disk, s.last, s.up[i]);
    }
  }

  /**
   Stable batches: over the frames of a whole run, numbers never decrease and
   two frames with one number carry the same items up to order, whatever
   collects, stale acks, reconnects and reloads came between them.
   */
  lemma StableBatches(members: set<string>, steps: seq<Step>, i: nat, j: nat)
    requires Legal(Init(members), steps)
    requires i < j < |Exec(Init(members), steps).sent|
    ensures var sent := Exec(Init(members), steps).sent;
      && sent[i].sn <= sent[j].sn
      && (sent[i].sn == sent[j].sn ==> multiset(sent[i].items) == multiset(sent[j].items))
  {
    InitInv(members);
    InvRun(Init(members), steps);
    var sent := Exec(Init(members), steps).sent;
    assert SameContent(sent[i], sent[j]);
  }

  ghost predicate SameOrLater(b: Buffer, c: Buffer) {
    && b.sn <= c.sn
    && (b.sn == c.sn && c.flightAt ==> b.flightAt && b.flight == c.flight)
  }

  lemma NumbersStep(s: State, step: Step)
    requires MemInv(s) && Enabled(s, step)
    ensures SameOrLater(s.disk, Apply(s, step).disk)
  {
  }

  /**
   Batch numbers only grow along a run, and as long as the number on disk is the
   same the batch behind it has not changed: a different batch has a larger number.
   */
  lemma {:induction false} NumbersNameBatches(s: State, steps: seq<Step>)
    requires Inv(s) && Legal(s, steps)
    ensures SameOrLater(s.disk, Exec(s, steps).disk)
    decreases |steps|
  {
    if steps == [] {
    } else {
      InvStep(s, steps[0]);
      NumbersStep(s, steps[0]);
      NumbersNameBatches(Apply(s, steps[0]), steps[1..]);
    }
  }
}
