/**
 The usage protocol when the panel's store fails (internal/panel/traffic.go:26-63,
 internal/panel/hub.go:154-158). An ingest that cannot read the node's number or
 its users returns early; one that cannot add an item goes on with the next; one
 that cannot record the batch number has credited the batch all the same. The hub
 acknowledges the batch in every case. So the agent may drop a batch that was
 never applied, and a resend may be applied a second time.
 */
module IngestErrors {
  import opened Wrappers
  import opened Traffic
  import opened PendingBuffer
  import opened MapSums
  import P = TrafficProtocol

  datatype State = State(
    p: P.State,
    // histories, for stating properties only
    skipped: map<int, Counters>,   // batches dropped on an ack though the panel had not recorded them
    failed: seq<Item>,             // items that AddTraffic failed for
    unrecorded: seq<P.Msg>)        // frames ingested without recording their number

  datatype Step =
    | Plain(step: P.Step)
    | Fail(ackQueued: bool)   // the ingest returns early
    | Flaky(ackQueued: bool, bad: set<int>, recorded: bool)   // items at the bad positions are not added; is the number recorded?

  function Init(members: set<string>): State {
    State(P.Init(members), map[], [], [])
  }

  ghost predicate Enabled(s: State, step: Step) {
    match step
    case Plain(step) => P.Enabled(s.p, step)
    case Fail(_) => s.p.up != []
    case Flaky(_, _, _) => s.p.up != []
  }

  predicate Credits(it: Item, members: set<string>) {
    !(it.up == 0 && it.down == 0) && it.email in members
  }

  /** The credited items that are added, and those that are not. */
  function Added(items: seq<Item>, members: set<string>, bad: set<int>): seq<Item> {
    if items == [] then []
    else
      var n := |items| - 1;
      var rest := Added(items[..n], members, bad);
      if !Credits(items[n], members) || n in bad then rest else rest + [items[n]]
  }

  function NotAdded(items: seq<Item>, members: set<string>, bad: set<int>): seq<Item> {
    if items == [] then []
    else
      var n := |items| - 1;
      var rest := NotAdded(items[..n], members, bad);
      if !Credits(items[n], members) || n !in bad then rest else rest + [items[n]]
  }

  /** Added or not, the credited items are the same. */
  lemma {:induction false} AddedOrNot(items: seq<Item>, members: set<string>, bad: set<int>, e: string, d: Dir)
    ensures Total(Added(items, members, bad), e, d) + Total(NotAdded(items, members, bad), e, d) ==
      Total(P.Credited(items, members), e, d)
  {
    if items == [] {
    } else {
      var n := |items| - 1;
      var it := items[n];
      AddedOrNot(items[..n], members, bad, e, d);
      TotalPush(Added(items[..n], members, bad), it, e, d);
      TotalPush(NotAdded(items[..n], members, bad), it, e, d);
      TotalPush(P.Credited(items[..n], members), it, e, d);
    }
  }

  /** The ack being saved drops a batch that the panel has not recorded. */
  predicate Skips(s: P.State, step: P.Step) {
    step.Save? && s.op.Acking? && s.last != s.disk.sn
  }

  function Skipped(s: State, step: P.Step): map<int, Counters> {
    if Skips(s.p, step) then s.skipped[s.p.disk.sn := s.p.disk.flight]
    else if step.Deliver? && s.p.up != [] && s.p.up[0].sn != s.p.last then s.skipped - {s.p.up[0].sn}
    else s.skipped
  }

  /** The frame is read and acknowledged, whatever became of it. */
  function Answer(s: P.State, ackQueued: bool): P.State {
    if s.up == [] then s
    else s.(up := s.up[1..], down := if ackQueued && s.attached then s.down + [s.up[0].sn] else s.down)
  }

  function Apply(s: State, step: Step): State {
    match step
    case Plain(step) => s.(p := P.Apply(s.p, step), skipped := Skipped(s, step))
    case Fail(ackQueued) => s.(p := Answer(s.p, ackQueued))
    case Flaky(ackQueued, bad, recorded) =>
      if s.p.up == [] || s.p.up[0].sn == s.p.last then s.(p := Answer(s.p, ackQueued))
      else
        var m := s.p.up[0];
        State(Answer(s.p, ackQueued).(
                applied := s.p.applied + Added(m.items, s.p.members, bad),
                discarded := s.p.discarded + P.Ignored(m.items, s.p.members),
                last := if recorded then m.sn else s.p.last,
                ingested := if recorded then s.p.ingested + [m.sn] else s.p.ingested),
              if recorded then s.skipped - {m.sn} else s.skipped,
              s.failed + NotAdded(m.items, s.p.members, bad),
              if recorded then s.unrecorded else s.unrecorded + [m])
  }

  function Exec(s: State, steps: seq<Step>): State
    decreases |steps|
  {
    if steps == [] then s else Exec(Apply(s, steps[0]), steps[1..])
  }

  ghost predicate Legal(s: State, steps: seq<Step>)
    decreases |steps|
  {
    steps == [] || (Enabled(s, steps[0]) && Legal(Apply(s, steps[0]), steps[1..]))
  }

  // ---------------------------------------------------------------- invariant

  /** The frame is a resend of the last applied batch, the batch in flight, or a skipped batch that is still under way. */
  ghost predicate FrameOk(s: State, m: P.Msg) {
    && 1 <= m.sn && s.p.last <= m.sn <= s.p.disk.sn
    && (s.p.last < m.sn ==>
          if s.p.disk.flightAt && m.sn == s.p.disk.sn then Lists(m.items, s.p.disk.flight)
          else m.sn in s.skipped && Lists(m.items, s.skipped[m.sn]))
  }

  ghost predicate BufferInv(s: State) {
    var p := s.p;
    && (p.disk.flightAt <==> p.disk.flight != map[])
    && 0 <= p.last <= p.disk.sn && (p.disk.flightAt ==> 1 <= p.disk.sn)
    && (forall n :: n in s.skipped ==> n <= p.disk.sn && (p.disk.flightAt ==> n != p.disk.sn))
    && match p.op
       case Idle => p.mem == p.disk
       case Collecting(items) => items != [] && p.mem == Collect(p.disk, items)
       case Promoting => CanPromote(p.disk) && p.mem == Promote(p.disk)
       case Acking => p.disk.flightAt && p.mem == Ack(p.disk, p.disk.sn)
  }

  ghost predicate QueueInv(s: State) {
    && (forall i :: 0 <= i < |s.p.up| ==> FrameOk(s, s.p.up[i]))
    && (forall i, j :: 0 <= i < j < |s.p.up| ==> s.p.up[i].sn <= s.p.up[j].sn)
    && (s.p.hand.Some? ==>
          FrameOk(s, s.p.hand.value) && forall i :: 0 <= i < |s.p.up| ==> s.p.up[i].sn <= s.p.hand.value.sn)
  }

  ghost function SkippedBytes(skipped: map<int, Counters>, e: string, d: Dir): int {
    Sum(Column(skipped, e, d))
  }

  function Column(skipped: map<int, Counters>, e: string, d: Dir): map<int, int> {
    map n | n in skipped :: At(skipped[n], e, d)
  }

  /** Bytes of the frames ingested without recording their number. */
  function Repeated(frames: seq<P.Msg>, e: string, d: Dir): int {
    if frames == [] then 0
    else Repeated(frames[..|frames| - 1], e, d) + Total(frames[|frames| - 1].items, e, d)
  }

  /** Every byte read is accounted for, where unrecorded ingests have counted some bytes once too often. */
  ghost predicate Balanced(s: State, e: string, d: Dir) {
    Total(s.p.read, e, d) + Repeated(s.unrecorded, e, d) ==
      P.Accounted(s.p, e, d) + SkippedBytes(s.skipped, e, d) + Total(s.failed, e, d)
  }

  /** A flaky ingest moves the queue like an ordinary one, or like a failed one if the number is not recorded. */
  function Alike(s: State, step: Step): Step
    requires step.Flaky?
  {
    if step.recorded || (s.p.up != [] && s.p.up[0].sn == s.p.last) then Plain(P.Deliver(step.ackQueued)) else Fail(step.ackQueued)
  }

  lemma FlakyAlike(s: State, step: Step)
    requires BufferInv(s) && QueueInv(s) && Enabled(s, step) && step.Flaky?
    ensures var t, u := Apply(s, step), Apply(s, Alike(s, step));
      && t.skipped == u.skipped && t.p.mem == u.p.mem && t.p.disk == u.p.disk && t.p.op == u.p.op
      && t.p.up == u.p.up && t.p.hand == u.p.hand && t.p.last == u.p.last && t.p.down == u.p.down
      && t.p.attached == u.p.attached && t.p.ingested == u.p.ingested && t.p.read == u.p.read && t.p.lost == u.p.lost
  {
    assert FrameOk(s, s.p.up[0]);
  }

  lemma BufferSave(s: State)
    requires BufferInv(s) && Enabled(s, Plain(P.Save))
    ensures BufferInv(Apply(s, Plain(P.Save)))
  {
  }

  lemma BufferDeliver(s: State, ackQueued: bool)
    requires BufferInv(s) && QueueInv(s) && Enabled(s, Plain(P.Deliver(ackQueued)))
    ensures BufferInv(Apply(s, Plain(P.Deliver(ackQueued))))
  {
    assert FrameOk(s, s.p.up[0]);
  }

  lemma BufferFrame(s: State, t: State)
    requires BufferInv(s) && t.p.mem == s.p.mem && t.p.disk == s.p.disk && t.p.op == s.p.op && t.p.last == s.p.last
    requires t.skipped == s.skipped
    ensures BufferInv(t)
  {
  }

  lemma BufferFlaky(s: State, step: Step)
    requires BufferInv(s) && QueueInv(s) && Enabled(s, step) && step.Flaky?
    ensures BufferInv(Apply(s, step))
  {
    FlakyAlike(s, step);
    BufferDeliver(s, step.ackQueued);
    BufferFrame(s, Apply(s, Fail(step.ackQueued)));
    BufferFrame(Apply(s, Alike(s, step)), Apply(s, step));
  }

  lemma BufferStep(s: State, step: Step)
    requires BufferInv(s) && QueueInv(s) && Enabled(s, step)
    ensures BufferInv(Apply(s, step))
  {
    match step
    case Fail(_) =>
    case Flaky(_, _, _) => BufferFlaky(s, step);
    case Plain(step) =>
      match step
      case Save => BufferSave(s);
      case Deliver(ackQueued) => BufferDeliver(s, ackQueued);
      case _ =>
  }

  lemma QueueDeliver(s: State, ackQueued: bool)
    requires BufferInv(s) && QueueInv(s) && Enabled(s, Plain(P.Deliver(ackQueued)))
    ensures QueueInv(Apply(s, Plain(P.Deliver(ackQueued))))
  {
    var t := Apply(s, Plain(P.Deliver(ackQueued)));
    assert FrameOk(s, s.p.up[0]);
    forall i | 0 <= i < |t.p.up| ensures FrameOk(t, t.p.up[i]) {
      assert t.p.up[i] == s.p.up[i + 1];
      assert FrameOk(s, s.p.up[i + 1]) && s.p.up[0].sn <= s.p.up[i + 1].sn;
    }
  }

  lemma QueueSave(s: State)
    requires BufferInv(s) && QueueInv(s) && Enabled(s, Plain(P.Save))
    ensures QueueInv(Apply(s, Plain(P.Save)))
  {
  }

  lemma QueueFrame(s: State, t: State)
    requires QueueInv(s) && t.p.up == s.p.up && t.p.disk == s.p.disk && t.p.last == s.p.last && t.skipped == s.skipped
    requires t.p.hand == s.p.hand || t.p.hand == None
    ensures QueueInv(t)
  {
  }

  lemma QueueFail(s: State, ackQueued: bool)
    requires QueueInv(s) && Enabled(s, Fail(ackQueued))
    ensures QueueInv(Apply(s, Fail(ackQueued)))
  {
  }

  lemma QueueTake(s: State, listing: seq<Item>)
    requires BufferInv(s) && QueueInv(s) && Enabled(s, Plain(P.Take(listing)))
    ensures QueueInv(Apply(s, Plain(P.Take(listing))))
  {
  }

  lemma QueueSend(s: State)
    requires QueueInv(s) && Enabled(s, Plain(P.Send))
    ensures QueueInv(Apply(s, Plain(P.Send)))
  {
  }

  lemma QueueFlaky(s: State, step: Step)
    requires BufferInv(s) && QueueInv(s) && Enabled(s, step) && step.Flaky?
    ensures QueueInv(Apply(s, step))
  {
    FlakyAlike(s, step);
    QueueDeliver(s, step.ackQueued);
    QueueFail(s, step.ackQueued);
    QueueFrame(Apply(s, Alike(s, step)), Apply(s, step));
  }

  lemma QueueStep(s: State, step: Step)
    requires BufferInv(s) && QueueInv(s) && Enabled(s, step)
    ensures QueueInv(Apply(s, step))
  {
    match step
    case Fail(ackQueued) => QueueFail(s, ackQueued);
    case Flaky(_, _, _) => QueueFlaky(s, step);
    case Plain(step) =>
      match step
      case Deliver(ackQueued) => QueueDeliver(s, ackQueued);
      case Save => QueueSave(s);
      case Take(listing) => QueueTake(s, listing);
      case Send => QueueSend(s);
      case Connect =>
      case _ => QueueFrame(s, Apply(s, Plain(step)));
  }

  lemma BalancedSave(s: State, e: string, d: Dir)
    requires BufferInv(s) && Enabled(s, Plain(P.Save)) && Balanced(s, e, d)
    ensures Balanced(Apply(s, Plain(P.Save)), e, d)
  {
    if s.p.op.Collecting? {
      MergeTotals(s.p.disk.pend, s.p.op.items, e, d);
    } else if Skips(s.p, P.Save) {
      var n, batch := s.p.disk.sn, s.p.disk.flight;
      assert Column(s.skipped[n := batch], e, d) == Column(s.skipped, e, d)[n := At(batch, e, d)];
      SumPut(Column(s.skipped, e, d), n, At(batch, e, d));
    }
  }

  lemma SkippedWithout(skipped: map<int, Counters>, n: int, e: string, d: Dir)
    ensures SkippedBytes(skipped - {n}, e, d) ==
      SkippedBytes(skipped, e, d) - (if n in skipped then At(skipped[n], e, d) else 0)
  {
    assert Column(skipped - {n}, e, d) == Column(skipped, e, d) - {n};
    SumWithout(Column(skipped, e, d), n);
  }

  /** An ingested batch is credited or ignored, byte for byte. */
  lemma Ingested(p: P.State, m: P.Msg, e: string, d: Dir)
    requires m.sn != p.last
    ensures var q := P.Ingest(p, m);
      Total(q.applied, e, d) + Total(q.discarded, e, d) ==
        Total(p.applied, e, d) + Total(p.discarded, e, d) + Total(m.items, e, d)
  {
    P.CreditedPlusIgnored(m.items, p.members, e, d);
    TotalAppend(p.applied, P.Credited(m.items, p.members), e, d);
    TotalAppend(p.discarded, P.Ignored(m.items, p.members), e, d);
  }

  lemma BalancedDeliver(s: State, ackQueued: bool, e: string, d: Dir)
    requires BufferInv(s) && QueueInv(s) && Enabled(s, Plain(P.Deliver(ackQueued))) && Balanced(s, e, d)
    ensures Balanced(Apply(s, Plain(P.Deliver(ackQueued))), e, d)
  {
    var m := s.p.up[0];
    var t := Apply(s, Plain(P.Deliver(ackQueued)));
    assert FrameOk(s, m);
    if m.sn == s.p.last {
      P.AccountedFrame(s.p, t.p, e, d);
    } else {
      Ingested(s.p, m, e, d);
      SkippedWithout(s.skipped, m.sn, e, d);
      var current := s.p.disk.flightAt && m.sn == s.p.disk.sn;
      ListedTotals(m.items, if current then s.p.disk.flight else s.skipped[m.sn], e, d);
      assert P.Unapplied(s.p, e, d) - P.Unapplied(t.p, e, d) == if current then Total(m.items, e, d) else 0;
    }
  }

  lemma BalancedRecorded(s: State, ackQueued: bool, bad: set<int>, e: string, d: Dir)
    requires BufferInv(s) && s.p.up != [] && FrameOk(s, s.p.up[0]) && s.p.up[0].sn != s.p.last && Balanced(s, e, d)
    ensures Balanced(Apply(s, Flaky(ackQueued, bad, true)), e, d)
  {
    var m, t := s.p.up[0], Apply(s, Flaky(ackQueued, bad, true));
    FlakyTotals(s, m, bad, t, e, d);
    SkippedWithout(s.skipped, m.sn, e, d);
    var current := s.p.disk.flightAt && m.sn == s.p.disk.sn;
    ListedTotals(m.items, if current then s.p.disk.flight else s.skipped[m.sn], e, d);
    assert P.Unapplied(s.p, e, d) - P.Unapplied(t.p, e, d) == if current then Total(m.items, e, d) else 0;
  }

  lemma BalancedUnrecorded(s: State, ackQueued: bool, bad: set<int>, e: string, d: Dir)
    requires s.p.up != [] && s.p.up[0].sn != s.p.last && Balanced(s, e, d)
    ensures Balanced(Apply(s, Flaky(ackQueued, bad, false)), e, d)
  {
    var m, t := s.p.up[0], Apply(s, Flaky(ackQueued, bad, false));
    FlakyTotals(s, m, bad, t, e, d);
    RepeatedPush(s.unrecorded, m, e, d);
    assert P.Unapplied(t.p, e, d) == P.Unapplied(s.p, e, d) && P.Unsaved(t.p, e, d) == P.Unsaved(s.p, e, d);
  }

  lemma RepeatedPush(frames: seq<P.Msg>, m: P.Msg, e: string, d: Dir)
    ensures Repeated(frames + [m], e, d) == Repeated(frames, e, d) + Total(m.items, e, d)
  {
    assert (frames + [m])[..|frames|] == frames;
  }

  lemma BalancedFlaky(s: State, ackQueued: bool, bad: set<int>, recorded: bool, e: string, d: Dir)
    requires BufferInv(s) && QueueInv(s) && Enabled(s, Flaky(ackQueued, bad, recorded)) && Balanced(s, e, d)
    ensures Balanced(Apply(s, Flaky(ackQueued, bad, recorded)), e, d)
  {
    assert FrameOk(s, s.p.up[0]);
    if s.p.up[0].sn == s.p.last {
      P.AccountedFrame(s.p, Apply(s, Flaky(ackQueued, bad, recorded)).p, e, d);
    } else if recorded {
      BalancedRecorded(s, ackQueued, bad, e, d);
    } else {
      BalancedUnrecorded(s, ackQueued, bad, e, d);
    }
  }

  /** The items of a flaky ingest are added, ignored or failed. */
  lemma FlakyTotals(s: State, m: P.Msg, bad: set<int>, t: State, e: string, d: Dir)
    requires t.p.applied == s.p.applied + Added(m.items, s.p.members, bad)
    requires t.p.discarded == s.p.discarded + P.Ignored(m.items, s.p.members)
    requires t.failed == s.failed + NotAdded(m.items, s.p.members, bad)
    ensures Total(t.p.applied, e, d) + Total(t.p.discarded, e, d) + Total(t.failed, e, d) ==
      Total(s.p.applied, e, d) + Total(s.p.discarded, e, d) + Total(s.failed, e, d) + Total(m.items, e, d)
  {
    AddedOrNot(m.items, s.p.members, bad, e, d);
    P.CreditedPlusIgnored(m.items, s.p.members, e, d);
    TotalAppend(s.p.applied, Added(m.items, s.p.members, bad), e, d);
    TotalAppend(s.p.discarded, P.Ignored(m.items, s.p.members), e, d);
    TotalAppend(s.failed, NotAdded(m.items, s.p.members, bad), e, d);
  }

  lemma BalancedPlain(s: State, step: P.Step, e: string, d: Dir)
    requires BufferInv(s) && QueueInv(s) && P.Enabled(s.p, step) && Balanced(s, e, d)
    ensures Balanced(Apply(s, Plain(step)), e, d)
  {
    match step
    case Read(items) => P.ConservedRead(s.p, items, e, d);
    case Save => BalancedSave(s, e, d);
    case Deliver(ackQueued) => BalancedDeliver(s, ackQueued, e, d);
    case Crash => P.ConservedCrash(s.p, e, d);
    case _ => P.AccountedFrame(s.p, P.Apply(s.p, step), e, d);
  }

  lemma BalancedStep(s: State, step: Step, e: string, d: Dir)
    requires BufferInv(s) && QueueInv(s) && Enabled(s, step) && Balanced(s, e, d)
    ensures Balanced(Apply(s, step), e, d)
  {
    match step
    case Plain(step) => BalancedPlain(s, step, e, d);
    case Fail(ackQueued) => P.AccountedFrame(s.p, Answer(s.p, ackQueued), e, d);
    case Flaky(ackQueued, bad, recorded) => BalancedFlaky(s, ackQueued, bad, recorded, e, d);
  }

  ghost predicate Inv(s: State) {
    BufferInv(s) && QueueInv(s) && forall e: string, d: Dir :: Balanced(s, e, d)
  }

  lemma InvStep(s: State, step: Step)
    requires Inv(s) && Enabled(s, step)
    ensures Inv(Apply(s, step))
  {
    BufferStep(s, step);
    QueueStep(s, step);
    forall e: string, d: Dir ensures Balanced(Apply(s, step), e, d) {
      BalancedStep(s, step, e, d);
    }
  }

  lemma {:induction false} InvRun(s: State, steps: seq<Step>)
    requires Inv(s) && Legal(s, steps)
    ensures Inv(Exec(s, steps))
    decreases |steps|
  {
    if steps == [] {
    } else {
      InvStep(s, steps[0]);
      InvRun(Apply(s, steps[0]), steps[1..]);
    }
  }

  lemma InitInv(members: set<string>)
    ensures Inv(Init(members))
  {
  }

  // ----------------------------------------------------------------- theorems

  /**
   Conservation with a failing store: after every run, and for every user and
   direction, the bytes read, plus those of unrecorded ingests, are the bytes of the
   error-free protocol, plus those of skipped batches, plus those of failed items.
   */
  lemma ConservedWithErrors(members: set<string>, steps: seq<Step>, e: string, d: Dir)
    requires Legal(Init(members), steps)
    ensures var s := Exec(Init(members), steps);
      Total(s.p.read, e, d) + Repeated(s.unrecorded, e, d) ==
        P.Accounted(s.p, e, d) + SkippedBytes(s.skipped, e, d) + Total(s.failed, e, d)
  {
    InitInv(members);
    InvRun(Init(members), steps);
    assert Balanced(Exec(Init(members), steps), e, d);
  }

  /** The recorded numbers, and what it means to be skipped. */
  ghost predicate Recorded(s: State) {
    && (forall n :: n in s.p.ingested ==> 1 <= n <= s.p.last)
    && (s.p.last == 0 || s.p.last in s.p.ingested)
    && forall n :: n in s.skipped <==>
         1 <= n <= s.p.disk.sn && !(s.p.disk.flightAt && n == s.p.disk.sn) && n !in s.p.ingested
  }

  lemma RecordedDeliver(s: State, ackQueued: bool)
    requires Inv(s) && Recorded(s) && Enabled(s, Plain(P.Deliver(ackQueued)))
    ensures Recorded(Apply(s, Plain(P.Deliver(ackQueued))))
  {
    assert FrameOk(s, s.p.up[0]);
  }

  lemma RecordedFrame(s: State, t: State)
    requires Recorded(s) && t.p.ingested == s.p.ingested && t.p.last == s.p.last && t.p.disk == s.p.disk
    requires t.skipped == s.skipped
    ensures Recorded(t)
  {
  }

  lemma RecordedFlaky(s: State, step: Step)
    requires Inv(s) && Recorded(s) && Enabled(s, step) && step.Flaky?
    ensures Recorded(Apply(s, step))
  {
    FlakyAlike(s, step);
    RecordedDeliver(s, step.ackQueued);
    RecordedFrame(s, Apply(s, Fail(step.ackQueued)));
    RecordedFrame(Apply(s, Alike(s, step)), Apply(s, step));
  }

  lemma RecordedStep(s: State, step: Step)
    requires Inv(s) && Recorded(s) && Enabled(s, step)
    ensures Recorded(Apply(s, step))
  {
    match step
    case Fail(_) => RecordedFrame(s, Apply(s, step));
    case Flaky(_, _, _) => RecordedFlaky(s, step);
    case Plain(step) =>
      match step
      case Deliver(ackQueued) => RecordedDeliver(s, ackQueued);
      case Save => RecordedSave(s);
      case _ => RecordedFrame(s, Apply(s, Plain(step)));
  }

  lemma RecordedSave(s: State)
    requires Inv(s) && Recorded(s) && Enabled(s, Plain(P.Save))
    ensures Recorded(Apply(s, Plain(P.Save)))
  {
  }

  lemma {:induction false} RecordedRun(s: State, steps: seq<Step>)
    requires Inv(s) && Recorded(s) && Legal(s, steps)
    ensures Inv(Exec(s, steps)) && Recorded(Exec(s, steps))
    decreases |steps|
  {
    if steps == [] {
    } else {
      InvStep(s, steps[0]);
      RecordedStep(s, steps[0]);
      RecordedRun(Apply(s, steps[0]), steps[1..]);
    }
  }

  /**
   What a skipped batch is, after every run: one that was assigned a number, is no
   longer in flight, and whose number the panel never recorded.
   */
  lemma SkippedMeaning(members: set<string>, steps: seq<Step>, n: int)
    requires Legal(Init(members), steps)
    ensures var s := Exec(Init(members), steps);
      n in s.skipped <==>
        1 <= n <= s.p.disk.sn && !(s.p.disk.flightAt && n == s.p.disk.sn) && n !in s.p.ingested
  {
    InitInv(members);
    RecordedRun(Init(members), steps);
  }

  /**
   When a batch is applied again, after every run: the next frame is taken for a
   duplicate if and only if its number is recorded. So a batch is applied as often
   as it is ingested without being recorded, and once more when it is.
   */
  lemma DuplicatesExactly(members: set<string>, steps: seq<Step>)
    requires Legal(Init(members), steps) && Exec(Init(members), steps).p.up != []
    ensures var s := Exec(Init(members), steps).p;
      (P.Ingest(s, s.up[0]) == s) <==> s.up[0].sn in s.ingested
  {
    InitInv(members);
    RecordedRun(Init(members), steps);
    var s := Exec(Init(members), steps);
    assert FrameOk(s, s.p.up[0]);
    if s.p.up[0].sn != s.p.last {
      assert |P.Ingest(s.p, s.p.up[0]).ingested| > |s.p.ingested|;
    }
  }

  ghost predicate NoFailures(steps: seq<Step>) {
    forall i :: 0 <= i < |steps| ==> steps[i].Plain?
  }

  /** Nothing is skipped, failed or repeated unless an ingest met an error. */
  lemma {:induction false} NothingSkipped(s: State, steps: seq<Step>)
    requires P.Inv(s.p) && Legal(s, steps) && NoFailures(steps) && s.skipped == map[]
    ensures Exec(s, steps).skipped == map[]
    ensures Exec(s, steps).failed == s.failed && Exec(s, steps).unrecorded == s.unrecorded
    decreases |steps|
  {
    if steps == [] {
    } else {
      assert steps[0].Plain?;
      P.InvStep(s.p, steps[0].step);
      NothingSkipped(Apply(s, steps[0]), steps[1..]);
    }
  }

  /** Some frame under way still carries the batch. */
  ghost predicate UnderWay(s: State, n: int) {
    || (s.p.hand.Some? && s.p.hand.value.sn == n)
    || (exists i :: 0 <= i < |s.p.up| && s.p.up[i].sn == n)
  }

  /** A skipped batch that no frame carries any more is gone for good. */
  ghost predicate Gone(s: State, n: int, batch: Counters) {
    n in s.skipped && s.skipped[n] == batch && !UnderWay(s, n)
  }

  lemma GonePlain(s: State, step: P.Step, n: int, batch: Counters)
    requires Inv(s) && P.Enabled(s.p, step) && Gone(s, n, batch)
    ensures Gone(Apply(s, Plain(step)), n, batch)
  {
  }

  lemma GoneFail(s: State, ackQueued: bool, n: int, batch: Counters)
    requires Enabled(s, Fail(ackQueued)) && Gone(s, n, batch)
    ensures Gone(Apply(s, Fail(ackQueued)), n, batch)
  {
  }

  lemma GoneStep(s: State, step: Step, n: int, batch: Counters)
    requires Inv(s) && Enabled(s, step) && Gone(s, n, batch)
    ensures Gone(Apply(s, step), n, batch)
  {
    match step
    case Plain(step) => GonePlain(s, step, n, batch);
    case Fail(ackQueued) => GoneFail(s, ackQueued, n, batch);
    case Flaky(ackQueued, _, _) =>
      FlakyAlike(s, step);
      GonePlain(s, P.Deliver(ackQueued), n, batch);
      GoneFail(s, ackQueued, n, batch);
  }

  lemma {:induction false} GoneForGood(s: State, steps: seq<Step>, n: int)
    requires Inv(s) && Legal(s, steps) && n in s.skipped && !UnderWay(s, n)
    ensures var t := Exec(s, steps); n in t.skipped && t.skipped[n] == s.skipped[n]
    decreases |steps|
  {
    if steps == [] {
    } else {
      InvStep(s, steps[0]);
      GoneStep(s, steps[0], n, s.skipped[n]);
      GoneForGood(Apply(s, steps[0]), steps[1..], n);
    }
  }

  /**
   Where batches are dropped: an ack of the batch in flight, however it came about,
   makes the agent drop it, and the batch is skipped if and only if its number is
   not recorded.
   */
  lemma AckDropsUnrecorded(s: State)
    requires Inv(s) && Recorded(s)
    requires s.p.op.Idle? && s.p.attached && s.p.disk.flightAt && s.p.down != [] && s.p.down[0] == s.p.disk.sn
    ensures var a := Apply(s, Plain(P.ReceiveAck));
      var t := Apply(a, Plain(P.Save));
      && Enabled(s, Plain(P.ReceiveAck)) && Enabled(a, Plain(P.Save)) && !t.p.disk.flightAt
      && t.skipped == if s.p.disk.sn in s.p.ingested then s.skipped else s.skipped[s.p.disk.sn := s.p.disk.flight]
  {
  }

  // ------------------------------------------------- runs with one error

  lemma {:induction false} Extend(s: State, a: seq<Step>, step: Step)
    requires Legal(s, a) && Enabled(Exec(s, a), step)
    ensures Legal(s, a + [step]) && Exec(s, a + [step]) == Apply(Exec(s, a), step)
    decreases |a|
  {
    var b := a + [step];
    if a == [] {
      assert b[0] == step && b[1..] == [];
      assert Legal(Apply(s, step), []);
    } else {
      Extend(Apply(s, a[0]), a[1..], step);
      assert b[0] == a[0] && b[1..] == a[1..] + [step];
    }
  }

  lemma RunExtends(s: State, a: seq<Step>, step: Step) returns (b: seq<Step>)
    requires Legal(s, a) && Enabled(Exec(s, a), step)
    ensures Legal(s, b) && Exec(s, b) == Apply(Exec(s, a), step)
  {
    b := a + [step];
    Extend(s, a, step);
  }

  /** A new node with its first batch in flight and one frame of it under way. */
  function FirstSent(members: set<string>, items: seq<Item>, listing: seq<Item>, sent: seq<P.Msg>): State {
    var b := Buffer(1, Merge(map[], items), true, map[]);
    State(P.Init(members).(mem := b, disk := b, attached := true, up := [P.Msg(1, listing)], read := items, sent := sent),
          map[], [], [])
  }

  lemma FirstFrameSent(members: set<string>, items: seq<Item>, listing: seq<Item>) returns (steps: seq<Step>)
    requires items != [] && Merge(map[], items) != map[] && Lists(listing, Merge(map[], items))
    ensures Legal(Init(members), steps)
    ensures Exec(Init(members), steps) == FirstSent(members, items, listing, [P.Msg(1, listing)])
  {
    var init := Init(members);
    assert [] + items == items && [] + [P.Msg(1, listing)] == [P.Msg(1, listing)];
    steps := RunExtends(init, [], Plain(P.Connect));
    steps := RunExtends(init, steps, Plain(P.Read(items)));
    steps := RunExtends(init, steps, Plain(P.Save));
    steps := RunExtends(init, steps, Plain(P.StartBatch));
    steps := RunExtends(init, steps, Plain(P.Save));
    steps := RunExtends(init, steps, Plain(P.Take(listing)));
    steps := RunExtends(init, steps, Plain(P.Send));
  }

  /** A losing run, for any first report of a new node: its ingest fails, the ack arrives, and the batch is gone for good. */
  lemma FailedIngestLosesBatch(members: set<string>, items: seq<Item>, listing: seq<Item>) returns (steps: seq<Step>)
    requires items != [] && Merge(map[], items) != map[] && Lists(listing, Merge(map[], items))
    ensures Legal(Init(members), steps)
    ensures var s := Exec(Init(members), steps);
      && s.p.read == items && s.p.applied == [] && s.p.discarded == [] && s.p.lost == []
      && s.p.disk == Buffer(1, map[], false, map[]) && s.p.op.Idle? && s.p.last == 0
      && s.skipped == map[1 := Merge(map[], items)] && !UnderWay(s, 1)
  {
    var init := Init(members);
    steps := FirstFrameSent(members, items, listing);
    assert [] + [1] == [1] && [1][1..] == [];
    steps := RunExtends(init, steps, Fail(true));
    var s := FirstSent(members, items, listing, [P.Msg(1, listing)]);
    assert Exec(init, steps) == s.(p := s.p.(up := [], down := [1]));
    steps := RunExtends(init, steps, Plain(P.ReceiveAck));
    steps := RunExtends(init, steps, Plain(P.Save));
  }

  /** A doubling run: the number of the first ingest is not recorded, its ack is lost, and the resend is applied again. */
  lemma UnrecordedIngestDoubles(members: set<string>, items: seq<Item>, listing: seq<Item>, e: string, d: Dir) returns (steps: seq<Step>)
    requires items != [] && Merge(map[], items) != map[] && Lists(listing, Merge(map[], items))
    ensures Legal(Init(members), steps)
    ensures var s := Exec(Init(members), steps);
      && s.p.read == items && s.failed == [] && s.p.disk == Buffer(1, map[], false, map[]) && s.p.last == 1
      && Total(s.p.applied, e, d) + Total(s.p.discarded, e, d) == 2 * Total(items, e, d)
  {
    var init := Init(members);
    var m := P.Msg(1, listing);
    steps := AppliedUnrecorded(members, items, listing);
    var t := Exec(init, steps);
    steps := ResendAcknowledged(init, steps, m);
    Ingested(t.p, m, e, d);
    P.CreditedPlusIgnored(listing, members, e, d);
    MergeTotals(map[], items, e, d);
    ListedTotals(listing, Merge(map[], items), e, d);
  }

  /** After the unrecorded ingest and the resend: applied once, and the frame is under way again. */
  lemma AppliedUnrecorded(members: set<string>, items: seq<Item>, listing: seq<Item>) returns (steps: seq<Step>)
    requires items != [] && Merge(map[], items) != map[] && Lists(listing, Merge(map[], items))
    ensures Legal(Init(members), steps)
    ensures var m := P.Msg(1, listing);
      var s := FirstSent(members, items, listing, [m] + [m]);
      Exec(Init(members), steps) ==
        s.(p := s.p.(applied := P.Credited(listing, members), discarded := P.Ignored(listing, members)), unrecorded := [m])
  {
    var init, m := Init(members), P.Msg(1, listing);
    steps := FirstFrameSent(members, items, listing);
    NoneBad(listing, members);
    assert [m][1..] == [] && [] + [m] == [m];
    steps := RunExtends(init, steps, Flaky(false, {}, false));
    var s := FirstSent(members, items, listing, [m]);
    var once := s.(p := s.p.(up := [], applied := P.Credited(listing, members), discarded := P.Ignored(listing, members)),
                   unrecorded := [m]);
    assert [] + P.Credited(listing, members) == P.Credited(listing, members);
    assert [] + P.Ignored(listing, members) == P.Ignored(listing, members);
    assert Exec(init, steps) == once;
    steps := RunExtends(init, steps, Plain(P.Take(listing)));
    steps := RunExtends(init, steps, Plain(P.Send));
  }

  /** The only frame under way is applied and acknowledged. */
  lemma ResendAcknowledged(init: State, steps: seq<Step>, m: P.Msg) returns (more: seq<Step>)
    requires Legal(init, steps)
    requires var p := Exec(init, steps).p;
      p.up == [m] && p.down == [] && p.attached && p.op.Idle? && p.mem == p.disk && p.mem.flightAt && m.sn == p.mem.sn
    ensures Legal(init, more)
    ensures var s, t := Exec(init, steps), Exec(init, more);
      && t.failed == s.failed && t.p.read == s.p.read && t.p.disk == Ack(s.p.disk, m.sn)
      && t.p.applied == P.Ingest(s.p, m).applied && t.p.discarded == P.Ingest(s.p, m).discarded
      && t.p.last == P.Ingest(s.p, m).last
  {
    assert [] + [m.sn] == [m.sn] && [m.sn][1..] == [] && [m][1..] == [];
    more := RunExtends(init, steps, Plain(P.Deliver(true)));
    more := RunExtends(init, more, Plain(P.ReceiveAck));
    more := RunExtends(init, more, Plain(P.Save));
  }

  lemma {:induction false} NoneBad(items: seq<Item>, members: set<string>)
    ensures Added(items, members, {}) == P.Credited(items, members) && NotAdded(items, members, {}) == []
  {
    if items == [] {
    } else {
      NoneBad(items[..|items| - 1], members);
    }
  }
}
