/**
 Progress of the traffic protocol (internal/agent/agent.go:195-255): over a
 connection that loses nothing, every run of send, ingest and ack steps empties
 the buffer, however they interleave, in whatever order a batch is listed, and
 whether or not the ticker resends a batch before its ack arrives.
 */
module TrafficDrain {
  import opened Wrappers
  import opened Traffic
  import opened PendingBuffer
  import opened TrafficProtocol

  /** Steps of a reliable connection with no new counters and no failure. */
  predicate Reliable(step: Step) {
    || step.StartBatch? || step.Save? || step.Take? || step.Send? || step.ReceiveAck? || step.Connect?
    || step == Deliver(true)
  }

  predicate AllReliable(steps: seq<Step>) {
    forall i :: 0 <= i < |steps| ==> Reliable(steps[i])
  }

  /** The batch in flight, or its ack, is on its way over the current connection. */
  predicate Carried(s: State) {
    && s.attached
    && ((s.hand.Some? && s.hand.value.sn == s.mem.sn)
        || (exists i :: 0 <= i < |s.up| && s.up[i].sn == s.mem.sn)
        || s.mem.sn in s.down)
  }

  /** A tick that sends a batch which is already on its way. */
  predicate Resend(s: State, step: Step) {
    step.Take? && Carried(s)
  }

  /** How many steps are left, not counting resends and what they cause. */
  function Work(s: State): nat {
    (if s.mem.pend != map[] then 7 else 0)
    + (if s.mem.flightAt then (if Carried(s) then 1 else 5) else 0)
    + (if s.op.Idle? then 0 else 1)
    + (if s.attached then 0 else 1)
    + (if s.hand.Some? then 3 else 0) + 2 * |s.up| + |s.down|
  }

  lemma CarriedStays(s: State, step: Step)
    requires Carried(s) && s.mem.flightAt && Enabled(s, step) && Reliable(step)
    ensures Apply(s, step).mem.flightAt ==> Carried(Apply(s, step))
  {
    var t := Apply(s, step);
    match step
    case Send =>
      if i :| 0 <= i < |s.up| && s.up[i].sn == s.mem.sn {
        assert t.up[i].sn == t.mem.sn;
      } else if s.hand.value.sn == s.mem.sn {
        assert t.up[|s.up|].sn == t.mem.sn;
      }
    case Deliver(_) =>
      if i :| 0 <= i < |s.up| && s.up[i].sn == s.mem.sn {
        if i == 0 {
          assert t.down[|s.down|] == t.mem.sn;
        } else {
          assert t.up[i - 1].sn == t.mem.sn;
        }
      }
    case ReceiveAck =>
      if s.mem.sn in s.down && s.down[0] != s.mem.sn {
        var i :| 0 <= i < |s.down| && s.down[i] == s.mem.sn;
        assert t.down[i - 1] == t.mem.sn;
      }
    case _ =>
  }

  /** Every step but a resend leaves less work; a resend adds at most three steps. */
  lemma WorkStep(s: State, step: Step)
    requires Enabled(s, step) && Reliable(step)
    ensures if Resend(s, step) then Work(Apply(s, step)) <= Work(s) + 3 else Work(Apply(s, step)) < Work(s)
  {
    if Carried(s) && s.mem.flightAt {
      CarriedStays(s, step);
    }
  }

  /** Only resends are left to do. */
  ghost predicate Quiet(s: State) {
    forall step :: Reliable(step) && Enabled(s, step) ==> Resend(s, step)
  }

  /** Nothing is buffered and nothing is under way. */
  predicate AtRest(s: State) {
    && s.op.Idle? && s.disk == s.mem && s.mem.pend == map[] && s.mem.flight == map[] && !s.mem.flightAt
    && s.attached && s.hand == None && s.up == [] && s.down == []
  }

  /** As long as anything is buffered or under way, there is something to do besides resending. */
  lemma SomethingToDo(s: State) returns (step: Step)
    requires Inv(s) && !AtRest(s)
    ensures Reliable(step) && Enabled(s, step) && !Resend(s, step)
  {
    if !s.op.Idle? {
      step := Save;
    } else if !s.attached {
      step := Connect;
    } else if s.hand.Some? {
      step := Send;
    } else if s.up != [] {
      step := Deliver(true);
    } else if s.down != [] {
      step := ReceiveAck;
    } else if s.mem.flightAt {
      var listing := ListingExists(s.mem.flight);
      step := Take(listing);
    } else {
      step := StartBatch;
    }
  }

  /** When only resends are left to do, there is nothing to resend either. */
  lemma QuietIsEmpty(s: State)
    requires Inv(s) && Quiet(s)
    ensures AtRest(s)
  {
    if !AtRest(s) {
      var step := SomethingToDo(s);
    }
  }

  // ------------------------------------------------- every reliable run

  function Resends(s: State, steps: seq<Step>): nat
    decreases |steps|
  {
    if steps == [] then 0
    else (if Resend(s, steps[0]) then 1 else 0) + Resends(Apply(s, steps[0]), steps[1..])
  }

  /** The highest number that a reliable run can assign. */
  function Ceiling(s: State): int {
    s.mem.sn + (if s.mem.pend != map[] then 1 else 0)
  }

  /** Steps of a reliable run read nothing, lose nothing and raise no ceiling. */
  lemma ReliableFrame(s: State, step: Step)
    requires Reliable(step) && Enabled(s, step)
    ensures var t := Apply(s, step); t.read == s.read && t.lost == s.lost && Ceiling(t) <= Ceiling(s) && t.members == s.members
  {
  }

  /** A reliable run is as long as the work it does, plus at most four steps for each resend. */
  lemma {:induction false} RunBounded(s: State, steps: seq<Step>)
    requires Inv(s) && Legal(s, steps) && AllReliable(steps)
    ensures |steps| + Work(Exec(s, steps)) <= Work(s) + 4 * Resends(s, steps)
    ensures var t := Exec(s, steps);
      Inv(t) && t.read == s.read && t.lost == s.lost && Ceiling(t) <= Ceiling(s) && t.members == s.members
    decreases |steps|
  {
    if steps == [] {
    } else {
      assert Reliable(steps[0]);
      InvStep(s, steps[0]);
      WorkStep(s, steps[0]);
      ReliableFrame(s, steps[0]);
      RunBounded(Apply(s, steps[0]), steps[1..]);
    }
  }

  lemma CeilingOverLast(s: State)
    requires Inv(s)
    ensures s.last <= s.disk.sn <= s.mem.sn && Ceiling(s) <= s.last + 2
  {
  }

  /** The buffer is empty, in memory and on disk, and every byte ever read is on the panel or was lost to a crash. */
  ghost predicate Emptied(t: State) {
    && t.disk.pend == map[] && t.disk.flight == map[] && !t.disk.flightAt && t.mem == t.disk && t.op.Idle?
    && forall e: string, d: Dir ::
         Total(t.read, e, d) == Total(t.applied, e, d) + Total(t.discarded, e, d) + Total(t.lost, e, d)
  }

  lemma QuietAccounts(t: State)
    requires Inv(t) && Quiet(t)
    ensures Emptied(t)
  {
    QuietIsEmpty(t);
    forall e: string, d: Dir
      ensures Total(t.read, e, d) == Total(t.applied, e, d) + Total(t.discarded, e, d) + Total(t.lost, e, d)
    {
      assert Total(t.read, e, d) == Accounted(t, e, d);
    }
  }

  /**
   Drain: from every reachable state, every reliable run takes at most Work(s)
   steps plus four for each resend, and applies at most two more batches. As soon
   as nothing but resends can follow, the buffer is empty and every byte ever read
   has been credited or ignored, except those lost to earlier crashes.
   */
  lemma Drain(members: set<string>, steps: seq<Step>, more: seq<Step>)
    requires Legal(Init(members), steps)
    requires Legal(Exec(Init(members), steps), more) && AllReliable(more)
    ensures var s := Exec(Init(members), steps);
      var t := Exec(s, more);
      && |more| + Work(t) <= Work(s) + 4 * Resends(s, more)
      && t.last <= s.last + 2
      && t.read == s.read && t.lost == s.lost
      && (Quiet(t) ==> Emptied(t))
  {
    InitInv(members);
    InvRun(Init(members), steps);
    DrainFrom(Exec(Init(members), steps), more);
  }

  lemma DrainFrom(s: State, more: seq<Step>)
    requires Inv(s) && Legal(s, more) && AllReliable(more)
    ensures var t := Exec(s, more);
      && |more| + Work(t) <= Work(s) + 4 * Resends(s, more)
      && t.last <= s.last + 2
      && t.read == s.read && t.lost == s.lost
      && (Quiet(t) ==> Emptied(t))
  {
    RunBounded(s, more);
    CeilingOverLast(s);
    CeilingOverLast(Exec(s, more));
    if Quiet(Exec(s, more)) {
      QuietAccounts(Exec(s, more));
    }
  }

  lemma {:induction false} ExecAppend(s: State, a: seq<Step>, b: seq<Step>)
    requires Legal(s, a) && Legal(Exec(s, a), b)
    ensures Legal(s, a + b) && Exec(s, a + b) == Exec(Exec(s, a), b)
    decreases |a|
  {
    if a == [] {
      assert a + b == b;
    } else {
      ExecAppend(Apply(s, a[0]), a[1..], b);
      assert (a + b)[1..] == a[1..] + b;
    }
  }

  /** No reliable run is stuck short of that: each can be continued, without any resend, until it is quiet. */
  lemma {:induction false} QuietFollows(s: State) returns (more: seq<Step>)
    requires Inv(s)
    ensures Legal(s, more) && AllReliable(more) && Resends(s, more) == 0 && Quiet(Exec(s, more))
    decreases Work(s)
  {
    if Quiet(s) {
      more := [];
    } else {
      var step :| Reliable(step) && Enabled(s, step) && !Resend(s, step);
      InvStep(s, step);
      WorkStep(s, step);
      var rest := QuietFollows(Apply(s, step));
      more := [step] + rest;
      assert more[1..] == rest;
    }
  }

  // ------------------------------------------------- resends do not delay

  function Numbers(up: seq<Msg>): seq<int> {
    seq(|up|, i requires 0 <= i < |up| => up[i].sn)
  }

  /** The numbers on their way, the next ack to arrive first, each frame standing for its ack. */
  function Pipeline(s: State): seq<int> {
    s.down + Numbers(s.up) + (if s.hand.Some? then [s.hand.value.sn] else [])
  }

  /** Where a number first occurs. */
  function First(numbers: seq<int>, n: int): nat {
    if numbers == [] || numbers[0] == n then 0 else 1 + First(numbers[1..], n)
  }

  lemma {:induction false} FirstAppend(a: seq<int>, b: seq<int>, n: int)
    requires n in a
    ensures First(a + b, n) == First(a, n)
    decreases |a|
  {
    if a[0] != n {
      assert (a + b)[1..] == a[1..] + b;
      FirstAppend(a[1..], b, n);
    }
  }

  /** Acks that arrive before the one of the batch in flight. */
  function AcksBefore(s: State): nat {
    First(Pipeline(s), s.mem.sn)
  }

  /** The batch has been acknowledged. */
  predicate Past(s: State, n: int) {
    s.mem.sn > n || (s.mem.sn == n && !s.mem.flightAt)
  }

  lemma PipelineCarries(s: State)
    requires s.attached
    ensures Carried(s) <==> s.mem.sn in Pipeline(s)
  {
    var n, numbers := s.mem.sn, Numbers(s.up);
    if i :| 0 <= i < |s.up| && s.up[i].sn == n {
      assert numbers[i] == n;
    }
    if n in numbers {
      var i :| 0 <= i < |numbers| && numbers[i] == n;
      assert s.up[i].sn == n;
    }
  }

  /** Sending and delivering leave the pipeline alone. */
  lemma PipelineMoves(s: State, step: Step)
    requires s.attached && Enabled(s, step) && (step.Send? || step == Deliver(true))
    ensures Pipeline(Apply(s, step)) == Pipeline(s)
  {
  }

  /** Only an arriving ack brings the batch closer, and nothing, a resend least of all, puts it off. */
  lemma AcksStep(s: State, step: Step)
    requires s.attached && s.op.Idle? && s.mem.flightAt && Carried(s) && Enabled(s, step) && Reliable(step)
    ensures var t := Apply(s, step);
      || Past(t, s.mem.sn)
      || (t.attached && t.op.Idle? && t.mem == s.mem && Carried(t)
          && AcksBefore(s) == AcksBefore(t) + (if step.ReceiveAck? then 1 else 0))
  {
    var t, n := Apply(s, step), s.mem.sn;
    PipelineCarries(s);
    CarriedStays(s, step);
    match step
    case Send => PipelineMoves(s, step);
    case Deliver(_) => PipelineMoves(s, step);
    case Take(_) =>
      var a := s.down + Numbers(s.up);
      assert Pipeline(t) == a + [n];
      if n in a {
        FirstAppend(a, [n], n);
        FirstAppend(a, if s.hand.Some? then [s.hand.value.sn] else [], n);
      } else {
        assert Pipeline(s) == a + [n];
      }
    case ReceiveAck =>
      if s.down[0] != n {
        assert Pipeline(s)[1..] == Pipeline(t);
      }
    case _ =>
  }

  lemma {:induction false} PastStays(s: State, steps: seq<Step>, n: int)
    requires Past(s, n) && Legal(s, steps) && AllReliable(steps)
    ensures Past(Exec(s, steps), n)
    decreases |steps|
  {
    if steps == [] {
    } else {
      assert Reliable(steps[0]);
      PastStays(Apply(s, steps[0]), steps[1..], n);
    }
  }

  function Acks(steps: seq<Step>): nat {
    if steps == [] then 0 else (if steps[0].ReceiveAck? then 1 else 0) + Acks(steps[1..])
  }

  /**
   Resends do not delay: once a batch is on its way, every reliable run in which
   more acks arrive than were ahead of it has got it acknowledged, however many
   times the ticker resends it meanwhile.
   */
  lemma {:induction false} ResendsDoNotDelay(s: State, steps: seq<Step>)
    requires s.attached && s.op.Idle? && s.mem.flightAt && Carried(s)
    requires Legal(s, steps) && AllReliable(steps)
    ensures var t := Exec(s, steps);
      Past(t, s.mem.sn) || (t.mem == s.mem && Carried(t) && AcksBefore(s) == AcksBefore(t) + Acks(steps))
    ensures Acks(steps) > AcksBefore(s) ==> Past(Exec(s, steps), s.mem.sn)
    decreases |steps|
  {
    if steps == [] {
    } else {
      assert Reliable(steps[0]);
      AcksStep(s, steps[0]);
      var t := Apply(s, steps[0]);
      if Past(t, s.mem.sn) {
        PastStays(t, steps[1..], s.mem.sn);
      } else {
        ResendsDoNotDelay(t, steps[1..]);
      }
    }
  }
}
