/**
 What becomes of the usage protocol when the agent's buffer file is lost or
 replaced by an old copy (internal/panel/traffic.go:22-40 promises to re-baseline):
 the agent starts over from a number the panel does not expect.
 */
module BufferLoss {
  import opened Wrappers
  import opened Traffic
  import opened PendingBuffer
  import opened TrafficProtocol
  import opened TrafficDrain

  /** The agent dies and finds a file with nothing buffered that resumes at number n. A lost file is n = 0. */
  function Replaced(s: State, n: nat): State {
    var b := Buffer(n, map[], false, map[]);
    s.(mem := b, disk := b, op := Idle, attached := false, hand := None, down := [])
  }

  // ------------------------------------------------- every run after the next connect

  /** A connection that begins with nothing buffered at number n. The panel's last number is whatever it is by then. */
  predicate Resumes(c: State, n: nat) {
    && c.mem == Buffer(n, map[], false, map[]) && c.disk == c.mem && c.op.Idle?
    && c.attached && c.hand == None && c.up == [] && c.down == []
  }

  /** Until the agent connects again the panel may still read frames of the old connection; its users may change too. */
  predicate Meanwhile(steps: seq<Step>) {
    forall i :: 0 <= i < |steps| ==> steps[i].Deliver? || steps[i].Assign?
  }

  lemma {:induction false} ReplacedResumes(s: State, n: nat, steps: seq<Step>)
    requires Legal(Replaced(s, n), steps) && Meanwhile(steps)
    ensures Enabled(Exec(Replaced(s, n), steps), Connect)
    ensures Resumes(Apply(Exec(Replaced(s, n), steps), Connect), n)
  {
    DetachedKeeps(Replaced(s, n), steps);
  }

  lemma {:induction false} DetachedKeeps(s: State, steps: seq<Step>)
    requires Legal(s, steps) && Meanwhile(steps) && !s.attached
    ensures var t := Exec(s, steps); t.mem == s.mem && t.disk == s.disk && t.op == s.op && !t.attached
    decreases |steps|
  {
    if steps == [] {
    } else {
      assert steps[0].Deliver? || steps[0].Assign?;
      DetachedKeeps(Apply(s, steps[0]), steps[1..]);
    }
  }

  /** The reference: agent and panel agree on number n, and their histories begin here. */
  function Agreed(n: nat, members: set<string>): State {
    var b := Buffer(n, map[], false, map[]);
    State(b, b, Idle, None, true, [], [], n, members, [], [], [], [], [], seq(n, i => i + 1))
  }

  /** The panel takes batch n + 1 for a duplicate. */
  predicate Clashes(c: State, n: nat) {
    c.last == n + 1
  }

  ghost predicate Same(s: State, v: State) {
    && s.mem == v.mem && s.disk == v.disk && s.op == v.op && s.hand == v.hand && s.attached == v.attached
    && s.up == v.up && s.down == v.down && s.members == v.members
  }

  /** The run from the reference is past n, and nothing numbered n or less is under way. */
  ghost predicate Beyond(v: State, n: nat) {
    && n <= v.last && n <= v.disk.sn && (v.disk.sn == n ==> !v.disk.flightAt)
    && (forall i :: 0 <= i < |v.up| ==> v.up[i].sn > n)
    && (v.hand.Some? ==> v.hand.value.sn > n)
  }

  ghost function Kept(s: State, e: string, d: Dir): int {
    Total(s.applied, e, d) + Total(s.discarded, e, d)
  }

  /** What the panel has applied in s, a run from c, against v, the run from the reference. */
  ghost predicate Applies(c: State, n: nat, batch: Counters, s: State, v: State) {
    && n <= v.last == |v.ingested|
    && s.last == (if v.last == n then c.last else v.last)
    && (v.last == n ==> v.applied == [] && v.discarded == [])
    && (if !Clashes(c, n) then
          && s.applied == c.applied + v.applied && s.discarded == c.discarded + v.discarded
          && s.ingested == c.ingested + v.ingested[n..]
        else
          && (v.last <= n + 1 ==> s.applied == c.applied && s.discarded == c.discarded)
          && s.ingested == c.ingested + (if v.last == n then [] else v.ingested[n + 1..])
          && forall e: string, d: Dir ::
               Kept(s, e, d) + (if v.last == n then 0 else At(batch, e, d)) == Kept(c, e, d) + Kept(v, e, d))
  }

  /** How the run s from c follows the run v from the reference; batch is number n + 1, once it is assigned. */
  ghost predicate Follows(c: State, n: nat, batch: Counters, s: State, v: State) {
    && Same(s, v) && Inv(v) && Beyond(v, n)
    && s.read == c.read + v.read && s.lost == c.lost + v.lost
    && (v.disk.sn == n + 1 && v.disk.flightAt ==> batch == v.disk.flight)
    && Applies(c, n, batch, s, v)
  }

  lemma Begins(c: State, n: nat)
    requires Resumes(c, n)
    ensures Follows(c, n, map[], c, Agreed(n, c.members))
  {
  }

  lemma BeyondStep(v: State, n: nat, step: Step)
    requires Inv(v) && Beyond(v, n) && Enabled(v, step)
    ensures Beyond(Apply(v, step), n)
  {
    if step.Deliver? {
      assert MsgOk(v.disk, v.last, v.up[0]);
    }
  }

  lemma IngestedTotals(s: State, m: Msg, e: string, d: Dir)
    requires m.sn != s.last
    ensures Kept(Ingest(s, m), e, d) == Kept(s, e, d) + Total(m.items, e, d)
  {
    CreditedPlusIgnored(m.items, s.members, e, d);
    TotalAppend(s.applied, Credited(m.items, s.members), e, d);
    TotalAppend(s.discarded, Ignored(m.items, s.members), e, d);
  }

  /** The first frame of batch n + 1 that the panel reads. */
  lemma FirstFrame(c: State, n: nat, batch: Counters, s: State, v: State, m: Msg)
    requires Follows(c, n, batch, s, v) && v.last == n && v.up != [] && m == v.up[0]
    ensures m.sn == n + 1 && v.disk.sn == n + 1 && Lists(m.items, batch)
    ensures Ingest(v, m).ingested == v.ingested + [n + 1] && Ingest(v, m).last == n + 1
    ensures var s', v' := Ingest(s, m), Ingest(v, m);
      if Clashes(c, n) then
        s' == s && forall e: string, d: Dir :: Kept(s', e, d) + At(batch, e, d) == Kept(c, e, d) + Kept(v', e, d)
      else
        && s'.applied == c.applied + v'.applied && s'.discarded == c.discarded + v'.discarded
        && s'.last == n + 1 && s'.ingested == s.ingested + [n + 1]
  {
    assert MsgOk(v.disk, v.last, m);
    if Clashes(c, n) {
      forall e: string, d: Dir ensures Kept(s, e, d) + At(batch, e, d) == Kept(c, e, d) + Kept(Ingest(v, m), e, d) {
        IngestedTotals(v, m, e, d);
        ListedTotals(m.items, batch, e, d);
        assert Kept(s, e, d) == Kept(c, e, d) + Kept(v, e, d);
      }
    } else {
      var credited, ignored := Credited(m.items, v.members), Ignored(m.items, v.members);
      assert v.applied == [] && v.discarded == [] && [] + credited == credited && [] + ignored == ignored;
      assert s.applied == c.applied && s.discarded == c.discarded;
    }
  }

  /** Any later frame: both panels treat it alike. */
  lemma LaterFrame(c: State, n: nat, batch: Counters, s: State, v: State, m: Msg)
    requires Follows(c, n, batch, s, v) && v.last > n
    ensures var s', v' := Ingest(s, m), Ingest(v, m);
      && s'.last == v'.last
      && (if m.sn != 0 && m.sn == v.last then s' == s && v' == v
          else s'.ingested == s.ingested + [m.sn] && v'.ingested == v.ingested + [m.sn])
      && (!Clashes(c, n) ==> s'.applied == c.applied + v'.applied && s'.discarded == c.discarded + v'.discarded)
      && (Clashes(c, n) ==>
            forall e: string, d: Dir :: Kept(s', e, d) + At(batch, e, d) == Kept(c, e, d) + Kept(v', e, d))
  {
    var credited, ignored := Credited(m.items, v.members), Ignored(m.items, v.members);
    if Clashes(c, n) && !(m.sn != 0 && m.sn == v.last) {
      forall e: string, d: Dir
        ensures Kept(Ingest(s, m), e, d) + At(batch, e, d) == Kept(c, e, d) + Kept(Ingest(v, m), e, d)
      {
        assert Kept(s, e, d) + At(batch, e, d) == Kept(c, e, d) + Kept(v, e, d);
        TotalAppend(s.applied, credited, e, d);
        TotalAppend(s.discarded, ignored, e, d);
        TotalAppend(v.applied, credited, e, d);
        TotalAppend(v.discarded, ignored, e, d);
      }
    }
  }

  lemma FirstApplied(c: State, n: nat, batch: Counters, s: State, v: State, m: Msg)
    requires Follows(c, n, batch, s, v) && v.last == n && v.up != [] && m == v.up[0]
    ensures Applies(c, n, batch, Ingest(s, m), Ingest(v, m))
  {
    FirstFrame(c, n, batch, s, v, m);
    assert (v.ingested + [n + 1])[n..] == [n + 1] && (v.ingested + [n + 1])[n + 1..] == [];
    assert v.ingested[n..] == [];
  }

  lemma LaterApplied(c: State, n: nat, batch: Counters, s: State, v: State, m: Msg)
    requires Follows(c, n, batch, s, v) && v.last > n && v.up != [] && m == v.up[0]
    ensures Applies(c, n, batch, Ingest(s, m), Ingest(v, m))
  {
    assert MsgOk(v.disk, v.last, m);
    LaterFrame(c, n, batch, s, v, m);
    if m.sn != v.last {
      assert (v.ingested + [m.sn])[n..] == v.ingested[n..] + [m.sn];
      assert (v.ingested + [m.sn])[n + 1..] == v.ingested[n + 1..] + [m.sn];
    }
  }

  /** Only the last number and the histories of the panel matter. */
  lemma AppliesFrame(c: State, n: nat, batch: Counters, s: State, v: State, s': State, v': State)
    requires Applies(c, n, batch, s, v)
    requires s'.last == s.last && s'.applied == s.applied && s'.discarded == s.discarded && s'.ingested == s.ingested
    requires v'.last == v.last && v'.applied == v.applied && v'.discarded == v.discarded && v'.ingested == v.ingested
    ensures Applies(c, n, batch, s', v')
  {
  }

  lemma SameDeliver(s: State, v: State, ackQueued: bool)
    requires Same(s, v) && s.up != []
    ensures Same(Apply(s, Deliver(ackQueued)), Apply(v, Deliver(ackQueued)))
  {
  }

  lemma DeliverIngests(s: State, ackQueued: bool)
    requires s.up != []
    ensures var t, u := Apply(s, Deliver(ackQueued)), Ingest(s, s.up[0]);
      && t.last == u.last && t.applied == u.applied && t.discarded == u.discarded && t.ingested == u.ingested
      && t.read == s.read && t.lost == s.lost && t.disk == s.disk
  {
  }

  lemma FollowsDeliver(c: State, n: nat, batch: Counters, s: State, v: State, ackQueued: bool)
    requires Follows(c, n, batch, s, v) && Enabled(v, Deliver(ackQueued))
    ensures Follows(c, n, batch, Apply(s, Deliver(ackQueued)), Apply(v, Deliver(ackQueued)))
  {
    var m, s', v' := v.up[0], Apply(s, Deliver(ackQueued)), Apply(v, Deliver(ackQueued));
    SameDeliver(s, v, ackQueued);
    DeliverIngests(s, ackQueued);
    DeliverIngests(v, ackQueued);
    InvStep(v, Deliver(ackQueued));
    BeyondStep(v, n, Deliver(ackQueued));
    if v.last == n {
      FirstApplied(c, n, batch, s, v, m);
    } else {
      LaterApplied(c, n, batch, s, v, m);
    }
    AppliesFrame(c, n, batch, Ingest(s, m), Ingest(v, m), s', v');
  }

  /** The batch becomes known when its promotion is saved. */
  function Named(v: State, n: nat, step: Step, batch: Counters): Counters {
    if step.Save? && v.op.Promoting? && v.disk.sn == n then v.mem.flight else batch
  }

  lemma Renamed(c: State, n: nat, batch: Counters, s: State, v: State, step: Step)
    requires Follows(c, n, batch, s, v)
    ensures Applies(c, n, Named(v, n, step, batch), s, v)
  {
  }

  lemma SameStep(s: State, v: State, step: Step)
    requires Same(s, v) && Enabled(s, step) && !step.Deliver?
    ensures Enabled(v, step) && Same(Apply(s, step), Apply(v, step))
  {
  }

  lemma HistoriesStep(c: State, s: State, v: State, step: Step)
    requires s.op == v.op && s.read == c.read + v.read && s.lost == c.lost + v.lost
    ensures Apply(s, step).read == c.read + Apply(v, step).read && Apply(s, step).lost == c.lost + Apply(v, step).lost
  {
  }

  lemma NamedStep(v: State, n: nat, batch: Counters, step: Step)
    requires Inv(v) && Beyond(v, n) && Enabled(v, step)
    requires v.disk.sn == n + 1 && v.disk.flightAt ==> batch == v.disk.flight
    ensures var v' := Apply(v, step);
      v'.disk.sn == n + 1 && v'.disk.flightAt ==> Named(v, n, step, batch) == v'.disk.flight
  {
  }

  lemma PanelIdle(s: State, step: Step)
    requires !step.Deliver?
    ensures var t := Apply(s, step);
      t.last == s.last && t.applied == s.applied && t.discarded == s.discarded && t.ingested == s.ingested
  {
  }

  lemma FollowsPlain(c: State, n: nat, batch: Counters, s: State, v: State, step: Step)
    requires Follows(c, n, batch, s, v) && Enabled(s, step) && !step.Deliver?
    ensures Enabled(v, step) && Follows(c, n, Named(v, n, step, batch), Apply(s, step), Apply(v, step))
  {
    var s', v' := Apply(s, step), Apply(v, step);
    SameStep(s, v, step);
    InvStep(v, step);
    BeyondStep(v, n, step);
    HistoriesStep(c, s, v, step);
    NamedStep(v, n, batch, step);
    PanelIdle(s, step);
    PanelIdle(v, step);
    Renamed(c, n, batch, s, v, step);
    AppliesFrame(c, n, Named(v, n, step, batch), s, v, s', v');
  }

  lemma FollowsStep(c: State, n: nat, batch: Counters, s: State, v: State, step: Step)
    requires Follows(c, n, batch, s, v) && Enabled(s, step)
    ensures Enabled(v, step) && Follows(c, n, Named(v, n, step, batch), Apply(s, step), Apply(v, step))
  {
    if step.Deliver? {
      FollowsDeliver(c, n, batch, s, v, step.ackQueued);
    } else {
      FollowsPlain(c, n, batch, s, v, step);
    }
  }

  lemma {:induction false} FollowsRun(c: State, n: nat, batch: Counters, s: State, v: State, steps: seq<Step>)
    returns (named: Counters)
    requires Follows(c, n, batch, s, v) && Legal(s, steps)
    ensures Legal(v, steps) && Follows(c, n, named, Exec(s, steps), Exec(v, steps))
    decreases |steps|
  {
    named := batch;
    if steps != [] {
      FollowsStep(c, n, batch, s, v, steps[0]);
      named := FollowsRun(c, n, Named(v, n, steps[0], batch), Apply(s, steps[0]), Apply(v, steps[0]), steps[1..]);
    }
  }

  /** The numbers after `from` up to `to`. */
  function After(from: int, to: int): seq<int> {
    if to <= from then [] else seq(to - from, i => from + 1 + i)
  }

  /**
   Re-baselining, exactly. Let an agent connect with nothing buffered at number n,
   and let the panel's last number at that moment be c.last. Whatever resends, lost
   acks, reconnects, crashes and reassignments follow, the agent's side goes on as
   if both had agreed on n (the run v), and every batch from n + 1 on is applied
   exactly once and in order, except that batch n + 1 is skipped if and only if
   c.last was n + 1. Then, and only then, its bytes are in no ledger any more.
   */
  lemma ResumedRun(c: State, n: nat, steps: seq<Step>) returns (batch: Counters)
    requires Resumes(c, n) && Legal(c, steps)
    ensures Legal(Agreed(n, c.members), steps)
    ensures var t, v := Exec(c, steps), Exec(Agreed(n, c.members), steps);
      && Same(t, v) && n <= v.last
      && t.ingested == c.ingested + After(if Clashes(c, n) then n + 1 else n, v.last)
      && (t.disk.sn > n && !t.disk.flightAt ==> t.last == t.disk.sn == v.last)
      && (t.disk.sn == n + 1 && t.disk.flightAt ==> batch == t.disk.flight)
      && (Clashes(c, n) && t.disk.sn <= n + 1 ==> t.applied == c.applied && t.discarded == c.discarded)
    ensures var t, v := Exec(c, steps), Exec(Agreed(n, c.members), steps);
      forall e: string, d: Dir ::
        Total(t.read, e, d) - Total(c.read, e, d) ==
          Total(t.lost, e, d) - Total(c.lost, e, d) + Unsaved(t, e, d) + At(t.disk.pend, e, d) + Unapplied(v, e, d)
          + Kept(t, e, d) - Kept(c, e, d) + (if Clashes(c, n) && v.last > n then At(batch, e, d) else 0)
  {
    Begins(c, n);
    batch := FollowsRun(c, n, map[], c, Agreed(n, c.members), steps);
    var t, v := Exec(c, steps), Exec(Agreed(n, c.members), steps);
    assert v.ingested[n..] == After(n, v.last);
    assert v.last > n ==> v.ingested[n + 1..] == After(n + 1, v.last);
    forall e: string, d: Dir
      ensures Total(t.read, e, d) - Total(c.read, e, d) ==
          Total(t.lost, e, d) - Total(c.lost, e, d) + Unsaved(t, e, d) + At(t.disk.pend, e, d) + Unapplied(v, e, d)
          + Kept(t, e, d) - Kept(c, e, d) + (if Clashes(c, n) && v.last > n then At(batch, e, d) else 0)
    {
      ResumedTotals(c, n, batch, t, v, e, d);
    }
  }

  lemma ResumedTotals(c: State, n: nat, batch: Counters, t: State, v: State, e: string, d: Dir)
    requires Follows(c, n, batch, t, v)
    ensures Total(t.read, e, d) - Total(c.read, e, d) ==
      Total(t.lost, e, d) - Total(c.lost, e, d) + Unsaved(t, e, d) + At(t.disk.pend, e, d) + Unapplied(v, e, d)
      + Kept(t, e, d) - Kept(c, e, d) + (if Clashes(c, n) && v.last > n then At(batch, e, d) else 0)
  {
    assert Total(v.read, e, d) == Accounted(v, e, d);
    TotalAppend(c.read, v.read, e, d);
    TotalAppend(c.lost, v.lost, e, d);
    if !Clashes(c, n) {
      TotalAppend(c.applied, v.applied, e, d);
      TotalAppend(c.discarded, v.discarded, e, d);
    } else {
      assert Kept(t, e, d) + (if v.last == n then 0 else At(batch, e, d)) == Kept(c, e, d) + Kept(v, e, d);
    }
  }

  // ------------------------------------------------- a losing run

  /** The agent connects, reads counters, and gets them acknowledged as one batch. */
  function OneBatch(items: seq<Item>, listing: seq<Item>): seq<Step> {
    [Connect, Read(items), Save, StartBatch, Save] + [Take(listing), Send, Deliver(true), ReceiveAck, Save]
  }

  lemma ExecFive(s: State, a: Step, b: Step, c: Step, d: Step, e: Step)
    requires Enabled(s, a)
    requires var s1 := Apply(s, a); Enabled(s1, b)
    requires var s2 := Apply(Apply(s, a), b); Enabled(s2, c)
    requires var s3 := Apply(Apply(Apply(s, a), b), c); Enabled(s3, d)
    requires var s4 := Apply(Apply(Apply(Apply(s, a), b), c), d); Enabled(s4, e)
    ensures Legal(s, [a, b, c, d, e])
    ensures Exec(s, [a, b, c, d, e]) == Apply(Apply(Apply(Apply(Apply(s, a), b), c), d), e)
  {
    assert [e][1..] == [] && [d, e][1..] == [e] && [c, d, e][1..] == [d, e] && [b, c, d, e][1..] == [c, d, e];
    assert [a, b, c, d, e][1..] == [b, c, d, e];
    var s4 := Apply(Apply(Apply(Apply(s, a), b), c), d);
    assert Legal(Apply(s4, e), []) && Legal(s4, [e]) && Exec(s4, [e]) == Apply(s4, e);
    var s3 := Apply(Apply(Apply(s, a), b), c);
    assert Legal(s3, [d, e]) && Exec(s3, [d, e]) == Apply(s4, e);
    var s2 := Apply(Apply(s, a), b);
    assert Legal(s2, [c, d, e]) && Exec(s2, [c, d, e]) == Apply(s4, e);
  }

  /** First half: the counters are read and promoted to batch n + 1. */
  lemma Promoted(s: State, n: nat, items: seq<Item>)
    requires items != [] && Merge(map[], items) != map[]
    ensures var steps := [Connect, Read(items), Save, StartBatch, Save];
      var b := Buffer(n + 1, Merge(map[], items), true, map[]);
      && Legal(Replaced(s, n), steps)
      && Exec(Replaced(s, n), steps) ==
           s.(mem := b, disk := b, op := Idle, attached := true, hand := None, up := [], down := [], read := s.read + items)
  {
    ExecFive(Replaced(s, n), Connect, Read(items), Save, StartBatch, Save);
  }

  /** Second half: the batch is sent, ingested or taken for a duplicate, and acknowledged either way. */
  lemma Acknowledged(s: State, listing: seq<Item>)
    requires s.op.Idle? && s.attached && s.hand == None && s.up == [] && s.down == [] && s.mem == s.disk
    requires s.mem.flightAt && Lists(listing, s.mem.flight)
    ensures var steps := [Take(listing), Send, Deliver(true), ReceiveAck, Save];
      var t := Exec(s, steps);
      && Legal(s, steps) && t.read == s.read
      && t.mem == Ack(s.mem, s.mem.sn) && t.disk == t.mem && t.op.Idle? && t.up == [] && t.down == [] && t.hand == None
      && t.applied == Ingest(s, Msg(s.mem.sn, listing)).applied
      && t.discarded == Ingest(s, Msg(s.mem.sn, listing)).discarded
      && t.last == Ingest(s, Msg(s.mem.sn, listing)).last
  {
    var m := Msg(s.mem.sn, listing);
    assert [] + [m] == [m] && [m][1..] == [] && [m.sn][1..] == [] && [] + [m.sn] == [m.sn];
    var sent := s.(up := [m], sent := s.sent + [m]);
    assert Apply(Apply(s, Take(listing)), Send) == sent;
    var back := Ingest(sent, m).(up := [], down := [m.sn]);
    assert Apply(sent, Deliver(true)) == back;
    var acked := back.(down := [], mem := Ack(s.mem, m.sn), op := Acking);
    assert Apply(back, ReceiveAck) == acked;
    ExecFive(s, Take(listing), Send, Deliver(true), ReceiveAck, Save);
  }

  /**
   Re-baselining, exactly: an agent that resumes at number n, from whatever state,
   gets its next batch acknowledged and dropped from the buffer in any case. The
   panel accounts for its bytes if and only if it had last applied some number
   other than n + 1; otherwise they are in no ledger any more. Either way agent
   and panel agree on the numbers again afterwards.
   */
  lemma ResumedBatch(s: State, n: nat, items: seq<Item>, listing: seq<Item>, e: string, d: Dir)
    requires items != [] && Merge(map[], items) != map[] && Lists(listing, Merge(map[], items))
    ensures Legal(Replaced(s, n), OneBatch(items, listing))
    ensures var t := Exec(Replaced(s, n), OneBatch(items, listing));
      && t.disk == Buffer(n + 1, map[], false, map[]) && t.mem == t.disk && t.op.Idle? && t.up == [] && t.down == []
      && t.last == t.disk.sn && t.read == s.read + items
      && Total(t.applied, e, d) + Total(t.discarded, e, d) ==
           Total(s.applied, e, d) + Total(s.discarded, e, d) + (if s.last == n + 1 then 0 else Total(items, e, d))
  {
    Promoted(s, n, items);
    var a := [Connect, Read(items), Save, StartBatch, Save];
    var b := [Take(listing), Send, Deliver(true), ReceiveAck, Save];
    var mid := Exec(Replaced(s, n), a);
    Acknowledged(mid, listing);
    ExecAppend(Replaced(s, n), a, b);
    MergeTotals(map[], items, e, d);
    ListedTotals(listing, Merge(map[], items), e, d);
    CreditedPlusIgnored(listing, s.members, e, d);
    TotalAppend(s.applied, Credited(listing, s.members), e, d);
    TotalAppend(s.discarded, Ignored(listing, s.members), e, d);
  }

  /**
   The failing case is reached by the simplest use: a new node reports one batch,
   its agent loses the file, and the next batch is acknowledged and gone, whatever
   the two batches contain.
   */
  lemma FreshBufferLosesBatch(
    members: set<string>, first: seq<Item>, firstListing: seq<Item>, second: seq<Item>, listing: seq<Item>, e: string, d: Dir)
    requires first != [] && Merge(map[], first) != map[] && Lists(firstListing, Merge(map[], first))
    requires second != [] && Merge(map[], second) != map[] && Lists(listing, Merge(map[], second))
    ensures Legal(Init(members), OneBatch(first, firstListing))
    ensures var s := Exec(Init(members), OneBatch(first, firstListing));
      var t := Exec(Replaced(s, 0), OneBatch(second, listing));
      && t.read == s.read + second && t.disk == Buffer(1, map[], false, map[])
      && Total(t.applied, e, d) + Total(t.discarded, e, d) == Total(s.applied, e, d) + Total(s.discarded, e, d)
  {
    assert Replaced(Init(members), 0) == Init(members);
    ResumedBatch(Init(members), 0, first, firstListing, e, d);
    ResumedBatch(Exec(Init(members), OneBatch(first, firstListing)), 0, second, listing, e, d);
  }
}
