/**
 Crash safety of the recorded baseline (internal/agent/baseline.go seed and
 persist, driven by internal/agent/xray.go applyConfig): runs of the machine in
 ApplySteps in which the agent may die between any two effects of an apply, any
 apply may fail, and Xray may restart from its file at any time.
 */
module BaselineCrash {
  import opened Wrappers
  import opened XrayConfig
  import opened ApplySteps

  /**
   The condition under which the baseline can be trusted, on the state before each
   step: a push starts with no baseline held, with no write outstanding, or in a
   state that it is sure to repair; and at most one config was written since the
   baseline that a starting agent trusts was recorded.
   */
  ghost predicate Orderly(s: State, step: Step) {
    && (step.Write? ==> s.mem.None? || s.writes == 0 || Repairs(s, step.doc))
    && (step.Crash? && Accepts(s) ==> s.writes <= 1)
  }

  ghost predicate AllOrderly(s: State, steps: seq<Step>)
    decreases |steps|
  {
    steps == [] || (Orderly(s, steps[0]) && AllOrderly(Apply(s, steps[0]), steps[1..]))
  }

  /** No baseline yet, and nothing known about the running Xray. */
  function Boot(file: Option<Doc>, running: Running): State {
    State(file, running, None, None, Idle, 0)
  }

  // ---------------------------------------------------------------- invariant

  /** If a live apply gets to its end, Xray runs its config: what is not on the list is right, or a call on the list will be rejected. */
  ghost predicate LiveSafe(s: State)
    requires s.phase.Editing? && s.mem.Some?
  {
    || (exists u :: u in s.phase.todo && !Accepted(s, u))
    || (SameShape(Load(s.phase.doc), s.running)
        && forall u: Slot :: u !in s.phase.todo ==> At(s.running.clients, u) == Wanted(s.phase.doc, u))
  }

  /** An apply under way, or finished with nil, is on the way to the config in the file, or has reached it. */
  ghost predicate ApplySafe(s: State) {
    match s.phase
    case Editing(doc, todo, half) =>
      s.file == Some(doc) && doc.Doc? && s.mem.Some? && todo <= Delta(s.mem.value, doc) && LiveSafe(s)
    case Restarting(doc) => s.file == Some(doc)
    case Confirmed(doc) => s.file == Some(doc) && doc.Doc? && s.running == Load(doc)
    case Done(ok) => ok ==> s.file.Some? && s.running == Load(s.file.value)
    case Idle => true
  }

  ghost predicate Inv(s: State) {
    && ApplySafe(s)
    && (s.disk.Some? ==> s.disk.value.Doc?)
    && (s.mem.Some? ==> s.mem == s.disk)
    && (s.phase.Editing? || s.phase.Restarting? || s.phase.Confirmed? ==> s.writes >= 1)
    && (s.disk.Some? && s.writes == 0 ==> s.file == s.disk)
    && (s.disk.Some? && s.writes <= 1 && s.file == s.disk ==> s.running == Load(s.disk.value))
  }

  lemma EditSafe(s: State, u: Slot, ok: bool)
    requires ApplySafe(s) && Enabled(s, Edit(u, ok))
    ensures ApplySafe(Apply(s, Edit(u, ok)))
  {
    var t := Apply(s, Edit(u, ok));
    var to := if Removes(s, u) then None else Wanted(s.phase.doc, u);
    forall v: Slot ensures At(t.running.clients, v) == if v == u then to else At(s.running.clients, v) {
      PutAt(s.running, u, to, v);
    }
    assert t.running.clients.Keys == s.running.clients.Keys;
    if v :| v in s.phase.todo && !Accepted(s, v) {
      assert ok ==> v != u && v in t.phase.todo && !Accepted(t, v);
    }
  }

  /** When a live apply gets to its end, Xray runs its config. */
  lemma LiveDoneRight(s: State)
    requires ApplySafe(s) && Enabled(s, LiveDone)
    ensures s.running == Load(s.phase.doc)
  {
    SameSlots(s.running.clients, Load(s.phase.doc).clients);
  }

  /** Once a push that repairs has been written, no step but a crash or another push endangers it. */
  lemma SafeStep(s: State, step: Step)
    requires ApplySafe(s) && Enabled(s, step) && !step.Crash?
    requires step.Write? ==> Repairs(s, step.doc)
    ensures ApplySafe(Apply(s, step))
  {
    match step
    case Write(doc) => WriteSafe(s, doc);
    case Edit(u, ok) => EditSafe(s, u, ok);
    case LiveDone => LiveDoneRight(s);
    case _ =>
  }

  lemma WriteSafe(s: State, doc: Doc)
    requires Enabled(s, Write(doc)) && Repairs(s, doc)
    ensures ApplySafe(Apply(s, Write(doc)))
  {
  }

  lemma InvStep(s: State, step: Step)
    requires Inv(s) && Enabled(s, step) && Orderly(s, step)
    ensures Inv(Apply(s, step))
  {
    if step.Write? {
      RecordedRepairs(s, step.doc);
    }
    if step.Crash? {
    } else {
      SafeStep(s, step);
      if step.Edit? {
        DeltaDiffers(s.mem.value, s.phase.doc, step.u);
      }
    }
  }

  /** With no write outstanding the baseline is right, so the next push is safe. */
  lemma RecordedRepairs(s: State, doc: Doc)
    requires Inv(s)
    ensures s.mem.None? || s.writes == 0 ==> Repairs(s, doc)
  {
    if s.mem.None? || s.writes == 0 {
      AgreeingRepairs(s, doc);
    }
  }

  lemma {:induction false} InvRun(s: State, steps: seq<Step>)
    requires Inv(s) && Legal(s, steps) && AllOrderly(s, steps)
    ensures Inv(Exec(s, steps))
    decreases |steps|
  {
    if steps == [] {
    } else {
      InvStep(s, steps[0]);
      InvRun(Apply(s, steps[0]), steps[1..]);
    }
  }

  // ----------------------------------------------------------------- theorems

  /**
   Crash-safe baseline: after every orderly run, whatever applies failed and
   whatever crashes fell inside them, a baseline that seed would now trust with at
   most one write outstanding describes exactly the running Xray, so does a
   baseline held in memory with no write outstanding, and an apply that has
   returned nil left Xray running its config.
   */
  lemma CrashSafe(file: Option<Doc>, running: Running, steps: seq<Step>)
    requires Legal(Boot(file, running), steps) && AllOrderly(Boot(file, running), steps)
    ensures var s := Exec(Boot(file, running), steps);
      && (Accepts(s) && s.writes <= 1 ==> s.running == Load(s.disk.value))
      && (s.mem.Some? && s.writes == 0 ==> s.running == Load(s.mem.value) && s.file == s.mem)
      && (s.phase == Done(true) ==> s.file.Some? && s.running == Load(s.file.value))
  {
    InvRun(Boot(file, running), steps);
  }

  /**
   The condition on pushes cannot be weakened: from every state, a push for which
   it fails has a run that returns nil and leaves Xray on another config.
   */
  lemma PushCondition(s: State, doc: Doc) returns (t: State)
    requires Inv(s) && Ready(s) && doc.Doc?
    ensures !Orderly(s, Write(doc)) ==> ApplyRun(s, doc, t) && t.phase == Done(true) && t.running != Load(doc)
    ensures Orderly(s, Write(doc)) ==>
      forall t' :: ApplyRun(s, doc, t') && t'.phase == Done(true) ==> t'.running == Load(doc)
  {
    RepairsExactly(s, doc);
    RecordedRepairs(s, doc);
    t := s;
    if !Orderly(s, Write(doc)) {
      t :| ApplyRun(s, doc, t) && t.phase == Done(true) && t.running != Load(doc);
    }
  }

  lemma RunExtends(s: State, a: seq<Step>, step: Step) returns (b: seq<Step>)
    requires Legal(s, a) && Enabled(Exec(s, a), step)
    ensures b == a + [step] && Legal(s, b) && Exec(s, b) == Apply(Exec(s, a), step)
    ensures AllOrderly(s, b) <==> AllOrderly(s, a) && Orderly(Exec(s, a), step)
  {
    b := a + [step];
    Extend(s, a, step);
    ExtendOrderly(s, a, step);
  }

  lemma {:induction false} ExtendOrderly(s: State, a: seq<Step>, step: Step)
    ensures AllOrderly(s, a + [step]) <==> AllOrderly(s, a) && Orderly(Exec(s, a), step)
    decreases |a|
  {
    var b := a + [step];
    if a == [] {
      assert b[0] == step && b[1..] == [];
      assert AllOrderly(Apply(s, step), []);
    } else {
      ExtendOrderly(Apply(s, a[0]), a[1..], step);
      assert b[0] == a[0] && b[1..] == a[1..] + [step];
    }
  }

  /** An example node: two users, then none. */
  function Settings(): NodeParams {
    NodeParams("dest:443", "sni", "key", "", "")
  }

  function TwoUsers(): Doc {
    Build(Settings(), [Client("u1", "alice"), Client("u2", "bob")])
  }

  function NoUsers(): Doc {
    Build(Settings(), [])
  }

  lemma ExampleUsers()
    ensures Load(TwoUsers()).clients == map[TAG_REALITY := map["alice" := "u1", "bob" := "u2"]]
    ensures Load(NoUsers()).clients == map[TAG_REALITY := map[]]
    ensures SkeletonOf(TwoUsers()) == SkeletonOf(NoUsers()) && TwoUsers() != NoUsers()
  {
    var both := [Client("u1", "alice"), Client("u2", "bob")];
    BuildClients(Settings(), both);
    BuildClients(Settings(), []);
    BuildSkeleton(Settings(), both, []);
    assert ClientJsons(both)[..1] == [ClientObj("alice", "u1")];
    assert [ClientObj("alice", "u1")][..0] == [];
    assert UsersOf([ClientObj("alice", "u1")]) == map["alice" := "u1"];
    assert UsersOf(ClientJsons(both)) == map["alice" := "u1", "bob" := "u2"];
    assert UsersOf(ClientJsons([])) == map[];
    assert "alice" in Load(TwoUsers()).clients[TAG_REALITY];
  }

  const ALICE := Slot(TAG_REALITY, "alice")

  lemma ExampleDelta()
    ensures ALICE in Delta(TwoUsers(), NoUsers()) && Wanted(TwoUsers(), ALICE) == Some("u1") && Wanted(NoUsers(), ALICE) == None
    ensures forall u :: u in Delta(TwoUsers(), NoUsers()) ==> Rank(NoUsers(), u) == 3
    ensures Delta(TwoUsers(), TwoUsers()) == {}
  {
    ExampleUsers();
    DeltaDiffers(TwoUsers(), NoUsers(), ALICE);
    forall u ensures u in Delta(TwoUsers(), NoUsers()) ==> Rank(NoUsers(), u) == 3 {
      DeltaDiffers(TwoUsers(), NoUsers(), u);
    }
    forall u ensures u !in Delta(TwoUsers(), TwoUsers()) {
      DeltaDiffers(TwoUsers(), TwoUsers(), u);
    }
  }

  /** Two users recorded, then a live removal of one of them whose report is lost. */
  lemma CutShort(running: Running) returns (steps: seq<Step>, s: State)
    ensures Legal(Boot(None, running), steps) && AllOrderly(Boot(None, running), steps)
    ensures s == Exec(Boot(None, running), steps)
    ensures s == State(Some(NoUsers()), Put(Load(TwoUsers()), ALICE, None), Some(TwoUsers()), Some(TwoUsers()), Restarting(NoUsers()), 1)
    ensures s.running.clients == map[TAG_REALITY := map["bob" := "u2"]]
  {
    ExampleUsers();
    ExampleDelta();
    var boot := Boot(None, running);
    steps := [];
    steps := RunExtends(boot, steps, Write(TwoUsers()));
    steps := RunExtends(boot, steps, RestartDone);
    steps := RunExtends(boot, steps, Record);
    steps := RunExtends(boot, steps, Write(NoUsers()));
    s := Exec(boot, steps);
    assert s.phase == Editing(NoUsers(), Delta(TwoUsers(), NoUsers()), None);
    steps := RunExtends(boot, steps, Edit(ALICE, false));
    s := Exec(boot, steps);
    var both := map["alice" := "u1", "bob" := "u2"];
    assert both - {"alice"} == map["bob" := "u2"];
  }

  /**
   The bound of one write is sharp: for every larger number of writes there is an
   orderly run after which seed trusts a baseline that Xray does not run.
   */
  lemma {:induction false} MoreWritesCanFool(running: Running, writes: nat) returns (steps: seq<Step>, s: State)
    requires writes >= 2
    ensures Legal(Boot(None, running), steps) && AllOrderly(Boot(None, running), steps)
    ensures s == Exec(Boot(None, running), steps)
    ensures s.writes == writes && Accepts(s) && s.running != Load(s.disk.value)
  {
    ExampleUsers();
    var boot := Boot(None, running);
    steps, s := CutShort(running);
    steps := RunExtends(boot, steps, Crash);
    s := Exec(boot, steps);
    for k := 1 to writes - 1
      invariant Legal(boot, steps) && AllOrderly(boot, steps) && s == Exec(boot, steps)
      invariant s.disk == Some(TwoUsers()) && s.file == Some(NoUsers()) && s.mem == None && s.phase == Idle
      invariant s.writes == k && s.running.clients == map[TAG_REALITY := map["bob" := "u2"]]
    {
      steps := RunExtends(boot, steps, Write(NoUsers()));
      steps := RunExtends(boot, steps, Crash);
      s := Exec(boot, steps);
    }
    steps := RunExtends(boot, steps, Write(TwoUsers()));
    s := Exec(boot, steps);
    assert "alice" !in s.running.clients[TAG_REALITY] && "alice" in Load(TwoUsers()).clients[TAG_REALITY];
  }

  /** A baseline that seed would trust in s, with at most this many writes outstanding, is what Xray runs. */
  ghost predicate Trustworthy(s: State, writes: nat) {
    Accepts(s) && s.writes <= writes ==> s.running == Load(s.disk.value)
  }

  /** Trusting the recorded hash is right after every orderly run if and only if at most one write may be outstanding. */
  lemma WriteBoundExact(writes: nat)
    ensures (forall file: Option<Doc>, running: Running, steps: seq<Step> ::
               Legal(Boot(file, running), steps) && AllOrderly(Boot(file, running), steps) ==>
                 Trustworthy(Exec(Boot(file, running), steps), writes)) <==> writes <= 1
  {
    if writes <= 1 {
      forall file: Option<Doc>, running: Running, steps: seq<Step>
        | Legal(Boot(file, running), steps) && AllOrderly(Boot(file, running), steps)
        ensures Trustworthy(Exec(Boot(file, running), steps), writes)
      {
        CrashSafe(file, running, steps);
      }
    } else {
      var running := Load(NoUsers());
      var steps, s := MoreWritesCanFool(running, writes);
      assert !Trustworthy(Exec(Boot(None, running), steps), writes);
    }
  }

  /**
   The failing family of pushes is reached: when the restart fails after a partial
   live apply, pushing the recorded config again does not repair Xray, and has a
   run that returns nil without a single call.
   */
  lemma PushAfterFailedRestartCanFool(running: Running) returns (steps: seq<Step>, s: State, t: State)
    ensures Legal(Boot(None, running), steps) && AllOrderly(Boot(None, running), steps)
    ensures s == Exec(Boot(None, running), steps) && s.phase == Done(false) && !Agrees(s)
    ensures !Repairs(s, TwoUsers())
    ensures ApplyRun(s, TwoUsers(), t) && t.phase == Done(true) && t.running == s.running != Load(TwoUsers())
  {
    ExampleUsers();
    ExampleDelta();
    steps, s := CutShort(running);
    steps := RunExtends(Boot(None, running), steps, RestartFails);
    s := Exec(Boot(None, running), steps);
    PutAt(Load(TwoUsers()), ALICE, None, ALICE);
    assert ALICE !in Delta(TwoUsers(), TwoUsers());
    assert !RightElsewhere(s.running, TwoUsers(), TwoUsers());
    var w := Apply(s, Write(TwoUsers()));
    ReachesSelf(w);
    ReachesStep(w, w, LiveDone);
    t := Apply(w, LiveDone);
    ReachesStep(w, t, Record);
    t := Apply(t, Record);
  }
}
