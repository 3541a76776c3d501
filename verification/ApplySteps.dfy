/**
 One applyConfig, call by call (internal/agent/xray.go applyConfig,
 internal/agent/live_grpc.go liveApply, internal/agent/baseline.go): a machine
 whose steps are the single effects on the config file, the running Xray and the
 recorded baseline, in the order in which the code issues them. Between any two
 of them the agent may die, and Xray may come back from its file by itself.

 SHA-256 is taken as injective, so the hash of a config file is modelled by the
 document. A baseline is always recorded from a parsed config, so it is modelled
 by that document: skeleton, users and hash are functions of it.
 */
module ApplySteps {
  import opened Wrappers
  import opened XrayConfig

  // ------------------------------------------------- single users of Xray

  /** A user of one inbound. */
  datatype Slot = Slot(tag: string, email: string)

  function Lookup(m: Users, email: string): Option<string> {
    if email in m then Some(m[email]) else None
  }

  function SetFor(sets: ClientSets, tag: string): Users {
    if tag in sets then sets[tag] else map[]
  }

  /** The uuid a slot holds, if any. */
  function At(sets: ClientSets, u: Slot): Option<string> {
    Lookup(SetFor(sets, u.tag), u.email)
  }

  function Wanted(doc: Doc, u: Slot): Option<string> {
    At(Load(doc).clients, u)
  }

  /** The running Xray with one slot changed. */
  function Put(r: Running, u: Slot, to: Option<string>): Running {
    var users := SetFor(r.clients, u.tag);
    r.(clients := r.clients[u.tag := if to.Some? then users[u.email := to.value] else users - {u.email}])
  }

  lemma PutAt(r: Running, u: Slot, to: Option<string>, v: Slot)
    ensures At(Put(r, u, to).clients, v) == if v == u then to else At(r.clients, v)
  {
  }

  /** Client sets are determined by their tags and slots. */
  lemma SameSlots(a: ClientSets, b: ClientSets)
    requires a.Keys == b.Keys && forall u: Slot :: At(a, u) == At(b, u)
    ensures a == b
  {
    forall tag | tag in a ensures a[tag] == b[tag] {
      forall email: string ensures Lookup(a[tag], email) == Lookup(b[tag], email) {
        assert At(a, Slot(tag, email)) == At(b, Slot(tag, email));
      }
      SameLookups(a[tag], b[tag]);
    }
  }

  lemma SameLookups(a: Users, b: Users)
    requires forall email: string :: Lookup(a, email) == Lookup(b, email)
    ensures a == b
  {
    forall email: string ensures email in a <==> email in b {
      assert Lookup(a, email) == Lookup(b, email);
    }
    forall email: string | email in a ensures a[email] == b[email] {
      assert Lookup(a, email) == Lookup(b, email);
    }
  }

  /** The users of one inbound that differ between two sets. */
  function TagDelta(tag: string, before: Users, after: Users): set<Slot> {
    set email | email in before.Keys + after.Keys && Lookup(before, email) != Lookup(after, email) :: Slot(tag, email)
  }

  /** The users liveApply touches: those that differ between the baseline and the new config. */
  function Delta(before: Doc, after: Doc): set<Slot> {
    TagDelta(TAG_TLS, SetFor(Load(before).clients, TAG_TLS), SetFor(Load(after).clients, TAG_TLS))
    + TagDelta(TAG_REALITY, SetFor(Load(before).clients, TAG_REALITY), SetFor(Load(after).clients, TAG_REALITY))
  }

  lemma OnlyManagedTags(doc: Doc)
    ensures forall tag :: tag in Load(doc).clients ==> tag == TAG_TLS || tag == TAG_REALITY
  {
    if doc.Doc? {
      forall tag | tag in Load(doc).clients ensures tag == TAG_TLS || tag == TAG_REALITY {
        ManagedTags(doc.inbounds, tag);
      }
    }
  }

  lemma DeltaDiffers(before: Doc, after: Doc, u: Slot)
    ensures u in Delta(before, after) <==> Wanted(before, u) != Wanted(after, u)
  {
    OnlyManagedTags(before);
    OnlyManagedTags(after);
    if Wanted(before, u) != Wanted(after, u) {
      assert u == Slot(u.tag, u.email);
      assert u.email in SetFor(Load(before).clients, u.tag).Keys + SetFor(Load(after).clients, u.tag).Keys;
    }
  }

  // ------------------------------------------------- the machine

  datatype Phase =
    | Idle                                                     // the agent has just started
    | Editing(doc: Doc, todo: set<Slot>, half: Option<Slot>)   // in liveApply; half: removed, to be added again
    | Restarting(doc: Doc)
    | Confirmed(doc: Doc)                                      // Xray took doc, the baseline is not yet recorded
    | Done(ok: bool)                                           // applyConfig has returned, nil if ok

  datatype State = State(
    file: Option<Doc>,   // config.json
    running: Running,
    mem: Option<Doc>,    // baseline in memory
    disk: Option<Doc>,   // baseline file
    phase: Phase,
    writes: nat)         // config writes since the baseline was last recorded or recovered

  datatype Step =
    | Write(doc: Doc)
    | Edit(u: Slot, ok: bool)   // a gRPC call took effect; it reports success or not
    | GiveUp                    // a call failed without effect, or there is no connection
    | LiveDone
    | RestartDone
    | RestartFails
    | Record
    | Crash                     // the agent dies, restarts and seeds its baseline
    | XrayRestarts              // Xray comes back from its file by itself

  predicate Ready(s: State) {
    s.phase.Idle? || s.phase.Done?
  }

  /** A baseline is held and only users changed. */
  predicate CanLive(s: State, doc: Doc) {
    s.mem.Some? && doc.Doc? && SkeletonOf(s.mem.value) == SkeletonOf(doc)
  }

  /** The order of the loops: TLS before REALITY, additions and changes before removals. */
  function Rank(doc: Doc, u: Slot): nat {
    (if u.tag == TAG_TLS then 0 else 2) + (if Wanted(doc, u).Some? then 0 else 1)
  }

  /** The next call concerns u. */
  predicate NextIs(phase: Phase, u: Slot)
    requires phase.Editing?
  {
    && u in phase.todo
    && (if phase.half.Some? then phase.half == Some(u)
        else forall v :: v in phase.todo ==> Rank(phase.doc, u) <= Rank(phase.doc, v))
  }

  /** The next call on u removes it: u is in the baseline and has not been removed yet. */
  predicate Removes(s: State, u: Slot) {
    s.mem.Some? && s.phase.Editing? && s.phase.half != Some(u) && Wanted(s.mem.value, u).Some?
  }

  /** Xray accepts the next call on u: it removes a present user or adds an absent one. */
  predicate Accepted(s: State, u: Slot) {
    u.tag in s.running.clients && (At(s.running.clients, u).Some? <==> Removes(s, u))
  }

  /** seed trusts the baseline file. */
  predicate Accepts(s: State) {
    s.disk.Some? && s.file == s.disk
  }

  predicate Enabled(s: State, step: Step) {
    match step
    case Write(doc) => Ready(s) && !doc.Malformed?
    case Edit(u, _) => s.phase.Editing? && s.mem.Some? && NextIs(s.phase, u) && Accepted(s, u)
    case GiveUp => s.phase.Editing?
    case LiveDone => s.phase.Editing? && s.phase.todo == {}
    case RestartDone => s.phase.Restarting?
    case RestartFails => s.phase.Restarting?
    case Record => s.phase.Confirmed?
    case Crash => true
    case XrayRestarts => s.file.Some?
  }

  function AfterEdit(s: State, u: Slot, ok: bool): Phase
    requires s.phase.Editing?
  {
    var doc := s.phase.doc;
    if !ok then Restarting(doc)
    else if Removes(s, u) && Wanted(doc, u).Some? then Editing(doc, s.phase.todo, Some(u))
    else Editing(doc, s.phase.todo - {u}, None)
  }

  function Apply(s: State, step: Step): State {
    match step
    case Write(doc) =>
      s.(file := Some(doc), writes := s.writes + 1,
         phase := if CanLive(s, doc) then Editing(doc, Delta(s.mem.value, doc), None) else Restarting(doc))
    case Edit(u, ok) =>
      if s.phase.Editing? then
        s.(running := Put(s.running, u, if Removes(s, u) then None else Wanted(s.phase.doc, u)),
           phase := AfterEdit(s, u, ok))
      else s
    case GiveUp => if s.phase.Editing? then s.(phase := Restarting(s.phase.doc)) else s
    case LiveDone => if s.phase.Editing? then s.(phase := Confirmed(s.phase.doc)) else s
    case RestartDone =>
      if s.phase.Restarting? then
        s.(running := Load(s.phase.doc), phase := if s.phase.doc.Doc? then Confirmed(s.phase.doc) else Done(true))
      else s
    case RestartFails => s.(phase := Done(false))
    case Record =>
      if s.phase.Confirmed? then
        s.(mem := Some(s.phase.doc), disk := Some(s.phase.doc), phase := Done(true), writes := 0)
      else s
    case Crash =>
      if Accepts(s) then s.(mem := s.disk, phase := Idle, writes := 0) else s.(mem := None, phase := Idle)
    case XrayRestarts => if s.file.Some? then s.(running := Load(s.file.value)) else s
  }

  predicate Legal(s: State, steps: seq<Step>)
    decreases |steps|
  {
    steps == [] || (Enabled(s, steps[0]) && Legal(Apply(s, steps[0]), steps[1..]))
  }

  function Exec(s: State, steps: seq<Step>): State
    decreases |steps|
  {
    if steps == [] then s else Exec(Apply(s, steps[0]), steps[1..])
  }

  lemma {:induction false} Extend(s: State, a: seq<Step>, step: Step)
    requires Legal(s, a) && Enabled(Exec(s, a), step)
    ensures Legal(s, a + [step]) && Exec(s, a + [step]) == Apply(Exec(s, a), step)
    decreases |a|
  {
    var b := a + [step];
    if a == [] {
      assert b[0] == step && b[1..] == [];
      assert Legal(Apply(s, step), []);
    } else {
      Extend(Apply(s, a[0]), a[1..], step);
      assert b[0] == a[0] && b[1..] == a[1..] + [step];
    }
  }

  // ------------------------------------------------- one undisturbed apply

  /** Steps of the apply itself. */
  predicate Working(step: Step) {
    step.Edit? || step.GiveUp? || step.LiveDone? || step.RestartDone? || step.RestartFails? || step.Record?
  }

  ghost predicate Works(s: State, steps: seq<Step>) {
    Legal(s, steps) && forall i :: 0 <= i < |steps| ==> Working(steps[i])
  }

  ghost predicate Reaches(s: State, t: State) {
    exists steps :: Works(s, steps) && Exec(s, steps) == t
  }

  lemma ReachesSelf(s: State)
    ensures Reaches(s, s)
  {
    assert Works(s, []) && Exec(s, []) == s;
  }

  lemma ReachesStep(s: State, t: State, step: Step)
    requires Reaches(s, t) && Enabled(t, step) && Working(step)
    ensures Reaches(s, Apply(t, step))
  {
    var steps :| Works(s, steps) && Exec(s, steps) == t;
    Extend(s, steps, step);
    assert Works(s, steps + [step]);
  }

  /** One whole applyConfig of doc takes the node from s to t. A malformed config is refused. */
  ghost predicate ApplyRun(s: State, doc: Doc, t: State) {
    if doc.Malformed? then t == s.(phase := Done(false))
    else t.phase.Done? && Reaches(Apply(s, Write(doc)), t)
  }

  // ------------------------------------------------- what an apply does to Xray

  /** Xray has the slot exactly when the baseline says so, and has its inbound. */
  predicate Matches(r: Running, before: Doc, u: Slot) {
    u.tag in r.clients && (At(r.clients, u).Some? <==> Wanted(before, u).Some?)
  }

  /** None of the calls for the delta is rejected. */
  predicate CanFinish(r: Running, before: Doc, doc: Doc) {
    forall u :: u in Delta(before, doc) ==> Matches(r, before, u)
  }

  ghost predicate SameShape(r: Running, r': Running) {
    r'.skeleton == r.skeleton && r'.clients.Keys == r.clients.Keys
  }

  /** r' is r with the whole delta worked off. */
  ghost predicate Patched(r: Running, before: Doc, doc: Doc, r': Running) {
    && SameShape(r, r')
    && forall u: Slot :: At(r'.clients, u) == if u in Delta(before, doc) then Wanted(doc, u) else At(r.clients, u)
  }

  /** r' is r with some of the delta worked off, and possibly one user removed on the way to its new uuid. */
  ghost predicate Halfway(r: Running, before: Doc, doc: Doc, r': Running) {
    && SameShape(r, r')
    && forall u: Slot ::
         || At(r'.clients, u) == At(r.clients, u)
         || (u in Delta(before, doc) && Matches(r, before, u)
             && (At(r'.clients, u) == Wanted(doc, u) || At(r'.clients, u) == None))
  }

  /** Everything outside the delta already stands in Xray as doc wants it. */
  ghost predicate RightElsewhere(r: Running, before: Doc, doc: Doc) {
    && SameShape(Load(doc), r)
    && forall u: Slot :: u !in Delta(before, doc) ==> At(r.clients, u) == Wanted(doc, u)
  }

  /**
   What one applyConfig leaves behind, from any state of the node, whether or not
   the recorded baseline describes the running Xray.
   */
  ghost predicate Outcome(s: State, doc: Doc, t: State) {
    if doc.Malformed? then t == s.(phase := Done(false))
    else
      && t.phase.Done? && t.file == Some(doc)
      && (if t.phase.ok && doc.Doc? then t.mem == Some(doc) && t.disk == Some(doc) && t.writes == 0
          else t.mem == s.mem && t.disk == s.disk && t.writes == s.writes + 1)
      && (if !CanLive(s, doc) then t.running == (if t.phase.ok then Load(doc) else s.running)
          else if !t.phase.ok then Halfway(s.running, s.mem.value, doc, t.running)
          else || t.running == Load(doc)
               || (CanFinish(s.running, s.mem.value, doc) && Patched(s.running, s.mem.value, doc, t.running)))
  }

  /** How far an apply that started in w has come in s. */
  ghost predicate Progress(w: State, doc: Doc, s: State) {
    && s.file == w.file
    && (s.phase != Done(true) || !doc.Doc? ==> s.mem == w.mem && s.disk == w.disk && s.writes == w.writes)
    && match s.phase
       case Idle => false
       case Editing(d, todo, half) =>
         && w.phase.Editing? && w.mem.Some? && d == doc && doc.Doc? && todo <= Delta(w.mem.value, doc)
         && (half.Some? ==> half.value in todo)
         && SameShape(w.running, s.running)
         && (forall u: Slot :: At(s.running.clients, u) ==
               if half == Some(u) then None
               else if u in Delta(w.mem.value, doc) && u !in todo then Wanted(doc, u)
               else At(w.running.clients, u))
         && (forall u :: u in Delta(w.mem.value, doc) && (u !in todo || half == Some(u)) ==>
               Matches(w.running, w.mem.value, u))
       case Restarting(d) => d == doc && Undone(w, doc, s.running)
       case Confirmed(d) => d == doc && doc.Doc? && Taken(w, doc, s.running)
       case Done(ok) =>
         && (if ok then Taken(w, doc, s.running) else Undone(w, doc, s.running))
         && (ok && doc.Doc? ==> s.mem == Some(doc) && s.disk == Some(doc) && s.writes == 0)
  }

  ghost predicate Undone(w: State, doc: Doc, r: Running) {
    if w.phase.Editing? then w.mem.Some? && Halfway(w.running, w.mem.value, doc, r) else r == w.running
  }

  ghost predicate Taken(w: State, doc: Doc, r: Running) {
    || r == Load(doc)
    || (w.phase.Editing? && w.mem.Some? && CanFinish(w.running, w.mem.value, doc) && Patched(w.running, w.mem.value, doc, r))
  }

  lemma EditKeeps(w: State, doc: Doc, s: State, u: Slot, ok: bool)
    requires Progress(w, doc, s) && Enabled(s, Edit(u, ok))
    ensures Progress(w, doc, Apply(s, Edit(u, ok)))
  {
    var t := Apply(s, Edit(u, ok));
    var to := if Removes(s, u) then None else Wanted(doc, u);
    forall v: Slot ensures At(t.running.clients, v) == if v == u then to else At(s.running.clients, v) {
      PutAt(s.running, u, to, v);
    }
    assert t.running.clients.Keys == s.running.clients.Keys;
    assert Matches(w.running, w.mem.value, u);
  }

  lemma WorkKeeps(w: State, doc: Doc, s: State, step: Step)
    requires Progress(w, doc, s) && Enabled(s, step) && Working(step)
    ensures Progress(w, doc, Apply(s, step))
  {
    match step
    case Edit(u, ok) => EditKeeps(w, doc, s, u, ok);
    case _ =>
  }

  lemma {:induction false} WorksKeep(w: State, doc: Doc, s: State, steps: seq<Step>)
    requires Progress(w, doc, s) && Works(s, steps)
    ensures Progress(w, doc, Exec(s, steps))
    decreases |steps|
  {
    if steps == [] {
    } else {
      assert Working(steps[0]);
      WorkKeeps(w, doc, s, steps[0]);
      WorksKeep(w, doc, Apply(s, steps[0]), steps[1..]);
    }
  }

  lemma WriteStarts(s: State, doc: Doc)
    requires !doc.Malformed?
    ensures Progress(Apply(s, Write(doc)), doc, Apply(s, Write(doc)))
  {
  }

  /** Every run of one apply ends in its stated outcome. */
  lemma RunOutcome(s: State, doc: Doc, t: State)
    requires ApplyRun(s, doc, t)
    ensures Outcome(s, doc, t)
  {
    if !doc.Malformed? {
      var w := Apply(s, Write(doc));
      var steps :| Works(w, steps) && Exec(w, steps) == t;
      WriteStarts(s, doc);
      WorksKeep(w, doc, w, steps);
    }
  }

  // ------------------------------------------------- when an apply is right

  /**
   The push is sure to leave the right Xray if it succeeds: it restarts, or one of
   its calls is rejected and it restarts then, or Xray is right wherever the delta
   does not touch it.
   */
  ghost predicate Repairs(s: State, doc: Doc) {
    CanLive(s, doc) ==>
      !CanFinish(s.running, s.mem.value, doc) || RightElsewhere(s.running, s.mem.value, doc)
  }

  lemma PatchedRight(r: Running, before: Doc, doc: Doc, r': Running)
    requires Patched(r, before, doc, r')
    ensures r' == Load(doc) <==> RightElsewhere(r, before, doc)
  {
    if RightElsewhere(r, before, doc) {
      SameSlots(r'.clients, Load(doc).clients);
    }
  }

  lemma LowestRank(doc: Doc, todo: set<Slot>) returns (u: Slot)
    requires todo != {}
    ensures u in todo && forall v :: v in todo ==> Rank(doc, u) <= Rank(doc, v)
  {
    u :| u in todo;
    var rest := todo - {u};
    while rest != {}
      invariant u in todo && rest <= todo
      invariant forall v :: v in todo && v !in rest ==> Rank(doc, u) <= Rank(doc, v)
      decreases rest
    {
      var v :| v in rest;
      if Rank(doc, v) < Rank(doc, u) {
        u := v;
      }
      rest := rest - {v};
    }
  }

  /** If no call is rejected, a live apply can run to its end. */
  lemma {:induction false} LiveFinishes(w: State, doc: Doc, s: State) returns (t: State)
    requires Reaches(w, s) && Progress(w, doc, s) && s.phase.Editing?
    requires CanFinish(w.running, w.mem.value, doc)
    ensures Reaches(w, t) && t.phase == Done(true) && Patched(w.running, w.mem.value, doc, t.running)
    decreases |s.phase.todo|, if s.phase.half.None? then 1 else 0
  {
    if s.phase.todo == {} {
      ReachesStep(w, s, LiveDone);
      t := Apply(s, LiveDone);
      ReachesStep(w, t, Record);
      t := Apply(t, Record);
    } else {
      var u;
      if s.phase.half.Some? {
        u := s.phase.half.value;
      } else {
        u := LowestRank(doc, s.phase.todo);
      }
      assert Matches(w.running, w.mem.value, u);
      ReachesStep(w, s, Edit(u, true));
      EditKeeps(w, doc, s, u, true);
      t := LiveFinishes(w, doc, Apply(s, Edit(u, true)));
    }
  }

  /**
   When nil means that Xray runs the pushed config, from any state of the node:
   every successful apply of doc leaves Xray running doc if and only if the push
   repairs, a condition on the state before it.
   */
  lemma RepairsExactly(s: State, doc: Doc)
    requires doc.Doc?
    ensures (forall t :: ApplyRun(s, doc, t) && t.phase == Done(true) ==> t.running == Load(doc)) <==> Repairs(s, doc)
  {
    if Repairs(s, doc) {
      forall t | ApplyRun(s, doc, t) && t.phase == Done(true) ensures t.running == Load(doc) {
        RunOutcome(s, doc, t);
        if t.running != Load(doc) {
          PatchedRight(s.running, s.mem.value, doc, t.running);
        }
      }
    } else {
      var w := Apply(s, Write(doc));
      WriteStarts(s, doc);
      ReachesSelf(w);
      var t := LiveFinishes(w, doc, w);
      assert ApplyRun(s, doc, t);
      PatchedRight(s.running, s.mem.value, doc, t.running);
    }
  }

  /** A push with other settings than the recorded ones restarts Xray: nil leaves exactly the new config running, from any state. */
  lemma SettingsChangeRestarts(s: State, p: NodeParams, a: seq<Client>, q: NodeParams, b: seq<Client>, t: State)
    requires s.mem == Some(Build(p, a)) && !SameSettings(p, q) && ApplyRun(s, Build(q, b), t)
    ensures !CanLive(s, Build(q, b))
    ensures t.running == if t.phase == Done(true) then Load(Build(q, b)) else s.running
  {
    SettingsDecideSkeleton(p, a, q, b);
    RunOutcome(s, Build(q, b), t);
  }

  /** The baseline in memory describes the running Xray. */
  predicate Agrees(s: State) {
    s.mem.Some? ==> s.mem.value.Doc? && s.running == Load(s.mem.value)
  }

  /** A baseline that describes Xray makes every push safe. */
  lemma AgreeingRepairs(s: State, doc: Doc)
    requires Agrees(s)
    ensures Repairs(s, doc)
    ensures CanLive(s, doc) ==> CanFinish(s.running, s.mem.value, doc)
  {
    if CanLive(s, doc) {
      SkeletonFixesTags(s.mem.value, doc);
      forall u: Slot ensures u in Delta(s.mem.value, doc) <==> Wanted(s.mem.value, u) != Wanted(doc, u) {
        DeltaDiffers(s.mem.value, doc, u);
      }
      forall u | u in Delta(s.mem.value, doc) ensures Matches(s.running, s.mem.value, u) {
        assert u.tag in Load(s.mem.value).clients || u.tag in Load(doc).clients;
      }
    }
  }

  /** The push cannot leave the baseline stale: refused, restarting, or without any user to touch. */
  predicate KeepsAgreement(before: Doc, doc: Doc) {
    || doc.Malformed?
    || (doc.Doc? && (SkeletonOf(doc) != SkeletonOf(before) || Load(doc).clients == Load(before).clients))
  }

  /** A push that touches some user can fail after its first call, and so can the restart. */
  lemma FirstCallThenFailure(s: State, doc: Doc) returns (t: State)
    requires Agrees(s) && s.mem.Some? && doc.Doc? && !KeepsAgreement(s.mem.value, doc)
    ensures ApplyRun(s, doc, t) && t.phase == Done(false) && t.mem == s.mem && t.running != s.running
  {
    var before := s.mem.value;
    var w := Apply(s, Write(doc));
    AgreeingRepairs(s, doc);
    if Delta(before, doc) == {} {
      SkeletonFixesTags(before, doc);
      forall u: Slot ensures Wanted(before, u) == Wanted(doc, u) {
        DeltaDiffers(before, doc, u);
      }
      SameSlots(Load(before).clients, Load(doc).clients);
      assert false;
    }
    var u := LowestRank(doc, Delta(before, doc));
    DeltaDiffers(before, doc, u);
    assert Matches(s.running, before, u);
    ReachesSelf(w);
    ReachesStep(w, w, Edit(u, false));
    t := Apply(w, Edit(u, false));
    PutAt(w.running, u, if Removes(w, u) then None else Wanted(doc, u), u);
    ReachesStep(w, t, RestartFails);
    t := Apply(t, RestartFails);
  }

  /**
   When an apply keeps the agent's view right: from a baseline that describes
   Xray, it still does after every run of the apply if and only if the push keeps
   agreement, which is known before the call. Otherwise t is a run that ends with
   a stale baseline.
   */
  lemma AgreementKeptExactly(s: State, doc: Doc) returns (t: State)
    requires Agrees(s) && s.mem.Some?
    ensures (forall t' :: ApplyRun(s, doc, t') ==> Agrees(t')) <==> KeepsAgreement(s.mem.value, doc)
    ensures !KeepsAgreement(s.mem.value, doc) ==> ApplyRun(s, doc, t) && !Agrees(t)
  {
    var before := s.mem.value;
    t := s;
    if KeepsAgreement(before, doc) {
      forall t' | ApplyRun(s, doc, t') ensures Agrees(t') {
        RunOutcome(s, doc, t');
        AgreeingOutcome(s, doc, t');
      }
    } else if doc.Doc? {
      t := FirstCallThenFailure(s, doc);
      assert ApplyRun(s, doc, t) && !Agrees(t);
    } else {
      var w := Apply(s, Write(doc));
      ReachesSelf(w);
      ReachesStep(w, w, RestartDone);
      t := Apply(w, RestartDone);
      assert Load(doc).skeleton.NoInbounds?;
      assert ApplyRun(s, doc, t) && !Agrees(t);
    }
  }

  lemma AgreeingOutcome(s: State, doc: Doc, t: State)
    requires Agrees(s) && s.mem.Some? && Outcome(s, doc, t) && KeepsAgreement(s.mem.value, doc)
    ensures Agrees(t)
  {
    if CanLive(s, doc) {
      var before := s.mem.value;
      AgreeingRepairs(s, doc);
      forall u: Slot ensures u !in Delta(before, doc) {
        DeltaDiffers(before, doc, u);
      }
      if t.phase.ok {
        if t.running != Load(doc) {
          PatchedRight(s.running, before, doc, t.running);
        }
      } else {
        SameSlots(t.running.clients, s.running.clients);
      }
    }
  }
}
