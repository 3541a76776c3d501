/**
 The objects behind one config push on the node: the running Xray, and the agent
 that edits its users over gRPC when only users changed and restarts it otherwise
 (internal/agent/xray.go applyConfig, internal/agent/live_grpc.go liveApply,
 internal/agent/baseline.go seed).

 The agent carries a state of the machine in ApplySteps along; every method is
 proved to move it by steps of that machine, and the machine's theorems are then
 theorems about the agent. A gRPC call or a container restart may fail at any
 time; a failed call may or may not have taken effect.
 */
module LiveApply {
  import opened Wrappers
  import opened XrayConfig
  import opened ApplySteps

  /** What the agent believes Xray runs, and the config file it came from. */
  datatype Baseline = Baseline(skeleton: Doc, clients: ClientSets, sha: Doc)

  function BaselineOf(doc: Doc): Baseline {
    Baseline(Load(doc).skeleton, Load(doc).clients, doc)
  }

  /** The baseline is the one recorded from this document. */
  predicate Records(b: Option<Baseline>, doc: Option<Doc>) {
    if b.Some? then doc.Some? && doc.value.Doc? && b.value == BaselineOf(doc.value) else doc.None?
  }

  /** Nothing but the users of one inbound differs. */
  ghost predicate OnlyTag(before: Running, tag: string, after: Running) {
    && SameShape(before, after)
    && forall t :: t in after.clients && t != tag ==> after.clients[t] == before.clients[t]
  }

  /** The running Xray. Adding a present user, or removing an absent one, is rejected. */
  class Xray {
    var running: Running
    ghost var rejected: nat

    constructor (doc: Doc)
      ensures running == Load(doc) && rejected == 0
    {
      running := Load(doc);
      rejected := 0;
    }

    method AddUser(tag: string, email: string, id: string) returns (ok: bool)
      modifies this
      ensures if tag in old(running.clients) && email !in old(running.clients[tag]) then
          && rejected == old(rejected)
          && (running == Put(old(running), Slot(tag, email), Some(id)) || (!ok && running == old(running)))
        else !ok && running == old(running) && rejected == old(rejected) + 1
    {
      if tag !in running.clients || email in running.clients[tag] {
        rejected := rejected + 1;
        return false;
      }
      var reached: bool := *;
      if !reached {
        return false;
      }
      running := running.(clients := running.clients[tag := running.clients[tag][email := id]]);
      ok := *;
    }

    method RemoveUser(tag: string, email: string) returns (ok: bool)
      modifies this
      ensures if tag in old(running.clients) && email in old(running.clients[tag]) then
          && rejected == old(rejected)
          && (running == Put(old(running), Slot(tag, email), None) || (!ok && running == old(running)))
        else !ok && running == old(running) && rejected == old(rejected) + 1
    {
      if tag !in running.clients || email !in running.clients[tag] {
        rejected := rejected + 1;
        return false;
      }
      var reached: bool := *;
      if !reached {
        return false;
      }
      running := running.(clients := running.clients[tag := running.clients[tag] - {email}]);
      ok := *;
    }

    /** docker restart: Xray starts from the file, or the command fails and nothing happened. */
    method Restart(file: Doc) returns (ok: bool)
      modifies this`running
      ensures running == if ok then Load(file) else old(running)
    {
      ok := *;
      if ok {
        running := Load(file);
      }
    }
  }

  // ------------------------------------------------- the work list of liveApply

  /** The part of the delta from one rank on. */
  function From(before: Doc, doc: Doc, rank: nat): set<Slot> {
    set u | u in Delta(before, doc) && Rank(doc, u) >= rank
  }

  /** The additions and changes of one inbound among these emails. */
  function Adds(tag: string, before: Users, after: Users, emails: set<string>): set<Slot> {
    set e | e in emails && e in after && Lookup(before, e) != Lookup(after, e) :: Slot(tag, e)
  }

  /** The removals of one inbound among these emails. */
  function Removals(tag: string, after: Users, emails: set<string>): set<Slot> {
    set e | e in emails && e !in after :: Slot(tag, e)
  }

  /** The rank of an inbound's additions; its removals come next. */
  function TagRank(tag: string): nat {
    if tag == TAG_TLS then 0 else 2
  }

  lemma AddsFirst(before: Doc, doc: Doc, tag: string)
    requires tag == TAG_TLS || tag == TAG_REALITY
    ensures var b, a := SetFor(Load(before).clients, tag), SetFor(Load(doc).clients, tag);
      From(before, doc, TagRank(tag)) == From(before, doc, TagRank(tag) + 1) + Adds(tag, b, a, a.Keys)
  {
  }

  lemma RemovalsNext(before: Doc, doc: Doc, tag: string)
    requires tag == TAG_TLS || tag == TAG_REALITY
    ensures var b, a := SetFor(Load(before).clients, tag), SetFor(Load(doc).clients, tag);
      From(before, doc, TagRank(tag) + 1) == From(before, doc, TagRank(tag) + 2) + Removals(tag, a, b.Keys)
  {
  }

  /** The next addition of the loop is the next call, and doing it shortens the list. */
  lemma NextAdd(before: Doc, doc: Doc, tag: string, emails: set<string>, email: string)
    requires tag == TAG_TLS || tag == TAG_REALITY
    requires var a := SetFor(Load(doc).clients, tag); email in emails && email in a
    ensures var b, a := SetFor(Load(before).clients, tag), SetFor(Load(doc).clients, tag);
      var later, u := From(before, doc, TagRank(tag) + 1), Slot(tag, email);
      var todo, rest := later + Adds(tag, b, a, emails), later + Adds(tag, b, a, emails - {email});
      && Wanted(before, u) == Lookup(b, email) && Wanted(doc, u) == Some(a[email])
      && (if Lookup(b, email) == Some(a[email]) then todo == rest
          else NextIs(Editing(doc, todo, None), u) && todo - {u} == rest)
  {
  }

  lemma NextRemoval(before: Doc, doc: Doc, tag: string, emails: set<string>, email: string)
    requires tag == TAG_TLS || tag == TAG_REALITY
    requires var b := SetFor(Load(before).clients, tag); email in emails && email in b
    ensures var b, a := SetFor(Load(before).clients, tag), SetFor(Load(doc).clients, tag);
      var later, u := From(before, doc, TagRank(tag) + 2), Slot(tag, email);
      var todo, rest := later + Removals(tag, a, emails), later + Removals(tag, a, emails - {email});
      && Wanted(before, u) == Some(b[email]) && Wanted(doc, u) == Lookup(a, email)
      && (if email in a then todo == rest else NextIs(Editing(doc, todo, None), u) && todo - {u} == rest)
  {
  }

  lemma DeltaTags(before: Doc, doc: Doc, u: Slot)
    ensures u in Delta(before, doc) ==> u.tag == TAG_TLS || u.tag == TAG_REALITY
    ensures u in Delta(before, doc) ==> Rank(doc, u) < 4
  {
  }

  // ------------------------------------------------- the agent

  class Agent {
    const xray: Xray
    var file: Option<Doc>        // config.json on the shared volume
    var live: Option<Baseline>   // liveState; None is the empty skeleton
    var disk: Option<Baseline>   // xray-baseline.json
    ghost var model: State

    ghost predicate Mirrors()
      reads this, xray
    {
      model.file == file && model.running == xray.running && Records(live, model.mem) && Records(disk, model.disk)
    }

    ghost predicate Valid()
      reads this, xray
    {
      Mirrors() && Ready(model)
    }

    /** An apply of doc that began in w has come to the present state by steps of the machine. */
    ghost predicate Following(w: State, doc: Doc)
      reads this, xray
    {
      Mirrors() && Reaches(w, model) && Progress(w, doc, model)
    }

    /** A starting agent recovers the baseline if its hash still matches the config file. */
    constructor Seed(xray: Xray, file: Option<Doc>, disk: Option<Baseline>, ghost died: State)
      requires died.file == file && died.running == xray.running && Records(disk, died.disk)
      ensures this.xray == xray && this.file == file && this.disk == disk
      ensures live == if disk.Some? && file == Some(disk.value.sha) then disk else None
      ensures Valid() && model == Apply(died, Crash)
    {
      this.xray, this.file, this.disk := xray, file, disk;
      live := if disk.Some? && file == Some(disk.value.sha) then disk else None;
      model := Apply(died, Crash);
    }

    ghost method Take(w: State, doc: Doc, step: Step)
      requires Reaches(w, model) && Progress(w, doc, model) && Enabled(model, step) && Working(step)
      modifies this`model
      ensures model == Apply(old(model), step) && Reaches(w, model) && Progress(w, doc, model)
    {
      ReachesStep(w, model, step);
      WorkKeeps(w, doc, model, step);
      model := Apply(model, step);
    }

    method RemoveOne(tag: string, email: string, ghost w: State, ghost doc: Doc) returns (ok: bool)
      requires Following(w, doc) && model.phase.Editing?
      requires NextIs(model.phase, Slot(tag, email)) && Removes(model, Slot(tag, email))
      modifies xray, this`model
      ensures Following(w, doc) && OnlyTag(old(xray.running), tag, xray.running)
      ensures model.phase == if ok then AfterEdit(old(model), Slot(tag, email), true) else Restarting(doc)
      ensures CanFinish(w.running, w.mem.value, doc) ==> xray.rejected == old(xray.rejected)
    {
      ghost var u := Slot(tag, email);
      ghost var accepted := Accepted(model, u);
      assert accepted <==> tag in xray.running.clients && email in xray.running.clients[tag];
      assert Matches(w.running, w.mem.value, u) ==> accepted;
      ok := xray.RemoveUser(tag, email);
      if ok || xray.running != model.running {
        Take(w, doc, Edit(u, ok));
      } else {
        Take(w, doc, GiveUp);
      }
    }

    method AddOne(tag: string, email: string, id: string, ghost w: State, ghost doc: Doc) returns (ok: bool)
      requires Following(w, doc) && model.phase.Editing?
      requires NextIs(model.phase, Slot(tag, email)) && !Removes(model, Slot(tag, email))
      requires Wanted(doc, Slot(tag, email)) == Some(id)
      modifies xray, this`model
      ensures Following(w, doc) && OnlyTag(old(xray.running), tag, xray.running)
      ensures model.phase == if ok then AfterEdit(old(model), Slot(tag, email), true) else Restarting(doc)
      ensures CanFinish(w.running, w.mem.value, doc) ==> xray.rejected == old(xray.rejected)
    {
      ghost var u := Slot(tag, email);
      ghost var accepted := Accepted(model, u);
      assert accepted <==> tag in xray.running.clients && email !in xray.running.clients[tag];
      assert Matches(w.running, w.mem.value, u) ==> accepted;
      ok := xray.AddUser(tag, email, id);
      if ok || xray.running != model.running {
        Take(w, doc, Edit(u, ok));
      } else {
        Take(w, doc, GiveUp);
      }
    }

    /** Add a user, removing the entry with the old uuid first. */
    method SetOne(tag: string, email: string, id: string, had: bool, ghost w: State, ghost doc: Doc) returns (ok: bool)
      requires Following(w, doc) && model.phase.Editing? && model.phase.half.None?
      requires NextIs(model.phase, Slot(tag, email)) && Wanted(doc, Slot(tag, email)) == Some(id)
      requires had <==> Removes(model, Slot(tag, email))
      modifies xray, this`model
      ensures Following(w, doc) && OnlyTag(old(xray.running), tag, xray.running)
      ensures model.phase ==
        if ok then Editing(doc, old(model.phase.todo) - {Slot(tag, email)}, None) else Restarting(doc)
      ensures CanFinish(w.running, w.mem.value, doc) ==> xray.rejected == old(xray.rejected)
    {
      if had {
        ok := RemoveOne(tag, email, w, doc);
        if !ok {
          return;
        }
      }
      ok := AddOne(tag, email, id, w, doc);
    }

    /** The additions loop of liveApply for one inbound, in any iteration order. */
    method AddChanged(tag: string, before: Users, after: Users, ghost w: State, ghost doc: Doc) returns (ok: bool)
      requires Following(w, doc) && w.mem.Some? && (tag == TAG_TLS || tag == TAG_REALITY)
      requires before == SetFor(Load(w.mem.value).clients, tag) && after == SetFor(Load(doc).clients, tag)
      requires model.phase == Editing(doc, From(w.mem.value, doc, TagRank(tag)), None)
      modifies xray, this`model
      ensures Following(w, doc) && OnlyTag(old(xray.running), tag, xray.running)
      ensures model.phase ==
        if ok then Editing(doc, From(w.mem.value, doc, TagRank(tag) + 1), None) else Restarting(doc)
      ensures CanFinish(w.running, w.mem.value, doc) ==> xray.rejected == old(xray.rejected)
    {
      ghost var later := From(w.mem.value, doc, TagRank(tag) + 1);
      AddsFirst(w.mem.value, doc, tag);
      var todo := after.Keys;
      while todo != {}
        invariant todo <= after.Keys
        invariant Following(w, doc) && OnlyTag(old(xray.running), tag, xray.running)
        invariant model.phase == Editing(doc, later + Adds(tag, before, after, todo), None)
        invariant CanFinish(w.running, w.mem.value, doc) ==> xray.rejected == old(xray.rejected)
        decreases todo
      {
        var email :| email in todo;
        NextAdd(w.mem.value, doc, tag, todo, email);
        if !(email in before && before[email] == after[email]) {
          var set' := SetOne(tag, email, after[email], email in before, w, doc);
          if !set' {
            return false;
          }
        }
        todo := todo - {email};
      }
      assert later + Adds(tag, before, after, {}) == later;
      return true;
    }

    /** The removals loop of liveApply for one inbound, in any iteration order. */
    method RemoveStale(tag: string, before: Users, after: Users, ghost w: State, ghost doc: Doc) returns (ok: bool)
      requires Following(w, doc) && w.mem.Some? && (tag == TAG_TLS || tag == TAG_REALITY)
      requires before == SetFor(Load(w.mem.value).clients, tag) && after == SetFor(Load(doc).clients, tag)
      requires model.phase == Editing(doc, From(w.mem.value, doc, TagRank(tag) + 1), None)
      modifies xray, this`model
      ensures Following(w, doc) && OnlyTag(old(xray.running), tag, xray.running)
      ensures model.phase ==
        if ok then Editing(doc, From(w.mem.value, doc, TagRank(tag) + 2), None) else Restarting(doc)
      ensures CanFinish(w.running, w.mem.value, doc) ==> xray.rejected == old(xray.rejected)
    {
      ghost var later := From(w.mem.value, doc, TagRank(tag) + 2);
      RemovalsNext(w.mem.value, doc, tag);
      var stale := before.Keys;
      while stale != {}
        invariant stale <= before.Keys
        invariant Following(w, doc) && OnlyTag(old(xray.running), tag, xray.running)
        invariant model.phase == Editing(doc, later + Removals(tag, after, stale), None)
        invariant CanFinish(w.running, w.mem.value, doc) ==> xray.rejected == old(xray.rejected)
        decreases stale
      {
        var email :| email in stale;
        NextRemoval(w.mem.value, doc, tag, stale, email);
        if email !in after {
          var removed := RemoveOne(tag, email, w, doc);
          if !removed {
            return false;
          }
        }
        stale := stale - {email};
      }
      assert later + Removals(tag, after, {}) == later;
      return true;
    }

    /** liveApply for one inbound. */
    method ApplyTag(tag: string, before: Users, after: Users, ghost w: State, ghost doc: Doc) returns (ok: bool)
      requires Following(w, doc) && w.mem.Some? && (tag == TAG_TLS || tag == TAG_REALITY)
      requires before == SetFor(Load(w.mem.value).clients, tag) && after == SetFor(Load(doc).clients, tag)
      requires model.phase == Editing(doc, From(w.mem.value, doc, TagRank(tag)), None)
      modifies xray, this`model
      ensures Following(w, doc) && OnlyTag(old(xray.running), tag, xray.running)
      ensures model.phase ==
        if ok then Editing(doc, From(w.mem.value, doc, TagRank(tag) + 2), None) else Restarting(doc)
      ensures CanFinish(w.running, w.mem.value, doc) ==> xray.rejected == old(xray.rejected)
    {
      ok := AddChanged(tag, before, after, w, doc);
      if ok {
        ok := RemoveStale(tag, before, after, w, doc);
      }
    }

    /** liveApply: true when every call of the delta succeeded; the baseline is then recorded. */
    method TryLive(skeleton: Doc, clients: ClientSets, ghost w: State, doc: Doc) returns (ok: bool)
      requires doc.Doc? && Running(skeleton, clients) == Load(doc)
      requires Following(w, doc) && model == w && live.Some? == w.mem.Some?
      requires w.phase == if CanLive(w, doc) then Editing(doc, Delta(w.mem.value, doc), None) else Restarting(doc)
      modifies this`live, this`disk, this`model, xray
      ensures Following(w, doc) && model.phase == if ok then Done(true) else Restarting(doc)
      ensures ok ==> w.mem.Some? && CanFinish(w.running, w.mem.value, doc) && Patched(w.running, w.mem.value, doc, xray.running)
      ensures (CanLive(w, doc) ==> CanFinish(w.running, w.mem.value, doc)) ==> xray.rejected == old(xray.rejected)
    {
      if live.None? || live.value.skeleton != skeleton {
        return false;
      }
      var reached: bool := *;
      if !reached {
        Take(w, doc, GiveUp);
        return false;
      }
      ghost var before := w.mem.value;
      var recorded := live.value.clients;
      assert Delta(before, doc) == From(before, doc, 0);
      ok := ApplyTag(TAG_TLS, SetFor(recorded, TAG_TLS), SetFor(clients, TAG_TLS), w, doc);
      if !ok {
        return;
      }
      ok := ApplyTag(TAG_REALITY, SetFor(recorded, TAG_REALITY), SetFor(clients, TAG_REALITY), w, doc);
      if !ok {
        return;
      }
      NothingAfter(before, doc);
      assert CanFinish(w.running, before, doc) && Patched(w.running, before, doc, xray.running);
      Take(w, doc, LiveDone);
      live := Some(Baseline(skeleton, clients, doc));
      disk := live;
      Take(w, doc, Record);
    }

    static lemma NothingAfter(before: Doc, doc: Doc)
      ensures From(before, doc, 4) == {}
    {
      forall u: Slot ensures u !in From(before, doc, 4) {
        DeltaTags(before, doc, u);
      }
    }

    /**
     applyConfig. It is one run of the machine, from whatever state the node was in,
     and leaves that run's outcome. Calls are rejected only if the baseline did not
     describe the users that had to be touched.
     */
    method ApplyConfig(raw: Doc, certMissing: bool) returns (ok: bool)
      requires Valid()
      modifies this, xray
      ensures Valid() && model.phase == Done(ok)
      ensures ApplyRun(old(model), Strip(raw, certMissing), model)
      ensures Outcome(old(model), Strip(raw, certMissing), model)
      ensures var doc := Strip(raw, certMissing);
        old(CanLive(model, doc) ==> CanFinish(model.running, model.mem.value, doc)) ==> xray.rejected == old(xray.rejected)
      ensures old(Agrees(model)) ==> xray.rejected == old(xray.rejected)
    {
      var doc := StripTLSIfNoCert(raw, certMissing);
      ghost var start := model;
      if doc.Malformed? {
        model := model.(phase := Done(false));
        return false;
      }
      file := Some(doc);
      model := Apply(model, Write(doc));
      ghost var w := model;
      ReachesSelf(w);
      WriteStarts(start, doc);
      AgreesFinishes(start, doc);
      var skeleton, clients, parsed := ParseClients(doc);
      if parsed {
        ok := TryLive(skeleton, clients, w, doc);
        if ok {
          assert ApplyRun(start, doc, model);
          RunOutcome(start, doc, model);
          return;
        }
      }
      ok := xray.Restart(doc);
      Take(w, doc, if ok then RestartDone else RestartFails);
      if ok && parsed {
        live := Some(Baseline(skeleton, clients, doc));
        disk := live;
        Take(w, doc, Record);
      }
      assert ApplyRun(start, doc, model);
      RunOutcome(start, doc, model);
    }

    static lemma AgreesFinishes(s: State, doc: Doc)
      ensures Agrees(s) && CanLive(s, doc) ==> CanFinish(s.running, s.mem.value, doc)
    {
      if Agrees(s) {
        AgreeingRepairs(s, doc);
      }
    }
  }

  // ------------------------------------------------- runs of pushes

  /** Consecutive states of a node under pushes that all returned nil. */
  ghost predicate Pushes(states: seq<State>, docs: seq<Doc>) {
    && |states| == |docs| + 1
    && (forall i :: 0 <= i < |docs| ==> Succeeds(states[i], docs[i], states[i + 1]))
  }

  ghost predicate Succeeds(s: State, doc: Doc, t: State) {
    doc.Doc? && ApplyRun(s, doc, t) && t.phase == Done(true)
  }

  /** Whatever was pushed before, after the last successful apply Xray runs the last config. */
  lemma {:induction false} LastPushWins(states: seq<State>, docs: seq<Doc>)
    requires Pushes(states, docs) && Agrees(states[0])
    ensures Agrees(states[|docs|])
    ensures docs != [] ==> states[|docs|].running == Load(docs[|docs| - 1]) && states[|docs|].file == Some(docs[|docs| - 1])
    decreases |docs|
  {
    if docs == [] {
    } else {
      var n := |docs| - 1;
      LastPushWins(states[..n + 1], docs[..n]);
      assert Succeeds(states[n], docs[n], states[n + 1]);
      AgreeingRepairs(states[n], docs[n]);
      RepairsExactly(states[n], docs[n]);
      RunOutcome(states[n], docs[n], states[n + 1]);
    }
  }
}
