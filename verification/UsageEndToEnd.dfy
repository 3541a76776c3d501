/**
 From the counters on a node to data_used on the panel: the usage protocol and
 the panel's tables together. Every batch the panel applies in a protocol run is
 credited to the tables as ingestTraffic does it.
 */
module UsageEndToEnd {
  import opened Traffic
  import opened TrafficProtocol
  import opened TrafficDrain
  import Store = StoreLedger

  type Names = map<string, int>   // username -> user id, for every user that is ever assigned to the node

  ghost predicate Injective(names: Names) {
    forall a, b :: a in names && b in names && names[a] == names[b] ==> a == b
  }

  /** The users assigned now, and in every reassignment of the run, have an id. */
  predicate Known(s: State, steps: seq<Step>, names: Names) {
    s.members <= names.Keys && forall i :: 0 <= i < |steps| && steps[i].Assign? ==> steps[i].users <= names.Keys
  }

  /** The tables after one protocol step: only the delivery of a batch not yet applied changes them, for the users assigned then. */
  function StepTables(t: Store.Tables, s: State, step: Step, node: int, names: Names, day: int): Store.Tables {
    if step.Deliver? && s.up != [] && !(s.up[0].sn != 0 && s.up[0].sn == s.last) then
      var members := s.members * names.Keys;
      Store.CreditedAllowed(s.up[0].items, members);
      Store.CreditAll(t, node, Credited(s.up[0].items, members), names, day)
    else t
  }

  /** The tables after a run. Each step may fall on any day. */
  function RunTables(t: Store.Tables, s: State, steps: seq<Step>, node: int, names: Names, day: int -> int): Store.Tables
    decreases |steps|
  {
    if steps == [] then t
    else RunTables(StepTables(t, s, steps[0], node, names, day(|steps|)), Apply(s, steps[0]), steps[1..], node, names, day)
  }

  ghost function Both(items: seq<Item>, name: string): int {
    Total(items, name, Up) + Total(items, name, Down)
  }

  lemma StepUsage(t: Store.Tables, s: State, step: Step, node: int, names: Names, day: int, name: string)
    requires s.members <= names.Keys && Injective(names)
    requires name in names && names[name] in t.dataUsed
    ensures var after := StepTables(t, s, step, node, names, day);
      && names[name] in after.dataUsed
      && after.dataUsed[names[name]] + Both(s.applied, name) ==
           t.dataUsed[names[name]] + Both(Apply(s, step).applied, name)
  {
    if step.Deliver? && s.up != [] && !(s.up[0].sn != 0 && s.up[0].sn == s.last) {
      assert s.members * names.Keys == s.members;
      var credits := Credited(s.up[0].items, s.members);
      Store.CreditedAllowed(s.up[0].items, s.members);
      Store.CreditedUsage(t, node, credits, names, day, name);
      TotalAppend(s.applied, credits, name, Up);
      TotalAppend(s.applied, credits, name, Down);
    }
  }

  /** Over every run, reassignments included, data_used grows by exactly what the protocol credits to the user. */
  lemma {:induction false} RunUsage(
    t: Store.Tables, s: State, steps: seq<Step>, node: int, names: Names, day: int -> int, name: string)
    requires Known(s, steps, names) && Injective(names)
    requires name in names && names[name] in t.dataUsed
    ensures var after := RunTables(t, s, steps, node, names, day);
      && names[name] in after.dataUsed
      && after.dataUsed[names[name]] + Both(s.applied, name) ==
           t.dataUsed[names[name]] + Both(Exec(s, steps).applied, name)
    decreases |steps|
  {
    if steps == [] {
    } else {
      StepUsage(t, s, steps[0], node, names, day(|steps|), name);
      KnownStep(s, steps, names);
      RunUsage(StepTables(t, s, steps[0], node, names, day(|steps|)), Apply(s, steps[0]), steps[1..], node, names, day, name);
    }
  }

  lemma KnownStep(s: State, steps: seq<Step>, names: Names)
    requires Known(s, steps, names) && steps != []
    ensures Known(Apply(s, steps[0]), steps[1..], names)
  {
  }

  /** The user is assigned now and in every reassignment of the run. */
  predicate AlwaysAssigned(s: State, steps: seq<Step>, name: string) {
    name in s.members && forall i :: 0 <= i < |steps| && steps[i].Assign? ==> name in steps[i].users
  }

  /** Bytes of a user who stays assigned are never ignored. */
  lemma {:induction false} NothingIgnored(s: State, steps: seq<Step>, name: string, d: Dir)
    requires AlwaysAssigned(s, steps, name)
    ensures Total(Exec(s, steps).discarded, name, d) == Total(s.discarded, name, d)
    decreases |steps|
  {
    if steps == [] {
    } else {
      var step := steps[0];
      if step.Deliver? && s.up != [] {
        IgnoredTotals(s.up[0].items, s.members, name, d);
        TotalAppend(s.discarded, Ignored(s.up[0].items, s.members), name, d);
      }
      assert AlwaysAssigned(Apply(s, step), steps[1..], name);
      NothingIgnored(Apply(s, step), steps[1..], name, d);
    }
  }

  /**
   The promise of the whole protocol: after every run, whatever was lost, resent,
   crashed or reassigned, every reliable run that goes on until only resends are
   possible brings the user's data_used to where it has grown by exactly the bytes
   read from the node's counters, less those an agent crash caught before they were
   saved, and less those the panel ignored because the user was not assigned when
   they arrived. Such runs are as short as TrafficDrain.Drain says, and
   TrafficDrain.QuietFollows gives one.
   */
  lemma UsageArrives(
    t: Store.Tables, members: set<string>, steps: seq<Step>, more: seq<Step>, node: int, names: Names, day: int -> int, name: string)
    requires Injective(names) && name in names && names[name] in t.dataUsed
    requires Legal(Init(members), steps) && Known(Init(members), steps, names)
    requires Legal(Exec(Init(members), steps), more) && AllReliable(more)
    requires Quiet(Exec(Exec(Init(members), steps), more))
    ensures var before, end := Exec(Init(members), steps), Exec(Exec(Init(members), steps), more);
      var tables := RunTables(t, Init(members), steps + more, node, names, day);
      && names[name] in tables.dataUsed
      && tables.dataUsed[names[name]] ==
           t.dataUsed[names[name]] + Both(before.read, name) - Both(before.lost, name) - Both(end.discarded, name)
      && (AlwaysAssigned(Init(members), steps, name) ==> Both(end.discarded, name) == 0)
  {
    var init, all := Init(members), steps + more;
    Drain(members, steps, more);
    ExecAppend(init, steps, more);
    forall i | 0 <= i < |all| ensures all[i].Assign? ==> i < |steps| && all[i] == steps[i] {
      if i >= |steps| {
        assert all[i] == more[i - |steps|] && Reliable(more[i - |steps|]);
      }
    }
    RunUsage(t, init, all, node, names, day, name);
    if AlwaysAssigned(init, steps, name) {
      NothingIgnored(init, all, name, Up);
      NothingIgnored(init, all, name, Down);
    }
  }
}
