/**
 The login limiter (internal/panel/auth.go limiter): a fixed-window failure
 counter with lazy deletion and an opportunistic sweep, against a specification
 over the history of calls that keeps no entries at all.
 */
module Limiter {
  import opened Wrappers

  datatype Entry = Entry(count: int, reset: int)

  type Entries = map<string, Entry>

  /** The sweep runs when there are more entries than this. */
  const SWEEP_ABOVE := 4096

  /** now.After(e.reset). */
  predicate Expired(e: Entry, now: int) {
    now > e.reset
  }

  function Sweep(entries: Entries, now: int): Entries {
    map k | k in entries && !Expired(entries[k], now) :: entries[k]
  }

  function Counted(entries: Entries, key: string, now: int, window: int): Entries {
    var e := if key !in entries || Expired(entries[key], now) then Entry(0, now + window) else entries[key];
    entries[key := e.(count := e.count + 1)]
  }

  function Fail(entries: Entries, key: string, now: int, window: int): Entries {
    var after := Counted(entries, key, now, window);
    if |after| > SWEEP_ABOVE then Sweep(after, now) else after
  }

  predicate Blocked(entries: Entries, key: string, now: int, max: int) {
    key in entries && !Expired(entries[key], now) && entries[key].count >= max
  }

  function AfterAsking(entries: Entries, key: string, now: int): Entries {
    if key in entries && Expired(entries[key], now) then entries - {key} else entries
  }

  class LoginLimiter {
    var entries: Entries
    const max: int
    const window: int

    constructor (max: int, window: int)
      ensures entries == map[] && this.max == max && this.window == window
    {
      this.max, this.window := max, window;
      entries := map[];
    }

    method IsBlocked(key: string, now: int) returns (b: bool)
      modifies this
      ensures b == Blocked(old(entries), key, now, max)
      ensures entries == AfterAsking(old(entries), key, now)
    {
      if key !in entries {
        return false;
      }
      var e := entries[key];
      if now > e.reset {
        entries := entries - {key};
        return false;
      }
      return e.count >= max;
    }

    method RecordFailure(key: string, now: int)
      modifies this
      ensures entries == Fail(old(entries), key, now, window)
    {
      var e := if key in entries then entries[key] else Entry(0, now + window);
      if key in entries && now > e.reset {
        e := Entry(0, now + window);
      }
      e := e.(count := e.count + 1);
      entries := entries[key := e];
      if |entries| > SWEEP_ABOVE {
        ghost var full := entries;
        var todo := entries.Keys;
        while todo != {}
          invariant entries.Keys <= full.Keys && todo <= full.Keys
          invariant forall k :: k in entries ==> entries[k] == full[k]
          invariant forall k :: k in full && k !in todo ==> (k in entries <==> !Expired(full[k], now))
          invariant forall k :: k in todo ==> k in entries
          decreases todo
        {
          var k :| k in todo;
          if now > entries[k].reset {
            entries := entries - {k};
          }
          todo := todo - {k};
        }
        assert entries == Sweep(full, now);
      }
    }

    method Clear(key: string)
      modifies this
      ensures entries == old(entries) - {key}
    {
      entries := entries - {key};
    }
  }

  // ------------------------------------------------- specification

  datatype Op = Failed(key: string) | Cleared(key: string) | Asked(key: string)

  datatype Call = Call(op: Op, at: int)

  /** The failure that opened the window now counting: the first since the last reset or expiry. */
  function Opening(calls: seq<Call>, key: string, window: int): (o: Option<nat>)
    ensures o.Some? ==> o.value < |calls| && calls[o.value].op == Failed(key)
  {
    if calls == [] then None
    else
      var n := |calls| - 1;
      var before := Opening(calls[..n], key, window);
      match calls[n].op
      case Failed(k) =>
        if k == key && (before.None? || calls[n].at > calls[before.value].at + window) then Some(n) else before
      case Cleared(k) => if k == key then None else before
      case Asked(_) => before
  }

  /** Failures of the key from one call on. */
  function Failures(calls: seq<Call>, key: string, from: nat): nat {
    if |calls| <= from then 0
    else
      var n := |calls| - 1;
      Failures(calls[..n], key, from) + (if calls[n].op == Failed(key) then 1 else 0)
  }

  /** Failures is the number of the key's failures from that call on. */
  lemma {:induction false} FailuresAreCalls(calls: seq<Call>, key: string, from: nat)
    ensures Failures(calls, key, from) == |set i | from <= i < |calls| && calls[i].op == Failed(key)|
  {
    var all := set i | from <= i < |calls| && calls[i].op == Failed(key);
    if |calls| <= from {
      assert all == {};
    } else {
      var n := |calls| - 1;
      var init := set i | from <= i < n && calls[..n][i].op == Failed(key);
      FailuresAreCalls(calls[..n], key, from);
      assert forall i :: 0 <= i < n ==> calls[..n][i] == calls[i];
      if calls[n].op == Failed(key) {
        assert all == init + {n};
      } else {
        assert all == init;
      }
    }
  }

  /** The window is still open and holds at least max failures. */
  predicate ShouldBlock(calls: seq<Call>, key: string, now: int, max: int, window: int) {
    var o := Opening(calls, key, window);
    o.Some? && now <= calls[o.value].at + window && Failures(calls, key, o.value) >= max
  }

  /** What the limiter holds after a history of calls. */
  function Exec(calls: seq<Call>, window: int): Entries {
    if calls == [] then map[]
    else
      var n := |calls| - 1;
      var entries := Exec(calls[..n], window);
      match calls[n].op
      case Failed(k) => Fail(entries, k, calls[n].at, window)
      case Cleared(k) => entries - {k}
      case Asked(k) => AfterAsking(entries, k, calls[n].at)
  }

  ghost predicate NonDecreasing(calls: seq<Call>) {
    forall i, j :: 0 <= i < j < |calls| ==> calls[i].at <= calls[j].at
  }

  /** An entry holds the current window's end and count; a missing one means no window is open any more. */
  ghost predicate Represents(entries: Entries, calls: seq<Call>, key: string, window: int, now: int) {
    var o := Opening(calls, key, window);
    if key in entries then
      && o.Some?
      && entries[key] == Entry(Failures(calls, key, o.value), calls[o.value].at + window)
    else o.None? || now > calls[o.value].at + window
  }

  /** Appending a call changes a key's window and count only as the call's own kind says. */
  lemma OpeningStep(calls: seq<Call>, key: string, window: int)
    requires calls != []
    ensures var n := |calls| - 1;
      var o := Opening(calls[..n], key, window);
      && (o.Some? ==> calls[..n][o.value] == calls[o.value])
      && (o.Some? ==> Failures(calls, key, o.value) ==
                      Failures(calls[..n], key, o.value) + (if calls[n].op == Failed(key) then 1 else 0))
      && Failures(calls, key, n) == (if calls[n].op == Failed(key) then 1 else 0)
  {
  }

  /** A failure of the key itself. */
  lemma FailureStep(calls: seq<Call>, key: string, window: int)
    requires calls != [] && window >= 0 && calls[|calls| - 1].op == Failed(key)
    requires Represents(Exec(calls[..|calls| - 1], window), calls[..|calls| - 1], key, window, calls[|calls| - 1].at)
    ensures Represents(Exec(calls, window), calls, key, window, calls[|calls| - 1].at)
  {
  }

  /** A call about another key, or a reset or question about this one. */
  lemma OtherStep(calls: seq<Call>, key: string, window: int)
    requires calls != [] && calls[|calls| - 1].op != Failed(key)
    requires Represents(Exec(calls[..|calls| - 1], window), calls[..|calls| - 1], key, window, calls[|calls| - 1].at)
    ensures Represents(Exec(calls, window), calls, key, window, calls[|calls| - 1].at)
  {
    OpeningStep(calls, key, window);
  }

  lemma {:induction false} LimiterRepresents(calls: seq<Call>, key: string, window: int, now: int)
    requires NonDecreasing(calls) && window >= 0
    requires calls != [] ==> calls[|calls| - 1].at <= now
    ensures Represents(Exec(calls, window), calls, key, window, now)
  {
    if calls == [] {
    } else {
      var n := |calls| - 1;
      assert n > 0 ==> calls[n - 1].at <= calls[n].at;
      LimiterRepresents(calls[..n], key, window, calls[n].at);
      if calls[n].op == Failed(key) {
        FailureStep(calls, key, window);
      } else {
        OtherStep(calls, key, window);
      }
    }
  }

  /**
   Refinement: after every history of calls with a non-decreasing clock, the
   limiter answers exactly as the specification. Lazy deletion and the sweep are
   unobservable.
   */
  lemma LimiterRefines(calls: seq<Call>, key: string, now: int, max: int, window: int)
    requires NonDecreasing(calls) && window >= 0
    requires calls != [] ==> calls[|calls| - 1].at <= now
    ensures Blocked(Exec(calls, window), key, now, max) <==> ShouldBlock(calls, key, now, max, window)
  {
    LimiterRepresents(calls, key, window, now);
  }
}
