/**
 The monthly quota reset (internal/panel/traffic.go monthlyResetDue and
 autoResetLoop), over Unix seconds in UTC.
 */
module MonthlyReset {
  import opened Calendar

  const DAY_SECONDS := 86400

  /** Day number of the Unix epoch (see UnixEpoch). */
  const EPOCH := 719162

  function DateOf(t: int): Date {
    CivilOf(EPOCH + t / DAY_SECONDS)
  }

  /** Seconds are counted from the first of January 1970. */
  lemma UnixEpoch()
    ensures DateOf(0) == Date(1970, 1, 1) && DateOf(-1) == Date(1969, 12, 31)
  {
    assert DayNumber(1970, 1, 1) == EPOCH && DayNumber(1969, 12, 31) == EPOCH - 1;
    CivilInverse(Date(1970, 1, 1));
    CivilInverse(Date(1969, 12, 31));
  }

  function Midnight(dayNumber: int): int {
    (dayNumber - EPOCH) * DAY_SECONDS
  }

  /** The month of an instant, numbered in a row over the years. */
  function MonthOf(t: int): int {
    MonthIndex(DateOf(t))
  }

  /** The day before the first of the next month, as the code computes a month's length. */
  function ComputedDaysInMonth(y: int, m: int): int {
    CivilOf(DayNumber(y, m + 1, 1) - 1).day
  }

  /** The reset instant of the month of now: midnight of the reset day, clamped to the month. */
  function ResetInstant(now: int, resetDay: int): int {
    var date := DateOf(now);
    var length := ComputedDaysInMonth(date.year, date.month);
    Midnight(DayNumber(date.year, date.month, if resetDay > length then length else resetDay))
  }

  predicate MonthlyResetDue(now: int, resetDay: int, lastReset: int) {
    resetDay >= 1 && !(now < ResetInstant(now, resetDay) || lastReset >= ResetInstant(now, resetDay))
  }

  /** The computed length is the length of the month, in every year, February and December included. */
  lemma ComputedLength(y: int, m: int)
    requires 1 <= m <= 12
    ensures ComputedDaysInMonth(y, m) == DaysInMonth(y, m)
  {
    NextMonth(y, m);
    PlainDayNumber(y, m, 1);
    PlainDayNumber(y, m, DaysInMonth(y, m));
    CivilInverse(Date(y, m, DaysInMonth(y, m)));
  }

  lemma MidnightDate(n: int)
    ensures DateOf(Midnight(n)) == CivilOf(n)
  {
    assert Midnight(n) / DAY_SECONDS == n - EPOCH;
  }

  /** The reset instant depends only on the month and lies in it, on the clamped day. */
  lemma InstantOfMonth(now: int, resetDay: int)
    requires resetDay >= 1
    ensures var date := DateOf(now);
      && ResetInstant(now, resetDay) ==
           Midnight(DayNumber(date.year, date.month,
                              if resetDay > DaysInMonth(date.year, date.month) then DaysInMonth(date.year, date.month) else resetDay))
      && MonthOf(ResetInstant(now, resetDay)) == MonthOf(now)
  {
    var date := DateOf(now);
    CivilValid(EPOCH + now / DAY_SECONDS);
    ComputedLength(date.year, date.month);
    var day := if resetDay > DaysInMonth(date.year, date.month) then DaysInMonth(date.year, date.month) else resetDay;
    CivilInverse(Date(date.year, date.month, day));
    MidnightDate(DayNumber(date.year, date.month, day));
  }

  lemma MonthOfMonotone(s: int, t: int)
    requires s <= t
    ensures MonthOf(s) <= MonthOf(t)
  {
    assert s / DAY_SECONDS <= t / DAY_SECONDS;
    MonthIndexMonotone(EPOCH + s / DAY_SECONDS, EPOCH + t / DAY_SECONDS);
  }

  lemma SameIndex(a: Date, b: Date)
    requires 1 <= a.month <= 12 && 1 <= b.month <= 12 && MonthIndex(a) == MonthIndex(b)
    ensures a.year == b.year && a.month == b.month
  {
  }

  lemma SameMonthSameInstant(s: int, t: int, resetDay: int)
    requires MonthOf(s) == MonthOf(t)
    ensures ResetInstant(s, resetDay) == ResetInstant(t, resetDay)
  {
    CivilValid(EPOCH + s / DAY_SECONDS);
    CivilValid(EPOCH + t / DAY_SECONDS);
    SameIndex(DateOf(s), DateOf(t));
  }

  /**
   When a check is due, in terms of the calendar: resets are switched on, midnight
   of the reset day (of the month's last day, if the month is shorter) has passed,
   and the last reset was before it.
   */
  lemma DueExactly(now: int, resetDay: int, last: int)
    ensures MonthlyResetDue(now, resetDay, last) <==>
      && resetDay >= 1
      && var date := DateOf(now);
         var length := DaysInMonth(date.year, date.month);
         var instant := Midnight(DayNumber(date.year, date.month, if resetDay <= length then resetDay else length));
         last < instant <= now
  {
    if resetDay >= 1 {
      InstantOfMonth(now, resetDay);
    }
  }

  // ------------------------------------------------- a run of checks

  ghost predicate NonDecreasing(times: seq<int>) {
    forall i, j :: 0 <= i < j < |times| ==> times[i] <= times[j]
  }

  /** Whether a check at a time is due, given last_reset. */
  type Rule = (int, int) -> bool

  function DueOn(resetDay: int): Rule {
    (now: int, last: int) => MonthlyResetDue(now, resetDay, last)
  }

  /** last_reset after the checks at these times: a due check resets and records its time. */
  function LastReset(times: seq<int>, due: Rule, last: int): int {
    if times == [] then last
    else
      var n := |times| - 1;
      var before := LastReset(times[..n], due, last);
      if due(times[n], before) then times[n] else before
  }

  predicate ResetAt(times: seq<int>, due: Rule, last: int, i: nat)
    requires i < |times|
  {
    due(times[i], LastReset(times[..i], due, last))
  }

  /** A rule that never fires at or before the recorded reset. */
  ghost predicate MovesForward(due: Rule) {
    forall now: int, last: int :: due(now, last) ==> last < now
  }

  lemma DueMovesForward(resetDay: int)
    ensures MovesForward(DueOn(resetDay))
  {
  }

  /** last_reset is the initial value or the time of an earlier reset, and never moves back. */
  lemma {:induction false} LastResetOrigin(times: seq<int>, due: Rule, last: int)
    requires MovesForward(due)
    ensures last <= LastReset(times, due, last)
    ensures LastReset(times, due, last) == last ||
      exists i :: 0 <= i < |times| && times[i] == LastReset(times, due, last) && ResetAt(times, due, last, i)
  {
    if times == [] {
    } else {
      var n := |times| - 1;
      LastResetOrigin(times[..n], due, last);
      if ResetAt(times, due, last, n) {
        assert times[n] == LastReset(times, due, last);
      } else if LastReset(times, due, last) != last {
        var i :| 0 <= i < n && times[..n][i] == LastReset(times, due, last) && ResetAt(times[..n], due, last, i);
        assert times[..n][..i] == times[..i];
        assert ResetAt(times, due, last, i) && times[i] == LastReset(times, due, last);
      }
    }
  }

  /** Once a check has reset, last_reset is at least its time. */
  lemma {:induction false} ResetRecorded(times: seq<int>, due: Rule, last: int, i: nat)
    requires NonDecreasing(times) && i < |times| && ResetAt(times, due, last, i)
    ensures times[i] <= LastReset(times, due, last)
  {
    var n := |times| - 1;
    if i < n {
      assert times[..n][..i] == times[..i] && times[i] <= times[n];
      ResetRecorded(times[..n], due, last, i);
    }
  }

  /** A reset day below one switches resets off: no check at any time resets. */
  lemma DisabledNeverResets(times: seq<int>, resetDay: int, last: int, i: nat)
    requires resetDay < 1 && i < |times|
    ensures !ResetAt(times, DueOn(resetDay), last, i)
  {
    DueExactly(times[i], resetDay, LastReset(times[..i], DueOn(resetDay), last));
  }

  /** At most once per calendar month. */
  lemma AtMostOncePerMonth(times: seq<int>, resetDay: int, last: int, i: nat, j: nat)
    requires NonDecreasing(times) && i < j < |times|
    requires ResetAt(times, DueOn(resetDay), last, i) && MonthOf(times[i]) == MonthOf(times[j])
    ensures !ResetAt(times, DueOn(resetDay), last, j)
  {
    assert times[..j][..i] == times[..i];
    ResetRecorded(times[..j], DueOn(resetDay), last, i);
    SameMonthSameInstant(times[i], times[j], resetDay);
  }

  /**
   Exactly when it should: a month sees a reset if and only if some check falls
   in it at or after its reset instant, and that instant is not already covered by
   the initial last_reset.
   */
  lemma ResetExactly(times: seq<int>, resetDay: int, last: int, k: nat)
    requires NonDecreasing(times) && resetDay >= 1 && k < |times|
    ensures var instant := ResetInstant(times[k], resetDay);
      (exists i :: 0 <= i < |times| && MonthOf(times[i]) == MonthOf(times[k]) && ResetAt(times, DueOn(resetDay), last, i)) <==>
      (exists i :: 0 <= i < |times| && MonthOf(times[i]) == MonthOf(times[k]) && instant <= times[i]) && last < instant
  {
    var month := MonthOf(times[k]);
    var instant := ResetInstant(times[k], resetDay);
    if i :| 0 <= i < |times| && MonthOf(times[i]) == month && ResetAt(times, DueOn(resetDay), last, i) {
      SameMonthSameInstant(times[i], times[k], resetDay);
      DueMovesForward(resetDay);
      LastResetOrigin(times[..i], DueOn(resetDay), last);
      assert instant <= times[i];
    }
    if last < instant {
      if i :| 0 <= i < |times| && MonthOf(times[i]) == month && instant <= times[i] {
        var first := FirstDue(times, month, instant, i);
        FirstDueResets(times, resetDay, last, k, first);
      }
    }
  }

  lemma FirstDue(times: seq<int>, month: int, instant: int, i: nat) returns (first: nat)
    requires i < |times| && MonthOf(times[i]) == month && instant <= times[i]
    ensures first < |times| && MonthOf(times[first]) == month && instant <= times[first]
    ensures forall j :: 0 <= j < first ==> !(MonthOf(times[j]) == month && instant <= times[j])
  {
    first := 0;
    while !(MonthOf(times[first]) == month && instant <= times[first])
      invariant first <= i
      invariant forall j :: 0 <= j < first ==> !(MonthOf(times[j]) == month && instant <= times[j])
      decreases i - first
    {
      first := first + 1;
    }
  }

  lemma FirstDueResets(times: seq<int>, resetDay: int, last: int, k: nat, first: nat)
    requires NonDecreasing(times) && resetDay >= 1 && k < |times| && first < |times|
    requires MonthOf(times[first]) == MonthOf(times[k]) && last < ResetInstant(times[k], resetDay) <= times[first]
    requires forall j :: 0 <= j < first ==>
      !(MonthOf(times[j]) == MonthOf(times[k]) && ResetInstant(times[k], resetDay) <= times[j])
    ensures ResetAt(times, DueOn(resetDay), last, first)
  {
    var instant := ResetInstant(times[k], resetDay);
    SameMonthSameInstant(times[first], times[k], resetDay);
    var before := LastReset(times[..first], DueOn(resetDay), last);
    DueMovesForward(resetDay);
    LastResetOrigin(times[..first], DueOn(resetDay), last);
    if before != last {
      var j :| 0 <= j < first && times[..first][j] == before && ResetAt(times[..first], DueOn(resetDay), last, j);
      assert times[j] == before <= times[first];
      if instant <= before {
        // the earlier reset would fall between the instant and this check, hence in this month
        InstantOfMonth(times[k], resetDay);
        MonthOfMonotone(instant, before);
        MonthOfMonotone(before, times[first]);
        assert false;
      }
    }
  }

  // ------------------------------------------------- one pass over the users

  datatype Account = Account(resetDay: int, lastReset: int, dataUsed: int)

  /** check(): every due user is reset and stamped, every other user is left alone. */
  method CheckUsers(now: int, users: seq<Account>) returns (after: seq<Account>)
    ensures |after| == |users|
    ensures forall i :: 0 <= i < |users| ==>
      && after[i].resetDay == users[i].resetDay
      && after[i].lastReset == LastReset([now], DueOn(users[i].resetDay), users[i].lastReset)
      && after[i].dataUsed == if after[i].lastReset == users[i].lastReset then users[i].dataUsed else 0
    ensures forall i :: 0 <= i < |users| ==>
      after[i] == if MonthlyResetDue(now, users[i].resetDay, users[i].lastReset)
                  then Account(users[i].resetDay, now, 0) else users[i]
    ensures forall i :: 0 <= i < |users| && users[i].resetDay < 1 ==> after[i] == users[i]
  {
    after := users;
    for i := 0 to |users|
      invariant |after| == |users|
      invariant forall k :: i <= k < |users| ==> after[k] == users[k]
      invariant forall k :: 0 <= k < i ==> CheckedOnce(now, users[k], after[k])
      invariant forall k :: 0 <= k < i ==>
        after[k] == if MonthlyResetDue(now, users[k].resetDay, users[k].lastReset)
                    then Account(users[k].resetDay, now, 0) else users[k]
      invariant forall k :: 0 <= k < i && users[k].resetDay < 1 ==> after[k] == users[k]
    {
      var u := users[i];
      OneCheck(now, u.resetDay, u.lastReset);
      DueExactly(now, u.resetDay, u.lastReset);
      if MonthlyResetDue(now, u.resetDay, u.lastReset) {
        after := after[i := u.(dataUsed := 0, lastReset := now)];
      }
    }
  }

  predicate CheckedOnce(now: int, u: Account, v: Account) {
    && v.resetDay == u.resetDay
    && v.lastReset == LastReset([now], DueOn(u.resetDay), u.lastReset)
    && v.dataUsed == if v.lastReset == u.lastReset then u.dataUsed else 0
  }

  lemma OneCheck(now: int, resetDay: int, last: int)
    ensures LastReset([now], DueOn(resetDay), last) == if MonthlyResetDue(now, resetDay, last) then now else last
    ensures MonthlyResetDue(now, resetDay, last) ==> last < now
  {
  }
}
