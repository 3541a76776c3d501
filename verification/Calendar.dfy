/**
 Calendar arithmetic of Go's time package, as far as the monthly reset uses it:
 proleptic Gregorian dates in UTC, day numbers counted from 0001-01-01.
 */
module Calendar {
  datatype Date = Date(year: int, month: int, day: int)

  predicate IsLeap(y: int) {
    y % 4 == 0 && (y % 100 != 0 || y % 400 == 0)
  }

  function YearLength(y: int): int {
    if IsLeap(y) then 366 else 365
  }

  function MonthLength(leap: bool, m: int): int {
    if m == 2 then (if leap then 29 else 28)
    else if m == 4 || m == 6 || m == 9 || m == 11 then 30
    else 31
  }

  function DaysInMonth(y: int, m: int): int {
    MonthLength(IsLeap(y), m)
  }

  /** The lengths of the months, as every calendar lists them, and the leap years of one 400-year cycle. */
  lemma MonthLengths(y: int, m: int)
    requires 1 <= m <= 12
    ensures DaysInMonth(y, m) == [31, if IsLeap(y) then 29 else 28, 31, 30, 31, 30, 31, 31, 30, 31, 30, 31][m - 1]
    ensures IsLeap(2000) && !IsLeap(1900) && IsLeap(2024) && !IsLeap(2023)
  {
  }

  predicate ValidDate(date: Date) {
    1 <= date.month <= 12 && 1 <= date.day <= DaysInMonth(date.year, date.month)
  }

  /** Days before January 1st of year y. */
  function DaysBeforeYear(y: int): int {
    var k := y - 1;
    365 * k + k / 4 - k / 100 + k / 400
  }

  /** Days of the year before the month, for a common year. */
  function CommonDaysBefore(m: int): int {
    if m <= 1 then 0 else if m == 2 then 31 else if m == 3 then 59 else if m == 4 then 90
    else if m == 5 then 120 else if m == 6 then 151 else if m == 7 then 181 else if m == 8 then 212
    else if m == 9 then 243 else if m == 10 then 273 else if m == 11 then 304 else if m == 12 then 334
    else 365
  }

  function DaysBeforeMonth(leap: bool, m: int): int {
    CommonDaysBefore(m) + (if m > 2 && leap then 1 else 0)
  }

  /** time.Date at midnight, as a day number: months past December carry into the year. */
  function DayNumber(y: int, m: int, d: int): int {
    var year := y + (m - 1) / 12;
    var month := (m - 1) % 12 + 1;
    DaysBeforeYear(year) + DaysBeforeMonth(IsLeap(year), month) + d - 1
  }

  /** The year of a day number and the day within it, by cycles of 400, 100, 4 and 1 years. */
  function YearAndDay(n: int): (int, int) {
    var n400 := n / 146097;
    var d1 := n % 146097;
    var n100 := if d1 / 36524 == 4 then 3 else d1 / 36524;
    var d2 := d1 - 36524 * n100;
    var n4 := d2 / 1461;
    var d3 := d2 % 1461;
    var n1 := if d3 / 365 == 4 then 3 else d3 / 365;
    (400 * n400 + 100 * n100 + 4 * n4 + n1 + 1, d3 - 365 * n1)
  }

  function MonthAt(leap: bool, yday: int): int {
    var extra := if leap then 1 else 0;
    if yday < 31 then 1 else if yday < 59 + extra then 2 else if yday < 90 + extra then 3
    else if yday < 120 + extra then 4 else if yday < 151 + extra then 5 else if yday < 181 + extra then 6
    else if yday < 212 + extra then 7 else if yday < 243 + extra then 8 else if yday < 273 + extra then 9
    else if yday < 304 + extra then 10 else if yday < 334 + extra then 11 else 12
  }

  /** Time.Date of a day number. */
  function CivilOf(n: int): Date {
    var (y, yday) := YearAndDay(n);
    var m := MonthAt(IsLeap(y), yday);
    Date(y, m, yday - DaysBeforeMonth(IsLeap(y), m) + 1)
  }

  lemma Quotients(k: int, a: int, b: int, c: int, e: int)
    requires k == 400 * a + 100 * b + 4 * c + e
    requires 0 <= b < 4 && 0 <= c < 25 && 0 <= e < 4
    ensures k / 400 == a && k / 100 == 4 * a + b && k / 4 == 100 * a + 25 * b + c
  {
  }

  lemma LeapPosition(y: int, a: int, b: int, c: int, e: int)
    requires y - 1 == 400 * a + 100 * b + 4 * c + e
    requires 0 <= b < 4 && 0 <= c < 25 && 0 <= e < 4
    ensures IsLeap(y) <==> e == 3 && (c != 24 || b == 3)
  {
    Divides(y, 4, 100 * a + 25 * b + c, e + 1);
    Divides(y, 100, 4 * a + b, 4 * c + e + 1);
    Divides(y, 400, a, 100 * b + 4 * c + e + 1);
  }

  lemma Divides(y: int, m: int, q: int, r: int)
    requires m > 0 && y == m * q + r && 0 < r <= m
    ensures y % m == 0 <==> r == m
  {
    var j := y / m - q;
    assert y == m * (y / m) + y % m;
    assert m * j + y % m == r;
    Multiples(m, j);
  }

  lemma QuotientRemainder(n: int, m: int, q: int, r: int)
    requires m > 0 && n == m * q + r && 0 <= r < m
    ensures n / m == q && n % m == r
  {
    var j := n / m - q;
    assert n == m * (n / m) + n % m;
    assert m * j + n % m == r;
    Multiples(m, j);
    Multiples(m, -j);
  }

  lemma Multiples(m: int, j: int)
    requires m > 0
    ensures j <= 0 ==> m * j <= 0
    ensures j == 1 ==> m * j == m && m * -j == -m
    ensures j >= 2 ==> m * j >= 2 * m
  {
  }

  /** Position of a year in its 400-year cycle: centuries, four-year groups, single years. */
  lemma CycleParts(y: int) returns (a: int, b: int, c: int, e: int)
    ensures y - 1 == 400 * a + 100 * b + 4 * c + e
    ensures 0 <= b < 4 && 0 <= c < 25 && 0 <= e < 4
    ensures DaysBeforeYear(y) == 146097 * a + 36524 * b + 1461 * c + 365 * e
    ensures IsLeap(y) <==> e == 3 && (c != 24 || b == 3)
  {
    var k := y - 1;
    a := k / 400;
    var r := k - 400 * a;
    b := r / 100;
    var q := r - 100 * b;
    c := q / 4;
    e := q - 4 * c;
    Quotients(k, a, b, c, e);
    LeapPosition(y, a, b, c, e);
  }

  lemma PositionInverse(a: int, b: int, c: int, e: int, yday: int)
    requires 0 <= b < 4 && 0 <= c < 25 && 0 <= e < 4
    requires 0 <= yday < if e == 3 && (c != 24 || b == 3) then 366 else 365
    ensures YearAndDay(146097 * a + 36524 * b + 1461 * c + 365 * e + yday) ==
      (400 * a + 100 * b + 4 * c + e + 1, yday)
  {
    var d1 := 36524 * b + 1461 * c + 365 * e + yday;
    QuotientRemainder(146097 * a + d1, 146097, a, d1);
    var d2 := 1461 * c + 365 * e + yday;
    if b == 3 {
      assert 3 <= d1 / 36524 <= 4;
    } else {
      QuotientRemainder(d1, 36524, b, d2);
    }
    var d3 := 365 * e + yday;
    QuotientRemainder(d2, 1461, c, d3);
    if e == 3 {
      assert 3 <= d3 / 365 <= 4;
    } else {
      QuotientRemainder(d3, 365, e, yday);
    }
  }

  lemma YearAndDayInverse(y: int, yday: int)
    requires 0 <= yday < YearLength(y)
    ensures YearAndDay(DaysBeforeYear(y) + yday) == (y, yday)
  {
    var a, b, c, e := CycleParts(y);
    PositionInverse(a, b, c, e, yday);
  }

  /** The month of a day of the year, in a common or leap year. */
  lemma MonthAtInverse(leap: bool, m: int, d: int)
    requires 1 <= m <= 12 && 1 <= d <= MonthLength(leap, m)
    ensures var yday := DaysBeforeMonth(leap, m) + d - 1;
      0 <= yday < (if leap then 366 else 365) && MonthAt(leap, yday) == m
  {
  }

  lemma MonthAtSound(leap: bool, yday: int)
    requires 0 <= yday < (if leap then 366 else 365)
    ensures var m := MonthAt(leap, yday);
      1 <= m <= 12 && 1 <= yday - DaysBeforeMonth(leap, m) + 1 <= MonthLength(leap, m)
  {
  }

  lemma PlainDayNumber(y: int, m: int, d: int)
    requires 1 <= m <= 12
    ensures DayNumber(y, m, d) == DaysBeforeYear(y) + (DaysBeforeMonth(IsLeap(y), m) + d - 1)
  {
  }

  /** Reading back the date of a day number gives the date, for every valid date of every year. */
  lemma CivilInverse(date: Date)
    requires ValidDate(date)
    ensures CivilOf(DayNumber(date.year, date.month, date.day)) == date
  {
    var leap := IsLeap(date.year);
    MonthAtInverse(leap, date.month, date.day);
    YearAndDayInverse(date.year, DaysBeforeMonth(leap, date.month) + date.day - 1);
    PlainDayNumber(date.year, date.month, date.day);
  }

  /** Every day number has a valid date, and that date has this number. */
  lemma CivilValid(n: int)
    ensures ValidDate(CivilOf(n))
    ensures var date := CivilOf(n); DayNumber(date.year, date.month, date.day) == n
  {
    var (y, yday) := YearAndDay(n);
    YearAndDaySound(n);
    MonthAtSound(IsLeap(y), yday);
    var date := CivilOf(n);
    PlainDayNumber(date.year, date.month, date.day);
  }

  /** Every day number has its position in the cycles. */
  lemma Position(n: int) returns (a: int, b: int, c: int, e: int, yday: int)
    ensures 0 <= b < 4 && 0 <= c < 25 && 0 <= e < 4
    ensures 0 <= yday < if e == 3 && (c != 24 || b == 3) then 366 else 365
    ensures n == 146097 * a + 36524 * b + 1461 * c + 365 * e + yday
    ensures YearAndDay(n) == (400 * a + 100 * b + 4 * c + e + 1, yday)
  {
    a := n / 146097;
    var d1 := n % 146097;
    b := if d1 / 36524 == 4 then 3 else d1 / 36524;
    var d2 := d1 - 36524 * b;
    c := d2 / 1461;
    var d3 := d2 % 1461;
    e := if d3 / 365 == 4 then 3 else d3 / 365;
    assert 0 <= b < 4 && 0 <= d2 <= 36524 && (d2 == 36524 ==> b == 3);
    assert 0 <= c < 25 && 0 <= e < 4;
    yday := d3 - 365 * e;
    assert yday <= 365 && (yday == 365 ==> e == 3);
    assert c == 24 && b != 3 ==> d3 < 1460;
  }

  /** Positions determine the year. */
  lemma SamePosition(y: int, a: int, b: int, c: int, e: int)
    requires y - 1 == 400 * a + 100 * b + 4 * c + e
    requires 0 <= b < 4 && 0 <= c < 25 && 0 <= e < 4
    ensures DaysBeforeYear(y) == 146097 * a + 36524 * b + 1461 * c + 365 * e
    ensures IsLeap(y) <==> e == 3 && (c != 24 || b == 3)
  {
    Quotients(y - 1, a, b, c, e);
    LeapPosition(y, a, b, c, e);
  }

  lemma YearAndDaySound(n: int)
    ensures var (y, yday) := YearAndDay(n);
      0 <= yday < YearLength(y) && DaysBeforeYear(y) + yday == n
  {
    var a, b, c, e, yday := Position(n);
    SamePosition(400 * a + 100 * b + 4 * c + e + 1, a, b, c, e);
  }

  // ------------------------------------------------- months in a row

  /** First day of a month, and of the month after it. */
  function MonthStart(y: int, m: int): int {
    DayNumber(y, m, 1)
  }

  function NextStart(y: int, m: int): int {
    DayNumber(y, m + 1, 1)
  }

  /** The months of all years, numbered in a row. */
  function MonthIndex(date: Date): int {
    12 * date.year + date.month - 1
  }

  lemma YearStep(y: int)
    ensures DaysBeforeYear(y + 1) == DaysBeforeYear(y) + YearLength(y)
  {
    var a, b, c, e := CycleParts(y);
    var a', b', c', e' := CycleParts(y + 1);
    if e < 3 {
      assert a' == a && b' == b && c' == c && e' == e + 1;
    } else if c < 24 {
      assert a' == a && b' == b && c' == c + 1 && e' == 0;
    } else if b < 3 {
      assert a' == a && b' == b + 1 && c' == 0 && e' == 0;
    } else {
      assert a' == a + 1 && b' == 0 && c' == 0 && e' == 0;
    }
  }

  /** A month is followed right after its last day by the next, across year ends as well. */
  lemma NextMonth(y: int, m: int)
    requires 1 <= m <= 12
    ensures NextStart(y, m) == MonthStart(y, m) + DaysInMonth(y, m)
  {
    var leap := IsLeap(y);
    MonthFollows(leap, m);
    PlainDayNumber(y, m, 1);
    if m < 12 {
      PlainDayNumber(y, m + 1, 1);
      assert NextStart(y, m) == DaysBeforeYear(y) + DaysBeforeMonth(leap, m + 1);
    } else {
      YearStep(y);
      December(y);
    }
  }

  lemma MonthFollows(leap: bool, m: int)
    requires 1 <= m <= 12
    ensures DaysBeforeMonth(leap, m) + MonthLength(leap, m) ==
      if m < 12 then DaysBeforeMonth(leap, m + 1) else if leap then 366 else 365
  {
  }

  lemma December(y: int)
    ensures NextStart(y, 12) == DaysBeforeYear(y + 1)
  {
  }

  /** A day lies in its month. */
  lemma InItsMonth(n: int)
    ensures var date := CivilOf(n); MonthStart(date.year, date.month) <= n < NextStart(date.year, date.month)
  {
    var date := CivilOf(n);
    CivilValid(n);
    NextMonth(date.year, date.month);
    PlainDayNumber(date.year, date.month, date.day);
    PlainDayNumber(date.year, date.month, 1);
  }

  lemma {:induction false} YearsOrdered(y: int, z: int)
    requires y <= z
    ensures DaysBeforeYear(y) + 365 * (z - y) <= DaysBeforeYear(z)
    decreases z - y
  {
    if y < z {
      YearsOrdered(y, z - 1);
      YearStep(z - 1);
    }
  }

  /** An earlier date has a smaller day number. */
  lemma DatesOrdered(a: Date, b: Date)
    requires ValidDate(a) && ValidDate(b) && MonthIndex(a) < MonthIndex(b)
    ensures DayNumber(a.year, a.month, a.day) < MonthStart(b.year, b.month)
  {
    PlainDayNumber(a.year, a.month, a.day);
    PlainDayNumber(b.year, b.month, 1);
    MonthAtInverse(IsLeap(a.year), a.month, a.day);
    if a.year == b.year {
      MonthsOfYearOrdered(IsLeap(a.year), a.month, b.month);
    } else {
      assert a.year < b.year;
      YearStep(a.year);
      YearsOrdered(a.year + 1, b.year);
    }
  }

  lemma MonthsOfYearOrdered(leap: bool, m: int, k: int)
    requires 1 <= m < k <= 12
    ensures DaysBeforeMonth(leap, m) + MonthLength(leap, m) <= DaysBeforeMonth(leap, k)
  {
  }

  /** Later days are in the same or a later month. */
  lemma MonthIndexMonotone(n: int, m: int)
    requires n <= m
    ensures MonthIndex(CivilOf(n)) <= MonthIndex(CivilOf(m))
  {
    var a, b := CivilOf(m), CivilOf(n);
    CivilValid(n);
    CivilValid(m);
    if MonthIndex(a) < MonthIndex(b) {
      DatesOrdered(a, b);
      InItsMonth(n);
    }
  }
}
