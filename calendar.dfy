/**
  The calendar arithmetic that the app takes from Foundation (`Calendar.current`,
  `Date.toMidnight`, `Date.startOfWeek`), stated over the proleptic Gregorian calendar
  in one fixed-offset local time zone.

  A `Date` is a civil date with the second of the day.  Swift compares `Date` values
  as instants; here the instant is `Seconds(d)`, and `DayNumberOrder` proves that this
  order is the lexicographic order of (year, month, day, second).
 */
module Calendar {

  const SecondsPerDay: int := 86400
  const DaysPerWeek: int := 7
  /** Weekdays are numbered 0 (Sunday) to 6 (Saturday); the week starts on Sunday. */
  const FirstWeekday: int := 0

  datatype DateTime = DateTime(year: int, month: int, day: int, second: int)
  {
    predicate IsValid() {
      1 <= month <= 12 && 1 <= day <= DaysInMonth(year, month) && 0 <= second < SecondsPerDay
    }
  }

  /** A point in time: a valid civil date and the second within that day. */
  type Date = d: DateTime | d.IsValid() witness DateTime(1970, 1, 1, 0)

  /** The calendar units the app adds to dates (`Calendar.Component`). */
  datatype Component = Day | WeekOfYear | Month | Year

  predicate IsLeapYear(y: int) {
    y % 4 == 0 && (y % 100 != 0 || y % 400 == 0)
  }

  function DaysInMonth(y: int, m: int): (n: int)
    requires 1 <= m <= 12
    ensures 28 <= n <= 31
  {
    if m == 2 then (if IsLeapYear(y) then 29 else 28)
    else if m == 4 || m == 6 || m == 9 || m == 11 then 30
    else 31
  }

  function DaysInYear(y: int): int {
    if IsLeapYear(y) then 366 else 365
  }

  /** Days from 0001-01-01 to the first of January of year `y` (negative before year 1). */
  function DaysBeforeYear(y: int): int {
    var p := y - 1;
    365 * p + p / 4 - p / 100 + p / 400
  }

  /** Days from the first of January of year `y` to the first day of month `m`. */
  function DaysBeforeMonth(y: int, m: int): int
    requires 1 <= m <= 12
  {
    var common :=
      if m == 1 then 0 else if m == 2 then 31 else if m == 3 then 59
      else if m == 4 then 90 else if m == 5 then 120 else if m == 6 then 151
      else if m == 7 then 181 else if m == 8 then 212 else if m == 9 then 243
      else if m == 10 then 273 else if m == 11 then 304 else 334;
    common + (if m > 2 && IsLeapYear(y) then 1 else 0)
  }

  /** The day number of the first day of month `m` of year `y`. */
  function MonthStart(y: int, m: int): int
    requires 1 <= m <= 12
  {
    DaysBeforeYear(y) + DaysBeforeMonth(y, m)
  }

  /** Consecutive days since 0001-01-01, which is day 0. */
  function DayNumber(d: Date): int {
    MonthStart(d.year, d.month) + d.day - 1
  }

  /** The instant of `d`: the quantity Swift compares when it compares two dates. */
  function Seconds(d: Date): int {
    DayNumber(d) * SecondsPerDay + d.second
  }

  /** Months counted from month 1 of year 0, so that consecutive months differ by one. */
  function MonthIndex(y: int, m: int): int {
    y * 12 + m - 1
  }

  predicate LexLess(a: Date, b: Date) {
    a.year < b.year
    || (a.year == b.year && a.month < b.month)
    || (a.year == b.year && a.month == b.month && a.day < b.day)
    || (a.year == b.year && a.month == b.month && a.day == b.day && a.second < b.second)
  }

  lemma YearStep(y: int)
    ensures DaysBeforeYear(y + 1) == DaysBeforeYear(y) + DaysInYear(y)
  {
    FloorStep4(y);
    FloorStep100(y);
    FloorStep400(y);
  }

  lemma FloorStep4(y: int)
    ensures y / 4 - (y - 1) / 4 == if y % 4 == 0 then 1 else 0
  {
  }

  lemma FloorStep100(y: int)
    ensures y / 100 - (y - 1) / 100 == if y % 100 == 0 then 1 else 0
    ensures y % 100 == 0 ==> y % 4 == 0
  {
    if y % 100 == 0 {
      var q := y / 100;
      assert y == 4 * (25 * q);
    }
  }

  lemma FloorStep400(y: int)
    ensures y / 400 - (y - 1) / 400 == if y % 400 == 0 then 1 else 0
    ensures y % 400 == 0 ==> y % 100 == 0
  {
    if y % 400 == 0 {
      var q := y / 400;
      assert y == 100 * (4 * q);
    }
  }

  /** The first day of the month after (y, m) is `DaysInMonth(y, m)` days later. */
  lemma NextMonthStart(y: int, m: int)
    requires 1 <= m <= 12
    ensures m < 12 ==> MonthStart(y, m + 1) == MonthStart(y, m) + DaysInMonth(y, m)
    ensures m == 12 ==> MonthStart(y + 1, 1) == MonthStart(y, m) + DaysInMonth(y, m)
  {
    if m == 12 {
      YearStep(y);
    }
  }

  /** A month that starts later begins no earlier than the end of every earlier month. */
  lemma {:induction false} MonthStartMonotone(y1: int, m1: int, y2: int, m2: int)
    requires 1 <= m1 <= 12 && 1 <= m2 <= 12
    requires MonthIndex(y1, m1) < MonthIndex(y2, m2)
    ensures MonthStart(y1, m1) + DaysInMonth(y1, m1) <= MonthStart(y2, m2)
    decreases MonthIndex(y2, m2) - MonthIndex(y1, m1)
  {
    NextMonthStart(y1, m1);
    var ny, nm := if m1 < 12 then y1 else y1 + 1, if m1 < 12 then m1 + 1 else 1;
    assert MonthIndex(ny, nm) == MonthIndex(y1, m1) + 1;
    if MonthIndex(ny, nm) < MonthIndex(y2, m2) {
      MonthStartMonotone(ny, nm, y2, m2);
    } else {
      assert ny == y2 && nm == m2;
    }
  }

  /** Comparing instants is comparing (year, month, day, second) lexicographically. */
  lemma DayNumberOrder(a: Date, b: Date)
    ensures Seconds(a) < Seconds(b) <==> LexLess(a, b)
    ensures Seconds(a) == Seconds(b) <==> a == b
  {
    forall x: Date, z: Date | LexLess(x, z) ensures Seconds(x) < Seconds(z) {
      if MonthIndex(x.year, x.month) < MonthIndex(z.year, z.month) {
        MonthStartMonotone(x.year, x.month, z.year, z.month);
      } else {
        assert x.year == z.year && x.month == z.month;
      }
    }
    if a != b && !LexLess(a, b) {
      assert LexLess(b, a);
    }
  }

  /** The day after `d`, at the same time of day. */
  function NextDay(d: Date): (r: Date)
    ensures DayNumber(r) == DayNumber(d) + 1 && r.second == d.second
  {
    NextMonthStart(d.year, d.month);
    if d.day < DaysInMonth(d.year, d.month) then d.(day := d.day + 1)
    else if d.month < 12 then DateTime(d.year, d.month + 1, 1, d.second)
    else DateTime(d.year + 1, 1, 1, d.second)
  }

  /** The day before `d`, at the same time of day. */
  function PrevDay(d: Date): (r: Date)
    ensures DayNumber(r) == DayNumber(d) - 1 && r.second == d.second
  {
    if d.day > 1 then d.(day := d.day - 1)
    else if d.month > 1 then
      NextMonthStart(d.year, d.month - 1);
      DateTime(d.year, d.month - 1, DaysInMonth(d.year, d.month - 1), d.second)
    else
      NextMonthStart(d.year - 1, 12);
      DateTime(d.year - 1, 12, 31, d.second)
  }

  /** `Calendar.date(byAdding: .day, value: n, to: d)`: n days later, same time of day. */
  function AddDays(d: Date, n: int): (r: Date)
    ensures DayNumber(r) == DayNumber(d) + n && r.second == d.second
    ensures Seconds(r) == Seconds(d) + n * SecondsPerDay
    decreases if n < 0 then -n else n
  {
    if n == 0 then d
    else if n > 0 then AddDays(NextDay(d), n - 1)
    else AddDays(PrevDay(d), n + 1)
  }

  function Min(a: int, b: int): int {
    if a <= b then a else b
  }

  /**
    `Calendar.date(byAdding: .month, value: n, to: d)`: the same day `n` months away,
    moved back to the last day of the target month when that month is shorter.
   */
  function AddMonths(d: Date, n: int): (r: Date)
    ensures MonthIndex(r.year, r.month) == MonthIndex(d.year, d.month) + n
    ensures r.day == Min(d.day, DaysInMonth(r.year, r.month)) && r.second == d.second
    ensures n < 0 ==> Seconds(r) < Seconds(d)
    ensures n > 0 ==> Seconds(d) < Seconds(r)
    ensures n == 0 ==> r == d
  {
    var k := MonthIndex(d.year, d.month) + n;
    var y, m := k / 12, k % 12 + 1;
    var r: Date := DateTime(y, m, Min(d.day, DaysInMonth(y, m)), d.second);
    DayNumberOrder(r, d);
    r
  }

  /**
    `Calendar.date(byAdding: .year, value: n, to: d)`: the same day `n` years away;
    29 February becomes 28 February in a common year.
   */
  function AddYears(d: Date, n: int): (r: Date)
    ensures r.year == d.year + n && r.month == d.month && r.second == d.second
    ensures r.day == Min(d.day, DaysInMonth(r.year, r.month))
    ensures n < 0 ==> Seconds(r) < Seconds(d)
    ensures n > 0 ==> Seconds(d) < Seconds(r)
    ensures n == 0 ==> r == d
  {
    var y := d.year + n;
    var r: Date := DateTime(y, d.month, Min(d.day, DaysInMonth(y, d.month)), d.second);
    DayNumberOrder(r, d);
    r
  }

  /** `Calendar.date(byAdding: component, value: n, to: d)`. */
  function DateByAdding(c: Component, n: int, d: Date): (r: Date)
    ensures n < 0 ==> Seconds(r) < Seconds(d)
    ensures n > 0 ==> Seconds(d) < Seconds(r)
    ensures n == 0 ==> r == d
  {
    match c
    case Day => AddDays(d, n)
    case WeekOfYear => AddDays(d, DaysPerWeek * n)
    case Month => AddMonths(d, n)
    case Year => AddYears(d, n)
  }

  /** `Date.toMidnight`: the start of the day that contains `d`. */
  function Midnight(d: Date): Date {
    d.(second := 0)
  }

  /** Midnight is on the same day, at second 0, and no later than `d` by less than a day. */
  lemma MidnightFacts(d: Date)
    ensures DayNumber(Midnight(d)) == DayNumber(d) && Midnight(d).second == 0
    ensures Seconds(Midnight(d)) <= Seconds(d) < Seconds(Midnight(d)) + SecondsPerDay
  {
  }

  /** The day of the week of `d`, 0 being Sunday (0001-01-01 was a Monday). */
  function Weekday(d: Date): (w: int)
    ensures 0 <= w < DaysPerWeek
  {
    (DayNumber(d) + 1) % DaysPerWeek
  }

  lemma WeekStartArithmetic(n: int, m: int, back: int)
    requires back == (n + 1) % DaysPerWeek - FirstWeekday
                     + (if (n + 1) % DaysPerWeek < FirstWeekday then DaysPerWeek else 0)
    requires m == n - back
    ensures (m + 1) % DaysPerWeek == FirstWeekday && m <= n < m + DaysPerWeek
  {
    assert back == (n + 1) % 7;
    assert n + 1 == ((n + 1) / 7) * 7 + back;
    assert m + 1 == ((n + 1) / 7) * 7;
  }

  lemma WeekSeconds(r: Date, d: Date)
    requires r.second == 0 && DayNumber(r) <= DayNumber(d) < DayNumber(r) + 7
    ensures Seconds(r) <= Seconds(d) < Seconds(r) + DaysPerWeek * SecondsPerDay
  {
    var k := DayNumber(d) - DayNumber(r);
    assert Seconds(d) - Seconds(r) == k * 86400 + d.second;
  }

  /** `Date.startOfWeek`: midnight of the first day of the week that contains `d`. */
  function StartOfWeek(d: Date): (r: Date)
    ensures Weekday(r) == FirstWeekday && r.second == 0
    ensures DayNumber(r) <= DayNumber(d) < DayNumber(r) + DaysPerWeek
  {
    var back := Weekday(d) - FirstWeekday + (if Weekday(d) < FirstWeekday then DaysPerWeek else 0);
    var r := Midnight(AddDays(d, -back));
    WeekStartArithmetic(DayNumber(d), DayNumber(r), back);
    r
  }

  /** The start of the week is the latest week start not after `d`, less than a week before it. */
  lemma StartOfWeekBounds(d: Date)
    ensures Seconds(StartOfWeek(d)) <= Seconds(d) < Seconds(StartOfWeek(d)) + DaysPerWeek * SecondsPerDay
  {
    WeekSeconds(StartOfWeek(d), d);
  }

  /** A date is its own start of week exactly when it is midnight of the week's first day. */
  lemma StartOfWeekFixedPoint(d: Date)
    ensures d == StartOfWeek(d) <==> d.second == 0 && Weekday(d) == FirstWeekday
  {
    if d.second == 0 && Weekday(d) == FirstWeekday {
      var r := StartOfWeek(d);
      assert DayNumber(r) == DayNumber(d);
      DayNumberOrder(r, d);
    }
  }
}
