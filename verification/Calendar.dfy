/** The proleptic Gregorian calendar as Python's `datetime` has it, without time zones. */
module Calendar {

  datatype DateTime = DateTime(year: int, month: int, day: int, hour: int, minute: int, second: int)

  const DAY := 86400

  predicate Leap(y: int) { y % 4 == 0 && (y % 100 != 0 || y % 400 == 0) }

  function DaysInMonth(y: int, m: int): int
    requires 1 <= m <= 12
  {
    if m == 2 then (if Leap(y) then 29 else 28)
    else if m == 4 || m == 6 || m == 9 || m == 11 then 30
    else 31
  }

  function DaysInYear(y: int): int { if Leap(y) then 366 else 365 }

  /** The days before the first of this month in its year. */
  function DaysBeforeMonth(y: int, m: int): int
    requires 1 <= m <= 12
  {
    if m == 1 then 0 else DaysBeforeMonth(y, m - 1) + DaysInMonth(y, m - 1)
  }

  /** The days before the first of January of this year. */
  function DaysBeforeYear(y: int): int {
    365 * (y - 1) + (y - 1) / 4 - (y - 1) / 100 + (y - 1) / 400
  }

  predicate ValidDate(y: int, m: int, d: int) {
    1 <= y <= 9999 && 1 <= m <= 12 && 1 <= d <= DaysInMonth(y, m)
  }

  /** The arguments that the `datetime` constructor accepts. */
  predicate Valid(t: DateTime) {
    ValidDate(t.year, t.month, t.day) && 0 <= t.hour < 24 && 0 <= t.minute < 60 && 0 <= t.second < 60
  }

  function Ordinal(y: int, m: int, d: int): int
    requires 1 <= m <= 12
  {
    DaysBeforeYear(y) + DaysBeforeMonth(y, m) + d
  }

  /** Seconds on one linear scale. */
  function Seconds(t: DateTime): int
    requires 1 <= t.month <= 12
  {
    Ordinal(t.year, t.month, t.day) * DAY + t.hour * 3600 + t.minute * 60 + t.second
  }

  lemma YearLength(y: int)
    ensures DaysBeforeYear(y + 1) == DaysBeforeYear(y) + DaysInYear(y)
  {
    assert y / 4 - (y - 1) / 4 == if y % 4 == 0 then 1 else 0;
    assert y / 100 - (y - 1) / 100 == if y % 100 == 0 then 1 else 0;
    assert y / 400 - (y - 1) / 400 == if y % 400 == 0 then 1 else 0;
  }

  lemma {:induction false} MonthsBefore(y: int, m: int)
    requires 1 <= m <= 12
    ensures DaysBeforeMonth(y, m)
         == [0, 31, 59, 90, 120, 151, 181, 212, 243, 273, 304, 334][m - 1] + (if m > 2 && Leap(y) then 1 else 0)
  {
    if m > 1 {
      MonthsBefore(y, m - 1);
    }
  }

  /** The second after this one, by the clock and the calendar on the wall. */
  function Tick(t: DateTime): DateTime
    requires 1 <= t.month <= 12
  {
    if t.second < 59 then t.(second := t.second + 1)
    else if t.minute < 59 then t.(minute := t.minute + 1, second := 0)
    else if t.hour < 23 then t.(hour := t.hour + 1, minute := 0, second := 0)
    else if t.day < DaysInMonth(t.year, t.month) then DateTime(t.year, t.month, t.day + 1, 0, 0, 0)
    else if t.month < 12 then DateTime(t.year, t.month + 1, 1, 0, 0, 0)
    else DateTime(t.year + 1, 1, 1, 0, 0, 0)
  }

  lemma NextDay(y: int, m: int)
    requires 1 <= m <= 12
    ensures m < 12 ==> Ordinal(y, m + 1, 1) == Ordinal(y, m, DaysInMonth(y, m)) + 1
    ensures m == 12 ==> Ordinal(y + 1, 1, 1) == Ordinal(y, m, DaysInMonth(y, m)) + 1
  {
    if m == 12 {
      YearLength(y);
      MonthsBefore(y, m);
    }
  }

  /** The linear scale counts the ticks. */
  lemma SecondsCountTicks(t: DateTime)
    requires Valid(t)
    ensures Seconds(Tick(t)) == Seconds(t) + 1
  {
    NextDay(t.year, t.month);
    if t.hour == 23 && t.minute == 59 && t.second == 59 {
      assert Seconds(t) + 1 == (Ordinal(t.year, t.month, t.day) + 1) * DAY;
    }
  }

  /** The valid times are those between the first and the last one. */
  lemma ValidTicks(t: DateTime)
    requires Valid(t)
    ensures Valid(Tick(t)) <==> t != DateTime(9999, 12, 31, 23, 59, 59)
    ensures Valid(DateTime(1, 1, 1, 0, 0, 0)) && Seconds(DateTime(1, 1, 1, 0, 0, 0)) == 24 * 60 * 60
    ensures Seconds(DateTime(1, 1, 1, 0, 0, 0)) <= Seconds(t)
  {
    WithinYear(t);
    YearsAscend(1, t.year);
  }

  /** A valid time lies in its own year. */
  lemma WithinYear(t: DateTime)
    requires Valid(t)
    ensures (DaysBeforeYear(t.year) + 1) * DAY <= Seconds(t) < (DaysBeforeYear(t.year + 1) + 1) * DAY
  {
    MonthsBefore(t.year, t.month);
    YearLength(t.year);
    assert 1 <= Ordinal(t.year, t.month, t.day) - DaysBeforeYear(t.year) <= DaysInYear(t.year);
    assert 0 <= t.hour * 3600 + t.minute * 60 + t.second < DAY;
  }

  /** The days from a date to the same date one year later: 366 if a 29 February lies between. */
  function YearStep(y: int, m: int): int {
    if (m <= 2 && Leap(y)) || (m > 2 && Leap(y + 1)) then 366 else 365
  }

  lemma OneYearLater(t: DateTime)
    requires Valid(t) && 1 <= t.month <= 12
    ensures Seconds(t.(year := t.year + 1)) == Seconds(t) + YearStep(t.year, t.month) * DAY
  {
    MonthsBefore(t.year, t.month);
    MonthsBefore(t.year + 1, t.month);
    YearLength(t.year);
  }

  lemma {:induction false} YearsAscend(a: int, b: int)
    requires a <= b
    ensures DaysBeforeYear(a) <= DaysBeforeYear(b)
    decreases b - a
  {
    if a < b {
      YearLength(b - 1);
      YearsAscend(a, b - 1);
    }
  }
}
