/**
 * Python's naive `datetime`, as far as the reminder script uses it: the
 * fields and the checks its constructor makes, the field-by-field ordering
 * used by `<` and `sorted`, the day ordinal behind subtraction
 * (`date.toordinal`), and `weekday()`.
 */
module Calendar {

  datatype DateTime = DateTime(year: int, month: int, day: int,
                               hour: int, minute: int, second: int, microsecond: int)

  predicate IsLeap(y: int) {
    y % 4 == 0 && (y % 100 != 0 || y % 400 == 0)
  }

  function DaysInMonth(y: int, m: int): (n: int)
    requires 1 <= m <= 12
    ensures 28 <= n <= 31
  {
    if m == 2 then (if IsLeap(y) then 29 else 28)
    else if m == 4 || m == 6 || m == 9 || m == 11 then 30
    else 31
  }

  function DaysInYear(y: int): int {
    if IsLeap(y) then 366 else 365
  }

  /** The range checks of `datetime(year, month, day, hour, minute, second, microsecond)`. */
  predicate IsValid(t: DateTime) {
    && 1 <= t.year <= 9999
    && 1 <= t.month <= 12
    && 1 <= t.day <= DaysInMonth(t.year, t.month)
    && 0 <= t.hour < 24
    && 0 <= t.minute < 60
    && 0 <= t.second < 60
    && 0 <= t.microsecond < 1000000
  }

  /** A `datetime` object: Python cannot build one with fields out of range. */
  type Timestamp = t: DateTime | IsValid(t) witness DateTime(1, 1, 1, 0, 0, 0, 0)

  /** Days in the years before year `y` (`_days_before_year`). */
  function DaysBeforeYear(y: int): int
    requires 1 <= y
  {
    var p := y - 1;
    p * 365 + p / 4 - p / 100 + p / 400
  }

  /** Days in year `y` before the first of month `m` (`_days_before_month`). */
  function DaysBeforeMonth(y: int, m: int): int
    requires 1 <= m <= 12
  {
    [0, 31, 59, 90, 120, 151, 181, 212, 243, 273, 304, 334][m - 1]
      + (if m > 2 && IsLeap(y) then 1 else 0)
  }

  /** `date.toordinal()`: 0001-01-01 is day 1. */
  function Ordinal(t: Timestamp): int {
    DaysBeforeYear(t.year) + DaysBeforeMonth(t.year, t.month) + t.day
  }

  const MicrosPerDay: int := 86400 * 1000000

  /** Microseconds since midnight. */
  function TimeOfDay(t: Timestamp): (r: int)
    ensures 0 <= r < MicrosPerDay
  {
    ((t.hour * 60 + t.minute) * 60 + t.second) * 1000000 + t.microsecond
  }

  /** Microseconds since 0001-01-01 00:00:00; the difference of two of these is `a - b`. */
  function Micros(t: Timestamp): int {
    (Ordinal(t) - 1) * MicrosPerDay + TimeOfDay(t)
  }

  /** Python's `d < e` on datetimes: the fields compared in order, year first. */
  predicate Before(d: DateTime, e: DateTime) {
    if d.year != e.year then d.year < e.year
    else if d.month != e.month then d.month < e.month
    else if d.day != e.day then d.day < e.day
    else if d.hour != e.hour then d.hour < e.hour
    else if d.minute != e.minute then d.minute < e.minute
    else if d.second != e.second then d.second < e.second
    else d.microsecond < e.microsecond
  }

  datatype Weekday = Mon | Tue | Wed | Thu | Fri | Sat | Sun

  /**
   * `weekday()`: `(toordinal() + 6) % 7`, counting from Monday.  Day 1 of
   * the count, 1 January of year 1, is a Monday.
   */
  function WeekdayOf(t: Timestamp): (w: Weekday)
    ensures w == Mon <==> Ordinal(t) % 7 == 1
  {
    MondayResidue(Ordinal(t));
    [Mon, Tue, Wed, Thu, Fri, Sat, Sun][(Ordinal(t) + 6) % 7]
  }

  lemma MondayResidue(n: int)
    ensures (n + 6) % 7 == 0 <==> n % 7 == 1
  {
    SameResidue(1, n);
  }

  /** Two dates fall on the same weekday exactly when a whole number of weeks lies between them. */
  lemma WeekdayRepeatsWeekly(d: Timestamp, e: Timestamp)
    ensures WeekdayOf(d) == WeekdayOf(e) <==> (Ordinal(e) - Ordinal(d)) % 7 == 0
  {
    var a, b := Ordinal(d), Ordinal(e);
    var days := [Mon, Tue, Wed, Thu, Fri, Sat, Sun];
    assert WeekdayOf(d) == days[(a + 6) % 7] && WeekdayOf(e) == days[(b + 6) % 7];
    SameResidue(a, b);
  }

  lemma SameResidue(a: int, b: int)
    ensures (a + 6) % 7 == (b + 6) % 7 <==> (b - a) % 7 == 0
  {
    var p, q := (a + 6) / 7, (b + 6) / 7;
    assert b - a == 7 * (q - p) + ((b + 6) % 7 - (a + 6) % 7);
  }

  // ----- the calendar arithmetic behind the ordering -----

  lemma DaysBeforeNextYear(y: int)
    requires 1 <= y
    ensures DaysBeforeYear(y + 1) == DaysBeforeYear(y) + DaysInYear(y)
  {
    var p := y - 1;
    assert (p + 1) / 4 == p / 4 + (if y % 4 == 0 then 1 else 0);
    assert (p + 1) / 100 == p / 100 + (if y % 100 == 0 then 1 else 0);
    assert (p + 1) / 400 == p / 400 + (if y % 400 == 0 then 1 else 0);
  }

  lemma {:induction false} DaysBeforeLaterYear(y: int, z: int)
    requires 1 <= y < z
    ensures DaysBeforeYear(y) + DaysInYear(y) <= DaysBeforeYear(z)
    decreases z - y
  {
    DaysBeforeNextYear(y);
    if y + 1 < z {
      DaysBeforeLaterYear(y + 1, z);
    }
  }

  /** Every day of a year comes before the start of the next. */
  lemma DayOfYearInRange(t: Timestamp)
    ensures 1 <= DaysBeforeMonth(t.year, t.month) + t.day <= DaysInYear(t.year)
  {
  }

  lemma DaysBeforeLaterMonth(y: int, m: int, n: int)
    requires 1 <= m < n <= 12
    ensures DaysBeforeMonth(y, m) + DaysInMonth(y, m) <= DaysBeforeMonth(y, n)
  {
  }

  /** A date earlier field by field has a smaller ordinal. */
  lemma OrdinalIncreasing(d: Timestamp, e: Timestamp)
    requires (d.year, d.month, d.day) != (e.year, e.month, e.day)
    requires d.year < e.year || (d.year == e.year && (d.month < e.month || (d.month == e.month && d.day < e.day)))
    ensures Ordinal(d) < Ordinal(e)
  {
    if d.year < e.year {
      DayOfYearInRange(d);
      DaysBeforeLaterYear(d.year, e.year);
    } else if d.month < e.month {
      DaysBeforeLaterMonth(d.year, d.month, e.month);
    }
  }

  /** On one day, the later clock reading has more microseconds since midnight. */
  lemma TimeOfDayIncreasing(d: Timestamp, e: Timestamp)
    requires d.hour < e.hour || (d.hour == e.hour && (d.minute < e.minute ||
             (d.minute == e.minute && (d.second < e.second ||
             (d.second == e.second && d.microsecond < e.microsecond)))))
    ensures TimeOfDay(d) < TimeOfDay(e)
  {
    var sd := (d.hour * 60 + d.minute) * 60 + d.second;
    var se := (e.hour * 60 + e.minute) * 60 + e.second;
    assert sd < se || (sd == se && d.microsecond < e.microsecond);
  }

  /** An earlier day means an earlier instant, whatever the time of day. */
  lemma MicrosOfEarlierDay(d: Timestamp, e: Timestamp)
    requires Ordinal(d) < Ordinal(e)
    ensures Micros(d) < Micros(e)
  {
    LaterDayLaterInstant(Ordinal(d) - 1, Ordinal(e) - 1, TimeOfDay(d), TimeOfDay(e));
  }

  lemma LaterDayLaterInstant(a: int, b: int, x: int, y: int)
    requires a < b && 0 <= x < MicrosPerDay && 0 <= y
    ensures a * MicrosPerDay + x < b * MicrosPerDay + y
  {
    assert b * MicrosPerDay == a * MicrosPerDay + (b - a) * MicrosPerDay;
    assert (b - a) * MicrosPerDay >= MicrosPerDay;
  }

  /**
   * Python's field-by-field order is the order of time: `d < e` exactly
   * when `d` is the earlier instant.
   */
  lemma BeforeIsChronological(d: Timestamp, e: Timestamp)
    ensures Before(d, e) <==> Micros(d) < Micros(e)
  {
    if (d.year, d.month, d.day) == (e.year, e.month, e.day) {
      assert Ordinal(d) == Ordinal(e);
      if (d.hour, d.minute, d.second, d.microsecond) == (e.hour, e.minute, e.second, e.microsecond) {
        assert d == e;
      } else if Before(d, e) {
        TimeOfDayIncreasing(d, e);
      } else {
        TimeOfDayIncreasing(e, d);
      }
    } else if Before(d, e) {
      OrdinalIncreasing(d, e);
      MicrosOfEarlierDay(d, e);
    } else {
      OrdinalIncreasing(e, d);
      MicrosOfEarlierDay(e, d);
    }
  }

  /** Two datetimes at the same instant are the same datetime. */
  lemma MicrosInjective(d: Timestamp, e: Timestamp)
    requires Micros(d) == Micros(e)
    ensures d == e
  {
    BeforeIsChronological(d, e);
    BeforeIsChronological(e, d);
  }
}
