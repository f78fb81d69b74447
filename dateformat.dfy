/**
 * The two directions of text <-> datetime the script uses:
 * `datetime.strptime(s, '%m/%d/%Y %H:%M:%S')` for a spreadsheet cell pair,
 * and `strftime` with `%a, %dth %B at %I:%M %p` for a reminder line.
 * Names of days and months are those of the C locale.
 */
module DateFormat {

  import opened Wrappers
  import opened Text
  import opened Calendar

  /**
   * A decimal field of `minLen` to `maxLen` digits at the head of `s`, with
   * the rest of `s`.  Every field of the pattern is followed by a
   * separator or by the end, so the field is the whole digit run.
   */
  function Field(s: string, minLen: nat, maxLen: nat): (r: Option<(nat, string)>)
    ensures r.Some? <==> minLen <= DigitRun(s) <= maxLen
    ensures r.Some? ==> r.value.1 == s[DigitRun(s)..] && r.value.0 == Decimal(s[..DigitRun(s)])
  {
    var n := DigitRun(s);
    if minLen <= n <= maxLen then Some((Decimal(s[..n]), s[n..])) else None
  }

  /** The literal character `c` at the head of `s`. */
  function Literal(s: string, c: char): (r: Option<string>)
    ensures r.Some? <==> s != [] && s[0] == c
    ensures r.Some? ==> r.value == s[1..]
  {
    if s != [] && s[0] == c then Some(s[1..]) else None
  }

  /** A blank in the pattern, which `strptime` reads as `\s+`. */
  function Blanks(s: string): (r: Option<string>)
    ensures r.Some? <==> s != [] && IsSpace(s[0])
    ensures r.Some? ==> r.value == s[LeadingSpace(s)..]
  {
    var n := LeadingSpace(s);
    if n > 0 then Some(s[n..]) else None
  }

  /** `%m/%d/%Y` at the head of `s`: month, day, year and the rest of `s`. */
  function DatePart(s: string): (r: Option<(nat, nat, nat, string)>)
    ensures r.Some? ==> s != [] && IsDigit(s[0])
    ensures r.Some? ==> |r.value.3| <= |s| && r.value.3 == s[|s| - |r.value.3|..]
  {
    var month :- Field(s, 1, 2);
    var s1 :- Literal(month.1, '/');
    var dayYear :- DayYear(s1);
    assert s1 == s[|s| - |s1|..];
    Some((month.0, dayYear.0, dayYear.1, dayYear.2))
  }

  /** `%d/%Y` at the head of `s`: day, year and the rest of `s`. */
  function DayYear(s: string): (r: Option<(nat, nat, string)>)
    ensures r.Some? ==> |r.value.2| <= |s| && r.value.2 == s[|s| - |r.value.2|..]
  {
    var day :- Field(s, 1, 2);
    var s1 :- Literal(day.1, '/');
    var year :- Field(s1, 4, 4);
    assert s1 == s[|s| - |s1|..];
    Some((day.0, year.0, year.1))
  }

  /** `%H:%M:%S` making up all of `s`: hour, minute and second. */
  function TimePart(s: string): (r: Option<(nat, nat, nat)>)
    ensures r.Some? ==> s != [] && IsDigit(s[|s| - 1])
  {
    var hour :- Field(s, 1, 2);
    var s1 :- Literal(hour.1, ':');
    var minuteSecond :- MinuteSecond(s1);
    assert s1 == s[|s| - |s1|..];
    Some((hour.0, minuteSecond.0, minuteSecond.1))
  }

  /** `%M:%S` making up all of `s`: minute and second. */
  function MinuteSecond(s: string): (r: Option<(nat, nat)>)
    ensures r.Some? ==> s != [] && IsDigit(s[|s| - 1])
  {
    var minute :- Field(s, 1, 2);
    var s1 :- Literal(minute.1, ':');
    var second :- Field(s1, 1, 2);
    if second.1 == [] then
      assert s[|s| - 1] == s1[|s1| - 1] == s1[..DigitRun(s1)][|s1| - 1];
      Some((minute.0, second.0))
    else None
  }

  /**
   * `datetime.strptime(s, '%m/%d/%Y %H:%M:%S')`: month, day, hour, minute
   * and second have one or two digits, the year four, the blank stands for
   * any run of whitespace, the whole string must be consumed, and the fields
   * must make a valid datetime (a day past the end of its month, or second
   * 60 or 61, which `%S` matches, fail in the constructor).  Microseconds
   * are zero.
   */
  function ParseDateTime(s: string): (r: Option<Timestamp>)
    ensures r.Some? ==> r.value.microsecond == 0
    ensures r.Some? ==> s != [] && IsDigit(s[0]) && IsDigit(s[|s| - 1])
  {
    var date :- DatePart(s);
    var rest :- Blanks(date.3);
    var time :- TimePart(rest);
    assert rest == s[|s| - |rest|..];
    var t := DateTime(date.2, date.0, date.1, time.0, time.1, time.2, 0);
    if IsValid(t) then Some(t) else None
  }

  /** The string the script hands to `strptime`: `'%s %s' % (date cell, time cell)`. */
  function ParsePair(dateCell: string, timeCell: string): (r: Option<Timestamp>)
    ensures r.Some? ==> r.value.microsecond == 0
    ensures r.Some? ==> dateCell != [] && IsDigit(dateCell[0])
    ensures r.Some? ==> timeCell != [] && IsDigit(timeCell[|timeCell| - 1])
  {
    var s := dateCell + " " + timeCell;
    assert dateCell == [] ==> s[0] == ' ';
    assert timeCell == [] ==> s[|s| - 1] == ' ';
    ParseDateTime(s)
  }

  /** A date cell written as `MM/DD/YYYY`. */
  function DateCell(t: Timestamp): string {
    Pad2(t.month) + "/" + Pad2(t.day) + "/" + Pad4(t.year)
  }

  /** A time cell written as `HH:MM:SS`. */
  function TimeCell(t: Timestamp): string {
    Pad2(t.hour) + ":" + Pad2(t.minute) + ":" + Pad2(t.second)
  }

  lemma FieldOfDigits(digits: string, rest: string, minLen: nat, maxLen: nat)
    requires AllDigits(digits) && minLen <= |digits| <= maxLen
    requires rest == [] || !IsDigit(rest[0])
    ensures Field(digits + rest, minLen, maxLen) == Some((Decimal(digits), rest))
  {
    DigitRunOfConcat(digits, rest);
    assert (digits + rest)[|digits|..] == rest;
  }

  /**
   * Any whole-second datetime, written out as a date cell and a time cell,
   * is read back by the script's parse as itself.
   */
  lemma ParsePairOfCells(t: Timestamp)
    requires t.microsecond == 0
    ensures ParsePair(DateCell(t), TimeCell(t)) == Some(t)
  {
    var time := TimeCell(t);
    assert DateCell(t) + " " + time == DateCell(t) + (" " + time);
    DatePartOfCell(t, " " + time);
    BlankBeforeTime(t);
    TimePartOfCell(t);
    assert DateTime(t.year, t.month, t.day, t.hour, t.minute, t.second, 0) == t;
  }

  lemma BlankBeforeTime(t: Timestamp)
    ensures Blanks(" " + TimeCell(t)) == Some(TimeCell(t))
  {
    var time := TimeCell(t);
    assert time == Pad2(t.hour) + (":" + Pad2(t.minute) + ":" + Pad2(t.second));
    assert (" " + time)[1] == Pad2(t.hour)[0];
    assert LeadingSpace(" " + time) == 1;
  }

  lemma DatePartOfCell(t: Timestamp, rest: string)
    requires rest == [] || !IsDigit(rest[0])
    ensures DatePart(DateCell(t) + rest) == Some((t.month, t.day, t.year, rest))
  {
    var s1 := Pad2(t.day) + "/" + Pad4(t.year) + rest;
    assert DateCell(t) + rest == Pad2(t.month) + ("/" + s1);
    FieldOfDigits(Pad2(t.month), "/" + s1, 1, 2);
    assert Literal("/" + s1, '/') == Some(s1);
    DayYearOfCell(t, rest);
  }

  lemma DayYearOfCell(t: Timestamp, rest: string)
    requires rest == [] || !IsDigit(rest[0])
    ensures DayYear(Pad2(t.day) + "/" + Pad4(t.year) + rest) == Some((t.day, t.year, rest))
  {
    var s1 := Pad4(t.year) + rest;
    assert Pad2(t.day) + "/" + Pad4(t.year) + rest == Pad2(t.day) + ("/" + s1);
    FieldOfDigits(Pad2(t.day), "/" + s1, 1, 2);
    assert Literal("/" + s1, '/') == Some(s1);
    FieldOfDigits(Pad4(t.year), rest, 4, 4);
  }

  lemma TimePartOfCell(t: Timestamp)
    ensures TimePart(TimeCell(t)) == Some((t.hour, t.minute, t.second))
  {
    var s1 := Pad2(t.minute) + ":" + Pad2(t.second);
    assert TimeCell(t) == Pad2(t.hour) + (":" + s1);
    FieldOfDigits(Pad2(t.hour), ":" + s1, 1, 2);
    assert Literal(":" + s1, ':') == Some(s1);
    MinuteSecondOfCell(t);
  }

  lemma MinuteSecondOfCell(t: Timestamp)
    ensures MinuteSecond(Pad2(t.minute) + ":" + Pad2(t.second)) == Some((t.minute, t.second))
  {
    var s1 := Pad2(t.second);
    assert Pad2(t.minute) + ":" + s1 == Pad2(t.minute) + (":" + s1);
    FieldOfDigits(Pad2(t.minute), ":" + s1, 1, 2);
    assert Literal(":" + s1, ':') == Some(s1);
    assert s1 + "" == s1;
    FieldOfDigits(s1, "", 1, 2);
  }

  // ----- strftime -----

  /** `%a` */
  function WeekdayAbbrev(w: Weekday): (r: string)
    ensures |r| == 3
  {
    match w
    case Mon => "Mon" case Tue => "Tue" case Wed => "Wed" case Thu => "Thu"
    case Fri => "Fri" case Sat => "Sat" case Sun => "Sun"
  }

  /** `%B` */
  function MonthName(m: int): string
    requires 1 <= m <= 12
  {
    ["January", "February", "March", "April", "May", "June", "July",
     "August", "September", "October", "November", "December"][m - 1]
  }

  /** `%I`: the hour on a twelve-hour clock, 12 for midnight and noon. */
  function Hour12(h: int): (r: int)
    requires 0 <= h < 24
    ensures 1 <= r <= 12
    ensures r % 12 == h % 12
  {
    if h % 12 == 0 then 12 else h % 12
  }

  /** `%p` */
  function Meridiem(isPM: bool): (r: string)
    ensures |r| == 2
  {
    if isPM then "PM" else "AM"
  }

  /**
   * `t.strftime('%a, %dth %B at %I:%M %p')`, the date shown on a reminder
   * line; the suffix is always "th".
   */
  function ClassDateText(t: Timestamp): string {
    DateHead(t) + MonthName(t.month) + TimeTail(t)
  }

  /**
   * The date text shows the weekday, the day of the month, the month and
   * the time of day to the minute, and nothing else: two datetimes have the
   * same text exactly when they agree on those (the year and the seconds
   * are not shown).
   */
  lemma ClassDateTextShows(d: Timestamp, e: Timestamp)
    ensures ClassDateText(d) == ClassDateText(e)
      <==> WeekdayOf(d) == WeekdayOf(e) && d.day == e.day && d.month == e.month
           && d.hour == e.hour && d.minute == e.minute
  {
    if ClassDateText(d) == ClassDateText(e) {
      SameTextSameFields(d, e);
    }
  }

  lemma SameTextSameFields(d: Timestamp, e: Timestamp)
    requires ClassDateText(d) == ClassDateText(e)
    ensures WeekdayOf(d) == WeekdayOf(e) && d.day == e.day && d.month == e.month
    ensures d.hour == e.hour && d.minute == e.minute
  {
    ThreeParts(DateHead(d), MonthName(d.month), TimeTail(d), DateHead(e), MonthName(e.month), TimeTail(e));
    SameHeadSameDay(d, e);
    MonthNameInjective(d.month, e.month);
    SameTailSameTime(d, e);
  }

  lemma SameHeadSameDay(d: Timestamp, e: Timestamp)
    requires DateHead(d) == DateHead(e)
    ensures WeekdayOf(d) == WeekdayOf(e) && d.day == e.day
  {
    HeadFields(WeekdayAbbrev(WeekdayOf(d)), Pad2(d.day), WeekdayAbbrev(WeekdayOf(e)), Pad2(e.day));
    WeekdayAbbrevInjective(WeekdayOf(d), WeekdayOf(e));
    Pad2Injective(d.day, e.day);
  }

  lemma SameTailSameTime(d: Timestamp, e: Timestamp)
    requires TimeTail(d) == TimeTail(e)
    ensures d.hour == e.hour && d.minute == e.minute
  {
    TailFields(Pad2(Hour12(d.hour)), Pad2(d.minute), Meridiem(d.hour >= 12),
               Pad2(Hour12(e.hour)), Pad2(e.minute), Meridiem(e.hour >= 12));
    Pad2Injective(Hour12(d.hour), Hour12(e.hour));
    Pad2Injective(d.minute, e.minute);
  }

  /** `%a, %dth `, the part of the date text before the month name. */
  function DateHead(t: Timestamp): (r: string)
    ensures |r| == 10
  {
    WeekdayAbbrev(WeekdayOf(t)) + ", " + Pad2(t.day) + "th "
  }

  /** ` at %I:%M %p`, the part of the date text after the month name. */
  function TimeTail(t: Timestamp): (r: string)
    ensures |r| == 12
  {
    " at " + Pad2(Hour12(t.hour)) + ":" + Pad2(t.minute) + " " + Meridiem(t.hour >= 12)
  }

  lemma ThreeParts(h1: string, m1: string, t1: string, h2: string, m2: string, t2: string)
    requires |h1| == |h2| && |t1| == |t2|
    requires h1 + m1 + t1 == h2 + m2 + t2
    ensures h1 == h2 && m1 == m2 && t1 == t2
  {
    var s, u := h1 + m1 + t1, h2 + m2 + t2;
    assert h1 == s[..|h1|] && h2 == u[..|h2|];
    assert t1 == s[|s| - |t1|..] && t2 == u[|u| - |t2|..];
    assert m1 == s[|h1|..|s| - |t1|] && m2 == u[|h2|..|u| - |t2|];
  }

  lemma HeadFields(w1: string, p1: string, w2: string, p2: string)
    requires |w1| == |w2| == 3 && |p1| == |p2| == 2
    requires w1 + ", " + p1 + "th " == w2 + ", " + p2 + "th "
    ensures w1 == w2 && p1 == p2
  {
    var s, u := w1 + ", " + p1 + "th ", w2 + ", " + p2 + "th ";
    assert w1 == s[..3] && w2 == u[..3];
    assert p1 == s[5..7] && p2 == u[5..7];
  }

  lemma TailFields(h1: string, m1: string, a1: string, h2: string, m2: string, a2: string)
    requires |h1| == |h2| == 2 && |m1| == |m2| == 2 && |a1| == |a2| == 2
    requires " at " + h1 + ":" + m1 + " " + a1 == " at " + h2 + ":" + m2 + " " + a2
    ensures h1 == h2 && m1 == m2 && a1 == a2
  {
    var s, u := " at " + h1 + ":" + m1 + " " + a1, " at " + h2 + ":" + m2 + " " + a2;
    assert h1 == s[4..6] && h2 == u[4..6];
    assert m1 == s[7..9] && m2 == u[7..9];
    assert a1 == s[10..] && a2 == u[10..];
  }

  lemma WeekdayAbbrevInjective(v: Weekday, w: Weekday)
    requires WeekdayAbbrev(v) == WeekdayAbbrev(w)
    ensures v == w
  {
    assert WeekdayAbbrev(v)[..2] == WeekdayAbbrev(w)[..2];
  }

  lemma MonthNameInjective(m: int, n: int)
    requires 1 <= m <= 12 && 1 <= n <= 12
    requires MonthName(m) == MonthName(n)
    ensures m == n
  {
    var a, b := MonthName(m), MonthName(n);
    assert |a| == |b| && a[0] == b[0] && a[|a| - 1] == b[|b| - 1];
  }
}
