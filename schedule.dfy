/**
 * The class timetable (`CLASS_SCHEDULES`): which class runs at which
 * weekly slot, a slot being what `strftime('%a %I:%M %p')` shows of a date.
 */
module Schedule {

  import opened Text
  import opened Calendar
  import opened DateFormat

  /** A weekly slot: weekday, hour on the twelve-hour clock, minute, and AM or PM. */
  datatype ClassKey = ClassKey(weekday: Weekday, hour12: int, minute: int, isPM: bool)

  predicate ValidKey(k: ClassKey) {
    1 <= k.hour12 <= 12 && 0 <= k.minute < 60
  }

  /** The slot a date falls in; seconds and the calendar date play no part. */
  function KeyOf(t: Timestamp): (k: ClassKey)
    ensures ValidKey(k)
  {
    ClassKey(WeekdayOf(t), Hour12(t.hour), t.minute, t.hour >= 12)
  }

  /** The 24-hour hour a slot stands for. */
  function Hour24(k: ClassKey): int {
    k.hour12 % 12 + (if k.isPM then 12 else 0)
  }

  /**
   * Two dates share a slot exactly when they fall on the same weekday at
   * the same hour and minute.
   */
  lemma SameKeyIffSameSlot(s: Timestamp, t: Timestamp)
    ensures KeyOf(s) == KeyOf(t) <==>
      WeekdayOf(s) == WeekdayOf(t) && s.hour == t.hour && s.minute == t.minute
  {
    Hour24OfKey(s);
    Hour24OfKey(t);
  }

  lemma Hour24OfKey(t: Timestamp)
    ensures Hour24(KeyOf(t)) == t.hour
  {
  }

  /** `'%a %I:%M %p'`, the text form of a slot, as the table's keys are written ("Sun 10:00 AM"). */
  function KeyText(k: ClassKey): (r: string)
    requires ValidKey(k)
    ensures |r| == 12
  {
    var day, hh, mm, ampm := WeekdayAbbrev(k.weekday), Pad2(k.hour12), Pad2(k.minute), Meridiem(k.isPM);
    [day[0], day[1], day[2], ' ', hh[0], hh[1], ':', mm[0], mm[1], ' ', ampm[0], ampm[1]]
  }

  /** Distinct slots have distinct text, so looking a slot up by its text is looking up the slot. */
  lemma KeyTextInjective(a: ClassKey, b: ClassKey)
    requires ValidKey(a) && ValidKey(b)
    requires KeyText(a) == KeyText(b)
    ensures a == b
  {
    var s, t := KeyText(a), KeyText(b);
    assert WeekdayAbbrev(a.weekday) == s[..3] == t[..3] == WeekdayAbbrev(b.weekday);
    assert Pad2(a.hour12) == s[4..6] == t[4..6] == Pad2(b.hour12);
    assert Pad2(a.minute) == s[7..9] == t[7..9] == Pad2(b.minute);
    assert Meridiem(a.isPM) == s[10..] == t[10..] == Meridiem(b.isPM);
    Pad2Injective(a.hour12, b.hour12);
    Pad2Injective(a.minute, b.minute);
  }

  /** `CLASS_SCHEDULES`, keyed by slot. */
  const ClassSchedules: map<ClassKey, string> := map[
    ClassKey(Sun, 10, 0, false) := "Hatha - Basics",
    ClassKey(Sun, 5, 0, true) := "Hatha - All Levels",
    ClassKey(Sun, 7, 0, true) := "Restorative Yoga",
    ClassKey(Mon, 9, 0, false) := "Yoga Gentle",
    ClassKey(Mon, 6, 0, true) := "Therapeutic Yoga",
    ClassKey(Mon, 7, 15, true) := "Hatha - Flow",
    ClassKey(Tue, 9, 0, false) := "Hatha - All Levels",
    ClassKey(Tue, 6, 0, true) := "Kundalini",
    ClassKey(Tue, 7, 30, true) := "Hatha - All Levels",
    ClassKey(Wed, 9, 0, false) := "Therapeutic Yoga",
    ClassKey(Wed, 6, 0, true) := "Yoga Gentle",
    ClassKey(Wed, 7, 15, true) := "Hatha - All Levels",
    ClassKey(Thu, 6, 15, false) := "Sunrise Yoga",
    ClassKey(Thu, 12, 0, true) := "Hatha - All Levels",
    ClassKey(Thu, 6, 0, true) := "Hatha - All Levels",
    ClassKey(Thu, 7, 30, true) := "Yoga Strech Kripalu",
    ClassKey(Fri, 9, 30, false) := "Hatha - All Levels",
    ClassKey(Fri, 6, 30, true) := "Therapeutic Yoga",
    ClassKey(Sat, 9, 30, false) := "Hatha - Flow",
    ClassKey(Sat, 11, 30, false) := "Yoga - Gentle",
    ClassKey(Sat, 5, 0, true) := "Hatha - All Levels"
  ]

  /** Every slot of the table is a real time of day, and the table names a class for each. */
  lemma ClassSchedulesValid()
    ensures forall k :: k in ClassSchedules ==> ValidKey(k) && ClassSchedules[k] != []
  {
  }

  /** Each slot of `ClassSchedules` prints as the key the script writes for it. */
  lemma KeyTextsA()
    ensures KeyText(ClassKey(Sun, 10, 0, false)) == "Sun 10:00 AM"
    ensures KeyText(ClassKey(Sun, 5, 0, true)) == "Sun 05:00 PM"
    ensures KeyText(ClassKey(Sun, 7, 0, true)) == "Sun 07:00 PM"
    ensures KeyText(ClassKey(Mon, 9, 0, false)) == "Mon 09:00 AM"
    ensures KeyText(ClassKey(Mon, 6, 0, true)) == "Mon 06:00 PM"
    ensures KeyText(ClassKey(Mon, 7, 15, true)) == "Mon 07:15 PM"
    ensures KeyText(ClassKey(Tue, 9, 0, false)) == "Tue 09:00 AM"
    ensures KeyText(ClassKey(Tue, 6, 0, true)) == "Tue 06:00 PM"
    ensures KeyText(ClassKey(Tue, 7, 30, true)) == "Tue 07:30 PM"
    ensures KeyText(ClassKey(Wed, 9, 0, false)) == "Wed 09:00 AM"
  {
  }

  lemma KeyTextsB()
    ensures KeyText(ClassKey(Wed, 6, 0, true)) == "Wed 06:00 PM"
    ensures KeyText(ClassKey(Wed, 7, 15, true)) == "Wed 07:15 PM"
    ensures KeyText(ClassKey(Thu, 6, 15, false)) == "Thu 06:15 AM"
    ensures KeyText(ClassKey(Thu, 12, 0, true)) == "Thu 12:00 PM"
    ensures KeyText(ClassKey(Thu, 6, 0, true)) == "Thu 06:00 PM"
    ensures KeyText(ClassKey(Thu, 7, 30, true)) == "Thu 07:30 PM"
    ensures KeyText(ClassKey(Fri, 9, 30, false)) == "Fri 09:30 AM"
    ensures KeyText(ClassKey(Fri, 6, 30, true)) == "Fri 06:30 PM"
    ensures KeyText(ClassKey(Sat, 9, 30, false)) == "Sat 09:30 AM"
    ensures KeyText(ClassKey(Sat, 11, 30, false)) == "Sat 11:30 AM"
    ensures KeyText(ClassKey(Sat, 5, 0, true)) == "Sat 05:00 PM"
  {
  }
}
