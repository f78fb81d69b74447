/**
 * Worked cases: one teacher's row read, the week's selection made, and the
 * reminder composed against the real timetable.
 */
module Scenarios {

  import opened Wrappers
  import opened Text
  import opened Calendar
  import opened DateFormat
  import opened Roster
  import opened Schedule
  import opened Window
  import opened Reminder

  /** A Friday morning, the moment the script is run in these cases. */
  const Now: Timestamp := DateTime(2014, 2, 28, 9, 0, 0, 0)

  /** Sunday 2 March 2014, 10 am: the slot of the Sunday basics class. */
  const SundayClass: Timestamp := DateTime(2014, 3, 2, 10, 0, 0, 0)

  /** The edges of the window: from now until just before the same time eight days on. */
  lemma WindowEdges()
    ensures !InWindow(Now, DateTime(2014, 2, 28, 8, 59, 59, 0))
    ensures InWindow(Now, DateTime(2014, 2, 28, 9, 0, 0, 0))
    ensures InWindow(Now, DateTime(2014, 3, 8, 8, 59, 59, 0))
    ensures !InWindow(Now, DateTime(2014, 3, 8, 9, 0, 0, 0))
  {
  }

  lemma SundayCells()
    ensures ParsePair("03/02/2014", "10:00:00") == Some(SundayClass)
  {
    ParsePairOfCells(SundayClass);
    SundayDateCell();
    SundayTimeCell();
  }

  lemma SundayDateCell()
    ensures DateCell(SundayClass) == "03/02/2014"
  {
  }

  lemma SundayTimeCell()
    ensures TimeCell(SundayClass) == "10:00:00"
  {
  }

  lemma PaddedCells()
    ensures Strip(" Jane Doe ") == "Jane Doe"
    ensures Strip("jane@x.com  ") == "jane@x.com"
  {
    StripPadded(" ", "Jane Doe", " ");
    assert " " + "Jane Doe" + " " == " Jane Doe ";
    StripPadded("", "jane@x.com", "  ");
    assert "" + "jane@x.com" + "  " == "jane@x.com  ";
  }

  /** A row with padded name and address and one assignment, a Sunday class. */
  lemma JaneDoeRow()
    ensures TeacherRecordOf(ParsePair, [" Jane Doe ", "jane@x.com  ", "03/02/2014", "10:00:00"])
         == Success(TeacherRecord("Jane Doe", "jane@x.com", [SundayClass]))
  {
    SundayCells();
    PaddedCells();
    var r := TeacherRecordOf(ParsePair, [" Jane Doe ", "jane@x.com  ", "03/02/2014", "10:00:00"]);
    assert r.Success?;
    assert r.value.dates == [SundayClass];
  }

  lemma SundaySelected()
    ensures PotentialDates(Now, [SundayClass]) == [SundayClass]
  {
    assert InWindow(Now, SundayClass);
    assert Kept(Now, [SundayClass]) == [SundayClass];
  }

  lemma SundaySlot()
    ensures KeyOf(SundayClass) == ClassKey(Sun, 10, 0, false)
  {
    assert WeekdayOf(SundayClass) == Sun;
  }

  lemma SundayText()
    ensures ClassDateText(SundayClass) == "Sun, 02th March at 10:00 AM"
  {
    SundayHead();
    SundayTail();
    assert "Sun, 02th " + "March" + " at 10:00 AM" == "Sun, 02th March at 10:00 AM";
  }

  lemma SundayHead()
    ensures DateHead(SundayClass) == "Sun, 02th "
  {
    assert WeekdayOf(SundayClass) == Sun;
    assert Pad2(SundayClass.day) == "02";
  }

  lemma SundayTail()
    ensures TimeTail(SundayClass) == " at 10:00 AM"
  {
    assert Pad2(Hour12(SundayClass.hour)) == "10" && Pad2(SundayClass.minute) == "00";
  }

  lemma SundayLines()
    ensures ClassLines("Jane", [SundayClass], ClassSchedules) == Success(["Sun, 02th March at 10:00 AM for Hatha - Basics"])
  {
    SundaySlot();
    SundayText();
    assert ClassSchedules[ClassKey(Sun, 10, 0, false)] == "Hatha - Basics";
    assert LineFor(SundayClass, ClassSchedules) == "Sun, 02th March at 10:00 AM" + " for " + "Hatha - Basics";
    SundayLineText();
    var r := ClassLines("Jane", [SundayClass], ClassSchedules);
    assert r.Success? && |r.value| == 1;
    assert r.value[0] == LineFor(SundayClass, ClassSchedules);
    assert r.value == ["Sun, 02th March at 10:00 AM for Hatha - Basics"];
  }

  /** Proof step for `SundayLines`: the concatenation, kept apart so that it is checked in a small context. */
  lemma SundayLineText()
    ensures "Sun, 02th March at 10:00 AM" + " for " + "Hatha - Basics" == "Sun, 02th March at 10:00 AM for Hatha - Basics"
  {
  }

  lemma JaneFirstName()
    ensures FirstName("Jane Doe") == Success("Jane")
  {
    assert "Jane Doe" == "Jane" + " Doe";
    FirstTokenOfWord("Jane", " Doe");
    StripToken("Jane");
  }

  /** Proof step for `JaneDoeDecision`: the concatenation, kept apart so that it is checked in a small context. */
  lemma SendingAccount()
    ensures "soniyoga" + "@gmail.com" == "soniyoga@gmail.com"
  {
  }

  lemma JaneDoeDecision()
    ensures TeacherReminder(TeacherRecord("Jane Doe", "jane@x.com", [SundayClass]), Now, "soniyoga", ClassSchedules)
         == Success(Some(PlannedEmail("Jane", "jane@x.com", ["jane@x.com", "soniyoga@gmail.com"],
                                      ["Sun, 02th March at 10:00 AM for Hatha - Basics"])))
  {
    var jane := TeacherRecord("Jane Doe", "jane@x.com", [SundayClass]);
    SundaySelected();
    JaneFirstName();
    SundayLines();
    ReminderOfParts(jane, Now, "soniyoga", ClassSchedules, "Jane", ["Sun, 02th March at 10:00 AM for Hatha - Basics"]);
    SendingAccount();
  }

  /** Her Sunday class two days ahead gets one email, to her and to the sending account. */
  lemma JaneDoeReminder()
    ensures Run(Decide(Now, "soniyoga", ClassSchedules), [TeacherRecord("Jane Doe", "jane@x.com", [SundayClass])])
         == RunResult([PlannedEmail("Jane", "jane@x.com", ["jane@x.com", "soniyoga@gmail.com"],
                                    ["Sun, 02th March at 10:00 AM for Hatha - Basics"])], None)
  {
    JaneDoeDecision();
    RunOfOne(Decide(Now, "soniyoga", ClassSchedules), TeacherRecord("Jane Doe", "jane@x.com", [SundayClass]),
             PlannedEmail("Jane", "jane@x.com", ["jane@x.com", "soniyoga@gmail.com"], ["Sun, 02th March at 10:00 AM for Hatha - Basics"]));
  }
}
