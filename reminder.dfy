/**
 * `SendReminder.Send` and the deciding part of `_SendEmail`: which teacher
 * gets an email, addressed to whom, listing which classes.  An email is
 * planned, not delivered; a condition on which the script exits becomes
 * the `fatal` part of the outcome, after the emails already sent.
 */
module Reminder {

  import opened Wrappers
  import opened Text
  import opened Calendar
  import opened DateFormat
  import opened Roster
  import opened Schedule
  import opened Window

  /** Class names by weekly slot; the script's table is `Schedule.ClassSchedules`. */
  type Timetable = map<ClassKey, string>

  /** An email `_SendEmail` sends: greeting name, `To` address, SMTP recipients, one line per class. */
  datatype PlannedEmail = PlannedEmail(greeting: string, to: string, recipients: seq<string>, classLines: seq<string>)

  /** The emails a run sent, and the condition it stopped on, if any. */
  datatype RunResult = RunResult(sent: seq<PlannedEmail>, fatal: Option<Error>)

  /** `recipients = [recipient_email, from_user + '@gmail.com']` */
  function Recipients(email: string, fromUser: string): (r: seq<string>)
    ensures |r| == 2 && r[0] == email && r[1] == fromUser + "@gmail.com"
  {
    [email, fromUser + "@gmail.com"]
  }

  predicate AllKnown(dates: seq<Timestamp>, table: Timetable) {
    forall i :: 0 <= i < |dates| ==> KeyOf(dates[i]) in table
  }

  /** Date `i` is the first whose slot is not in the table, and `e` is the error the script reports for it. */
  predicate FirstUnknownAt(teacher: string, dates: seq<Timestamp>, table: Timetable, i: int, e: Error) {
    && 0 <= i < |dates|
    && KeyOf(dates[i]) !in table
    && AllKnown(dates[..i], table)
    && e == UnknownClassSlot(teacher, ClassDateText(dates[i]))
  }

  /** The line of a class: `class_date + ' for ' + class_name`. */
  function LineFor(d: Timestamp, table: Timetable): (r: string)
    requires KeyOf(d) in table
    ensures |r| == |ClassDateText(d)| + 5 + |table[KeyOf(d)]|
    ensures r[..|ClassDateText(d)|] == ClassDateText(d)
    ensures r[|r| - |table[KeyOf(d)]|..] == table[KeyOf(d)]
  {
    ClassDateText(d) + " for " + table[KeyOf(d)]
  }

  /**
   * The class is looked up by a coarser text (`'%a %I:%M %p'`) than the
   * date the line shows, and the two agree: dates that print the same
   * date text have the same slot, so they get the same line.
   */
  lemma LineForShownDate(d: Timestamp, e: Timestamp, table: Timetable)
    requires KeyOf(d) in table
    requires ClassDateText(d) == ClassDateText(e)
    ensures KeyOf(e) == KeyOf(d)
    ensures LineFor(e, table) == LineFor(d, table)
  {
    ClassDateTextShows(d, e);
    SameKeyIffSameSlot(d, e);
  }

  /**
   * The `yoga_classes` loop of `_SendEmail` as a function: a line per date,
   * in order, or the error of the first date whose slot is not in the
   * table.  `teacher` is the name the error message shows.
   */
  function ClassLines(teacher: string, dates: seq<Timestamp>, table: Timetable): (r: Result<seq<string>, Error>)
    ensures r.Success? <==> AllKnown(dates, table)
    ensures r.Success? ==> |r.value| == |dates|
    ensures r.Success? ==> forall i :: 0 <= i < |dates| ==> r.value[i] == LineFor(dates[i], table)
    ensures r.Failure? ==> exists i :: FirstUnknownAt(teacher, dates, table, i, r.error)
  {
    if dates == [] then Success([])
    else if KeyOf(dates[0]) !in table then
      assert FirstUnknownAt(teacher, dates, table, 0, UnknownClassSlot(teacher, ClassDateText(dates[0])));
      Failure(UnknownClassSlot(teacher, ClassDateText(dates[0])))
    else
      var rest := ClassLines(teacher, dates[1..], table);
      assert forall i :: 0 < i < |dates| ==> dates[1..][i - 1] == dates[i];
      if rest.Failure? then
        FirstUnknownAfterHead(teacher, dates, table, rest.error);
        rest
      else
        Success([LineFor(dates[0], table)] + rest.value)
  }

  /** A first unknown slot of the tail, behind a known head, is the first unknown slot of the whole. */
  lemma FirstUnknownAfterHead(teacher: string, dates: seq<Timestamp>, table: Timetable, e: Error)
    requires dates != [] && KeyOf(dates[0]) in table
    requires exists i :: FirstUnknownAt(teacher, dates[1..], table, i, e)
    ensures exists i :: FirstUnknownAt(teacher, dates, table, i, e)
  {
    var i :| FirstUnknownAt(teacher, dates[1..], table, i, e);
    KnownPrefix(dates[1..], table, i);
    KnownPrefix(dates, table, i + 1);
    assert FirstUnknownAt(teacher, dates, table, i + 1, e);
  }

  /** A date at index `k` that is the first with an unknown slot decides the error. */
  lemma ClassLinesFailsAt(teacher: string, dates: seq<Timestamp>, table: Timetable, k: nat)
    requires k < |dates| && KeyOf(dates[k]) !in table && AllKnown(dates[..k], table)
    ensures ClassLines(teacher, dates, table) == Failure(UnknownClassSlot(teacher, ClassDateText(dates[k])))
  {
    var r := ClassLines(teacher, dates, table);
    var i :| FirstUnknownAt(teacher, dates, table, i, r.error);
    KnownPrefix(dates, table, i);
    KnownPrefix(dates, table, k);
  }

  lemma KnownPrefix(dates: seq<Timestamp>, table: Timetable, n: nat)
    requires n <= |dates|
    ensures AllKnown(dates[..n], table) <==> forall j :: 0 <= j < n ==> KeyOf(dates[j]) in table
  {
    assert forall j :: 0 <= j < n ==> dates[..n][j] == dates[j];
  }

  /** The `yoga_classes` loop as the script runs it; `teacher` is the name its error message shows. */
  method ComposeClassLines(teacher: string, dates: seq<Timestamp>, table: Timetable) returns (r: Result<seq<string>, Error>)
    ensures r == ClassLines(teacher, dates, table)
  {
    var lines: seq<string> := [];
    for k := 0 to |dates|
      invariant |lines| == k
      invariant forall i :: 0 <= i < k ==> KeyOf(dates[i]) in table && lines[i] == LineFor(dates[i], table)
    {
      if KeyOf(dates[k]) !in table {
        KnownPrefix(dates, table, k);
        ClassLinesFailsAt(teacher, dates, table, k);
        return Failure(UnknownClassSlot(teacher, ClassDateText(dates[k])));
      }
      lines := lines + [LineFor(dates[k], table)];
    }
    ClassLinesOfKnown(teacher, dates, table, lines);
    r := Success(lines);
  }

  /** Lines that match every date one by one are the composed lines. */
  lemma ClassLinesOfKnown(teacher: string, dates: seq<Timestamp>, table: Timetable, lines: seq<string>)
    requires |lines| == |dates|
    requires forall i :: 0 <= i < |dates| ==> KeyOf(dates[i]) in table && lines[i] == LineFor(dates[i], table)
    ensures ClassLines(teacher, dates, table) == Success(lines)
  {
    assert AllKnown(dates, table);
    assert ClassLines(teacher, dates, table).value == lines;
  }

  /** Whether a teacher has any date in the coming week. */
  predicate HasClassThisWeek(t: TeacherRecord, now: Timestamp) {
    exists d :: d in t.dates && InWindow(now, d)
  }

  /**
   * `m` is the email the script writes to `t`: greeting by first name,
   * sent to the teacher and the account's own address, one line per
   * selected date in ascending order.
   */
  ghost predicate Addressed(m: PlannedEmail, t: TeacherRecord, now: Timestamp, fromUser: string, table: Timetable) {
    var ds := PotentialDates(now, t.dates);
    && FirstToken(t.name) == Some(m.greeting)
    && m.to == t.email
    && m.recipients == Recipients(t.email, fromUser)
    && |m.classLines| == |ds| > 0
    && AllKnown(ds, table)
    && forall i :: 0 <= i < |ds| ==> m.classLines[i] == LineFor(ds[i], table)
  }

  /**
   * What one pass of the `Send` loop does for teacher `t`: nothing when no
   * date is in the window, otherwise the email `_SendEmail` composes, or
   * the condition it exits on.
   */
  function TeacherReminder(t: TeacherRecord, now: Timestamp, fromUser: string, table: Timetable): (r: Result<Option<PlannedEmail>, Error>)
    ensures r == Success(None) <==> !HasClassThisWeek(t, now)
    ensures r.Failure? <==> HasClassThisWeek(t, now) && (AllSpace(t.name) || !AllKnown(PotentialDates(now, t.dates), table))
    ensures r.Failure? && AllSpace(t.name) ==> r.error == BlankName
    ensures r.Failure? && !AllSpace(t.name) ==> r.error.UnknownClassSlot?
    ensures r.Success? && r.value.Some? ==> Addressed(r.value.value, t, now, fromUser, table)
  {
    var dates := PotentialDates(now, t.dates);
    PotentialDatesEmpty(now, t.dates);
    if dates == [] then Success(None)
    else
      var first :- FirstName(t.name);
      var lines :- ClassLines(first, dates, table);
      Success(Some(PlannedEmail(first, t.email, Recipients(t.email, fromUser), lines)))
  }

  /**
   * Proof step for the scenarios: unfolds `TeacherReminder` for a teacher
   * whose greeting and lines are already known.
   */
  lemma ReminderOfParts(t: TeacherRecord, now: Timestamp, fromUser: string, table: Timetable, greeting: string, lines: seq<string>)
    requires PotentialDates(now, t.dates) != []
    requires FirstName(t.name) == Success(greeting)
    requires ClassLines(greeting, PotentialDates(now, t.dates), table) == Success(lines)
    ensures TeacherReminder(t, now, fromUser, table) == Success(Some(PlannedEmail(greeting, t.email, Recipients(t.email, fromUser), lines)))
  {
  }

  /** How one pass of the `Send` loop treats a teacher; the script's is `Decide(now, fromUser, table)`. */
  type Decision = TeacherRecord -> Result<Option<PlannedEmail>, Error>

  function Decide(now: Timestamp, fromUser: string, table: Timetable): Decision {
    t => TeacherReminder(t, now, fromUser, table)
  }

  /** The outcome of `Send` over a roster: the emails in roster order, up to the first fatal condition. */
  function Run(decide: Decision, roster: seq<TeacherRecord>): (r: RunResult)
    ensures |r.sent| <= |roster|
  {
    if roster == [] then RunResult([], None)
    else
      match decide(roster[0])
      case Failure(e) => RunResult([], Some(e))
      case Success(None) => Run(decide, roster[1..])
      case Success(Some(m)) =>
        var rest := Run(decide, roster[1..]);
        RunResult([m] + rest.sent, rest.fatal)
  }

  /** The position of the first teacher on whom the script exits, or `|roster|` when there is none. */
  function FirstFailure(decide: Decision, roster: seq<TeacherRecord>): (f: nat)
    ensures f <= |roster|
    ensures forall j :: 0 <= j < f ==> decide(roster[j]).Success?
    ensures f < |roster| ==> decide(roster[f]).Failure?
  {
    if roster == [] then 0
    else if decide(roster[0]).Failure? then 0
    else 1 + FirstFailure(decide, roster[1..])
  }

  /** The emails of a stretch of the roster on which nobody fails, in roster order. */
  function Emails(decide: Decision, roster: seq<TeacherRecord>): seq<PlannedEmail>
    requires forall j :: 0 <= j < |roster| ==> decide(roster[j]).Success?
  {
    if roster == [] then []
    else
      var d := decide(roster[0]);
      (if d.value.Some? then [d.value.value] else []) + Emails(decide, roster[1..])
  }

  /**
   * A run sends the emails of the teachers before the first failing one,
   * and ends on that teacher's condition exactly when there is one.
   */
  lemma {:induction false} RunStopsAtFirstFailure(decide: Decision, roster: seq<TeacherRecord>)
    ensures var r, f := Run(decide, roster), FirstFailure(decide, roster);
      && r.sent == Emails(decide, roster[..f])
      && (r.fatal.Some? <==> f < |roster|)
      && (f < |roster| ==> r.fatal == Some(decide(roster[f]).error))
  {
    if roster != [] && decide(roster[0]).Success? {
      var tail := roster[1..];
      RunStopsAtFirstFailure(decide, tail);
      var f := FirstFailure(decide, roster);
      assert roster[..f] == [roster[0]] + tail[..f - 1];
      assert roster[..f][1..] == tail[..f - 1];
    }
  }

  /** The teachers with a date in the coming week, in roster order. */
  function Active(roster: seq<TeacherRecord>, now: Timestamp): (r: seq<TeacherRecord>)
    ensures forall t :: t in r <==> t in roster && HasClassThisWeek(t, now)
  {
    if roster == [] then []
    else (if HasClassThisWeek(roster[0], now) then [roster[0]] else []) + Active(roster[1..], now)
  }

  /**
   * Where nobody fails, the script writes exactly one email to each
   * teacher with a class in the coming week, in roster order.
   */
  lemma {:induction false} EmailsToActive(roster: seq<TeacherRecord>, now: Timestamp, fromUser: string, table: Timetable)
    requires forall j :: 0 <= j < |roster| ==> TeacherReminder(roster[j], now, fromUser, table).Success?
    ensures var ms, ts := Emails(Decide(now, fromUser, table), roster), Active(roster, now);
      && |ms| == |ts|
      && forall i :: 0 <= i < |ms| ==> Addressed(ms[i], ts[i], now, fromUser, table)
  {
    if roster != [] {
      EmailsToActive(roster[1..], now, fromUser, table);
    }
  }

  /**
   * What a run of the script sends: one email to each teacher with a class
   * in the coming week, in roster order, up to the first teacher on whom
   * it exits; it exits exactly when there is such a teacher.
   */
  lemma RunSpec(roster: seq<TeacherRecord>, now: Timestamp, fromUser: string, table: Timetable)
    ensures var decide := Decide(now, fromUser, table);
      var r, f := Run(decide, roster), FirstFailure(decide, roster);
      && (r.fatal.Some? <==> f < |roster|)
      && (f < |roster| ==> r.fatal == Some(TeacherReminder(roster[f], now, fromUser, table).error))
      && |r.sent| == |Active(roster[..f], now)|
      && forall i :: 0 <= i < |r.sent| ==> Addressed(r.sent[i], Active(roster[..f], now)[i], now, fromUser, table)
  {
    var decide := Decide(now, fromUser, table);
    var f := FirstFailure(decide, roster);
    RunStopsAtFirstFailure(decide, roster);
    EmailsToActive(roster[..f], now, fromUser, table);
  }

  /** Proof step for the scenarios: unfolds `Run` on a roster of one teacher who is written to. */
  lemma RunOfOne(decide: Decision, t: TeacherRecord, m: PlannedEmail)
    requires decide(t) == Success(Some(m))
    ensures Run(decide, [t]) == RunResult([m], None)
  {
    assert [t][1..] == [];
  }

  /** In a week without classes nobody is written to and the run ends normally. */
  lemma {:induction false} QuietWeek(roster: seq<TeacherRecord>, now: Timestamp, fromUser: string, table: Timetable)
    requires forall t :: t in roster ==> !HasClassThisWeek(t, now)
    ensures Run(Decide(now, fromUser, table), roster) == RunResult([], None)
  {
    if roster != [] {
      assert roster[0] in roster;
      QuietWeek(roster[1..], now, fromUser, table);
    }
  }

  /** Prepending the emails sent so far to the outcome of the rest of a run. */
  function After(sent: seq<PlannedEmail>, rest: RunResult): RunResult {
    RunResult(sent + rest.sent, rest.fatal)
  }

  lemma RunStepStops(decide: Decision, sent: seq<PlannedEmail>, roster: seq<TeacherRecord>, e: Error)
    requires roster != [] && decide(roster[0]) == Failure(e)
    ensures After(sent, Run(decide, roster)) == RunResult(sent, Some(e))
  {
  }

  lemma RunStepSkips(decide: Decision, sent: seq<PlannedEmail>, roster: seq<TeacherRecord>)
    requires roster != [] && decide(roster[0]) == Success(None)
    ensures After(sent, Run(decide, roster)) == After(sent, Run(decide, roster[1..]))
  {
  }

  lemma RunStepSends(decide: Decision, sent: seq<PlannedEmail>, roster: seq<TeacherRecord>, m: PlannedEmail)
    requires roster != [] && decide(roster[0]) == Success(Some(m))
    ensures After(sent, Run(decide, roster)) == After(sent + [m], Run(decide, roster[1..]))
  {
    var rest := Run(decide, roster[1..]);
    assert sent + ([m] + rest.sent) == (sent + [m]) + rest.sent;
  }

  /** One pass of the `Send` loop, with the composing part of `_SendEmail`, as the script runs it. */
  method RemindTeacher(t: TeacherRecord, now: Timestamp, fromUser: string, table: Timetable)
    returns (r: Result<Option<PlannedEmail>, Error>)
    ensures r == TeacherReminder(t, now, fromUser, table)
  {
    var dates := GetPotentialDates(now, t.dates);
    if dates == [] {
      return Success(None);
    }
    var first := FirstName(t.name);
    if first.Failure? {
      return Failure(first.error);
    }
    var lines := ComposeClassLines(first.value, dates, table);
    if lines.Failure? {
      return Failure(lines.error);
    }
    return Success(Some(PlannedEmail(first.value, t.email, Recipients(t.email, fromUser), lines.value)));
  }

  /** `Send` as the script runs it: the loop over the roster, stopping at the first fatal condition. */
  method Send(roster: seq<TeacherRecord>, now: Timestamp, fromUser: string, table: Timetable) returns (result: RunResult)
    ensures result == Run(Decide(now, fromUser, table), roster)
  {
    ghost var decide := Decide(now, fromUser, table);
    var sent: seq<PlannedEmail> := [];
    assert roster[0..] == roster;
    for k := 0 to |roster|
      invariant Run(decide, roster) == After(sent, Run(decide, roster[k..]))
    {
      assert roster[k..][1..] == roster[k + 1..];
      var d := RemindTeacher(roster[k], now, fromUser, table);
      assert decide(roster[k..][0]) == d;
      match d
      case Failure(e) =>
        RunStepStops(decide, sent, roster[k..], e);
        return RunResult(sent, Some(e));
      case Success(None) =>
        RunStepSkips(decide, sent, roster[k..]);
      case Success(Some(m)) =>
        RunStepSends(decide, sent, roster[k..], m);
        sent := sent + [m];
    }
    assert roster[|roster|..] == [];
    assert sent + [] == sent;
    return RunResult(sent, None);
  }
}
