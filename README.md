# SubReminder, modelled in Dafny

SubReminder (`sub_email.py`) reads a yoga studio's substitute-teacher
spreadsheet. Each row holds a teacher's name, an email address, and then pairs of
date and time cells. Each teacher with a class in the coming week gets one
email. The greeting uses the teacher's first name. The email lists every such
class as "`<date>` for `<class name>`", with the class name looked up in the
studio's weekly timetable `CLASS_SCHEDULES`.

This project models the deciding part of that script:

- how a row becomes a teacher record;
- which dates fall in the window and in what order;
- how a date finds its class;
- which emails are sent, to whom, with which lines;
- on which conditions the script stops.

It then proves what each part promises.

Modules, in dependency order:

- `Wrappers`: `Option` and `Result`.
- `Text`: `strip()`, `split()[0]`, and decimal fields.
- `Calendar`: Python's `datetime` as a record of fields, with its ordering, its
  day count, and subtraction.
- `DateFormat`: `strptime('%m/%d/%Y %H:%M:%S')` as a field parser, and the
  `strftime` forms the script writes.
- `Roster`: `TeacherData`.
- `Schedule`: `CLASS_SCHEDULES`, keyed by weekly slot.
- `Sorting`: insertion sort by a total order, standing in for `sorted`.
- `Window`: `_GetPotentialDates`.
- `Reminder`: `Send` and the composing part of `_SendEmail`.
- `Scenarios`: worked cases on concrete data.

Each loop of the script is a method with loop invariants, proved equal to a
function over values:

- `ReadTeacherRow` equals `TeacherRecordOf`.
- `GetPotentialDates` equals `PotentialDates`.
- `ComposeClassLines` equals `ClassLines`.
- `RemindTeacher` and `Send` equal `TeacherReminder` and `Run`.

The lemmas then state what those functions mean.

Every condition on which the script stops is an `Error` value, and it ends the
run:

- `ShortRow`: a row without both a name cell and an email cell.
- `UnpairedDateCell`: a date cell without its time cell.
- `UnparsableDate`: a pair that does not parse.
- `BlankName`: a name with no word in it.
- `UnknownClassSlot`: a date at no timetable slot.

A run's outcome (`RunResult`) holds the emails already sent before the stop,
because in the script those have already gone out over SMTP.

How the source text is followed:

- **The window.** The code keeps a date when `0 <= (d - now).days <= 7`. The
  docstring calls this "within a week from today". Because `timedelta.days`
  rounds down, the code actually keeps every instant from `now` up to, but not
  including, eight days after `now`. The model follows the code: a class
  7 days and 23 hours ahead gets a reminder. `Window.InWindow` states
  this and `Scenarios.WindowEdges` shows it.
- **The day suffix.** The date line always uses the suffix "th", as the
  format string does: "Sun, 02th March".

## Model

| member | source | states |
|---|---|---|
| Text.Strip | sub_email.py:46-47 | the result is `s` with leading and trailing whitespace removed: it is the slice after the leading whitespace, only whitespace follows it, and it neither starts nor ends with whitespace |
| Text.StripPadded | sub_email.py:46-47 | stripping a whitespace-padded cell gives back exactly the unpadded text |
| Text.FirstToken | sub_email.py:83 | `split()[0]` is absent exactly when the name is all whitespace; otherwise it is the non-empty, space-free run that follows the leading whitespace and ends at a space or at the end |
| Text.FirstTokenOfWord | sub_email.py:83 | a word followed by whitespace or by the end is the first token of the string |
| Text.StripToken | sub_email.py:83 | the `.strip()` after `split()[0]` leaves a token unchanged |
| Calendar.BeforeIsChronological | sub_email.py:159 | Python's field-by-field comparison of datetimes (used by `sorted`) agrees with comparing elapsed microseconds, in both directions |
| Calendar.MicrosInjective | sub_email.py:155 | distinct datetimes are distinct instants, so the subtraction `a_date - today` loses nothing |
| Calendar.WeekdayOf | sub_email.py:183 | the weekday `%a` shows is Monday exactly on the days whose ordinal is 1 modulo 7, 1 January of year 1 being a Monday |
| Calendar.WeekdayRepeatsWeekly | sub_email.py:183 | two dates fall on the same weekday exactly when a whole number of weeks lies between them |
| DateFormat.ParseDateTime | sub_email.py:54 | a parsed timestamp has zero microseconds, and a string that parses begins and ends with a digit (the month first, the seconds last, nothing left over) |
| DateFormat.ParsePair | sub_email.py:53-54 | the parse of a date cell and a time cell joined by a space has zero microseconds, and succeeds only if the date cell is non-empty and starts with a digit and the time cell is non-empty and ends with a digit |
| DateFormat.ParsePairOfCells | sub_email.py:53-54 | a whole-second datetime written as an `MM/DD/YYYY` cell and an `HH:MM:SS` cell parses back to itself |
| DateFormat.Hour12 | sub_email.py:182-183 | `%I` is in 1..12 and agrees with the 24-hour hour modulo 12 |
| DateFormat.ClassDateTextShows | sub_email.py:182-186 | `%a, %dth %B at %I:%M %p` shows the weekday, the day of the month, the month and the time to the minute and nothing else: two datetimes print the same exactly when they agree on those five |
| Roster.ParseDates | sub_email.py:49-62 | succeeds exactly when the cell count is even and every pair parses, giving `|cells|/2` dates in order where entry `i` is the parse of cells `2i` and `2i+1`; fails with `UnparsableDate` exactly when some whole pair does not parse, and with `UnpairedDateCell` exactly when all whole pairs parse but one cell is left over |
| Roster.TeacherRecordOf | sub_email.py:41-62 | fails with `ShortRow` exactly when the row has fewer than two cells; on success the name and email are the first two cells stripped, there are `(|row|-2)/2` dates, and date `i` is the parse of cells `2+2i` and `3+2i`; the two date errors arise exactly as in `ParseDates`, so no partial record is ever returned |
| Roster.ReadTeacherRow | sub_email.py:41-62 | the `while` loop stepping through the cells two at a time computes `TeacherRecordOf` |
| Roster.FirstName | sub_email.py:83 | fails with `BlankName` exactly when the name has no word; otherwise returns the first whitespace-separated token |
| Schedule.KeyOf | sub_email.py:183 | the slot of a date is a valid key: a 12-hour hour in 1..12 and a minute below 60 |
| Schedule.SameKeyIffSameSlot | sub_email.py:188 | two dates look up the same timetable entry exactly when they fall on the same weekday at the same hour and minute |
| Schedule.KeyText | sub_email.py:183 | `'%a %I:%M %p'` of a slot is a 12-character string |
| Schedule.KeyTextInjective | sub_email.py:188 | distinct slots print as distinct keys, so keying the table by slot is the same as keying it by the printed text |
| Schedule.ClassSchedulesValid | sub_email.py:14-36 | every slot of the timetable is a real time of day (hour 1..12 on the twelve-hour clock, minute below 60) and has a non-empty class name |
| Schedule.KeyTextsA | sub_email.py:15-24 | the first ten slots of `ClassSchedules` print as the script's keys, "Sun 10:00 AM" to "Wed 09:00 AM" |
| Schedule.KeyTextsB | sub_email.py:25-35 | the other eleven slots print as the script's keys, "Wed 06:00 PM" to "Sat 05:00 PM" |
| Window.DaysUntil | sub_email.py:155 | `(d - now).days` is the number of whole days from `now` to `d` rounded down: the elapsed time lies in `[n, n+1)` days, and `n` is non-negative exactly when `d` is not before `now` |
| Window.InWindow | sub_email.py:155-156 | a date passes the filter exactly when `now <= d < now + 8 days` |
| Window.Kept | sub_email.py:152-157 | the dates the loop appends are exactly the input dates that pass the filter |
| Window.KeptMultiplicity | sub_email.py:152-157 | each date is kept as many times as it occurs if it passes the filter, and is otherwise dropped |
| Window.NotAfterTotalOrder | sub_email.py:159 | the datetime order is total, transitive and antisymmetric, so `sorted` has a single answer |
| Window.PotentialDates | sub_email.py:159 | the result is a permutation of the kept dates |
| Window.PotentialDatesSpec | sub_email.py:152-159 | the selection is ascending, holds each in-window date exactly as often as the input does, and holds nothing else |
| Window.PotentialDatesEmpty | sub_email.py:138 | the selection is empty exactly when no date is in the window |
| Window.PotentialDatesIgnoreOrder | sub_email.py:159 | inputs with the same dates in any order give the same selection |
| Window.AscendingIsChronological | sub_email.py:159 | an ascending selection runs forward in time |
| Window.GetPotentialDates | sub_email.py:144-159 | the loop and `sorted` give `PotentialDates`: ascending, and holding exactly the in-window dates |
| Sorting.Insert | sub_email.py:159 | inserting into a sorted sequence keeps it sorted and adds exactly one occurrence of the element |
| Sorting.Sort | sub_email.py:159 | the sort is sorted and a permutation of its input |
| Sorting.SortedUnique | sub_email.py:159 | two sorted arrangements of the same multiset are equal |
| Reminder.Recipients | sub_email.py:173 | the recipients are exactly the teacher's address followed by `from_user + "@gmail.com"` |
| Reminder.LineFor | sub_email.py:189 | a class line is as long as the date text, " for " and the class name together, starts with the date text and ends with the name the table gives the date's slot |
| Reminder.LineForShownDate | sub_email.py:186-189 | the slot looked up and the date shown agree: dates that print the same date text have the same slot and so the same line |
| Reminder.ClassLines | sub_email.py:184-193 | succeeds exactly when every date's slot is in the table, with one line per date in order, each `ClassDateText(d) + " for " + table[KeyOf(d)]`; otherwise fails with `UnknownClassSlot` for the first date whose slot is missing |
| Reminder.ClassLinesFailsAt | sub_email.py:187-193 | the first date with an unknown slot decides the error, which names the teacher and that date's text |
| Reminder.ComposeClassLines | sub_email.py:182-193 | the `yoga_classes` loop computes `ClassLines` |
| Reminder.TeacherReminder | sub_email.py:136-141 | a teacher gets nothing exactly when no date is in the window; a teacher with classes makes the run fail exactly when the name has no word (`BlankName`) or some selected slot is not in the table (`UnknownClassSlot`); otherwise the email greets by first name, goes to the teacher's address and the sender's, and has one line per selected date in ascending order |
| Reminder.Run | sub_email.py:135-141 | a run sends no more emails than there are teachers |
| Reminder.FirstFailure | sub_email.py:135-141 | every teacher before the returned position is handled without error, and the teacher at that position, if any, fails |
| Reminder.RunStopsAtFirstFailure | sub_email.py:135-141 | a run sends the emails of the teachers before the first failing one, in roster order, and ends with that teacher's error exactly when there is one |
| Reminder.EmailsToActive | sub_email.py:135-141 | where nobody fails, there is exactly one email per teacher with a class this week, in roster order, each addressed to that teacher |
| Reminder.RunSpec | sub_email.py:135-141 | a real run sends one correctly addressed email to each teacher with a class this week, in roster order, up to the first teacher on whom the script exits, and it exits exactly when such a teacher exists |
| Reminder.QuietWeek | sub_email.py:135-141 | a week in which nobody has a class sends nothing and ends normally |
| Reminder.RemindTeacher | sub_email.py:136-141 | one pass of the `Send` loop, including `_SendEmail`'s composition, computes `TeacherReminder` |
| Reminder.Send | sub_email.py:135-141 | the loop over the roster computes `Run` |
| Scenarios.WindowEdges | sub_email.py:155-156 | one second before `now` is out; `now` is in; 7 days 23:59:59 later is in; exactly 8 days later is out |
| Scenarios.SundayCells | sub_email.py:53-54 | the cells "03/02/2014" and "10:00:00" parse to 2 March 2014, 10:00 |
| Scenarios.JaneDoeRow | sub_email.py:41-62 | a padded row with one date pair becomes the record with stripped name and address and that one date |
| Scenarios.JaneFirstName | sub_email.py:83 | "Jane Doe" is greeted as "Jane" |
| Scenarios.SundayLines | sub_email.py:184-189 | the Sunday 10 am class gives the line "Sun, 02th March at 10:00 AM for Hatha - Basics" |
| Scenarios.JaneDoeReminder | sub_email.py:135-141 | with `now` on Friday 28 February 2014, the run sends one email to "jane@x.com" and "soniyoga@gmail.com" with that line, and ends normally |

## Left out

- Spreadsheet access (`AllTeachersData`, gspread login, reading rows until an empty one) is external I/O. The model starts from a row, or from a roster of records.
- SMTP connection, login and delivery are network I/O. An email is a `PlannedEmail` value, and the emails sent are the `sent` part of the outcome.
- MIME assembly, the `From`/`Cc` headers, the subject line with today's date, and the plain-text and HTML bodies are fixed templates around the modelled data. They are not modelled.
- `print`, `sys.exit` and `raw_input` are console and process control. Each exit is an `Error` value that ends the run.
- `__str__`, `__repr__` and the deep copy in `GetDates` are left out: the first two are debug formatting, and the copy is plain value semantics in Dafny.
- The clock: the script reads `datetime.today()` anew for each teacher. The model takes one `now` for the whole run, so it does not capture the window shifting while a run is in progress.
- Reminder.Send: takes the timetable as a parameter. The script always uses `CLASS_SCHEDULES`, which is `Schedule.ClassSchedules`, the table the scenarios use.
- Roster.TeacherRecordOf: takes the pair parser as a parameter. The script's parser is `DateFormat.ParsePair`, the one the scenarios use. Its properties are proved separately (`ParsePairOfCells`).
- DateFormat.ParseDateTime: the form of `%d` with a leading space ("` 5`"), which `strptime` also accepts, is not modelled; such a date cell is rejected.
- DateFormat.ClassDateText: day and month names are those of the C locale; other locales are not modelled.
- Text.Strip: `strip()` and `split()` are modelled as on byte strings, where whitespace is space, tab, newline, carriage return, vertical tab and form feed. On unicode cells Python counts further characters as whitespace, among them U+001C to U+001F, U+0085, U+00A0, U+2000 to U+200A and U+3000; a cell padded with those is not modelled.
- Schedule.ClassSchedules: keyed by slot, not by text. `KeyTextsA`, `KeyTextsB` and `KeyTextInjective` show that each slot prints as the script's key and that distinct slots print differently. There is no single lemma stating that the text-keyed and slot-keyed tables are equal.
