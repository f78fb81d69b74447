/**
 * One spreadsheet row becomes one teacher record (`TeacherData`): the
 * name, the email address and the assignment dates, read from the cells
 * after the first two as (date cell, time cell) pairs.
 */
module Roster {

  import opened Wrappers
  import opened Text
  import opened Calendar

  /** The fatal conditions of a run; each one ends the script with exit status 1. */
  datatype Error =
    | ShortRow                                              // a row without a name or an email cell
    | UnpairedDateCell(teacher: string)                     // a date cell without its time cell
    | UnparsableDate(teacher: string)                       // a pair that `strptime` rejects
    | BlankName                                             // `split()[0]` of a name with no word
    | UnknownClassSlot(teacher: string, classDate: string)  // a date at no known class time

  datatype TeacherRecord = TeacherRecord(name: string, email: string, dates: seq<Timestamp>)

  /**
   * How a (date cell, time cell) pair is read; the script's is
   * `DateFormat.ParsePair`.  It is a parameter here so that the row logic
   * is stated for any such parser.
   */
  type PairParser = (string, string) -> Option<Timestamp>

  /** Pair number `i` of the date cells, parsed. */
  function PairAt(parse: PairParser, cells: seq<string>, i: nat): Option<Timestamp>
    requires 2 * i + 1 < |cells|
  {
    parse(cells[2 * i], cells[2 * i + 1])
  }

  /** The first `count` pairs of `cells` all parse. */
  predicate PairsParse(parse: PairParser, cells: seq<string>, count: nat)
    requires 2 * count <= |cells|
  {
    forall i :: 0 <= i < count ==> PairAt(parse, cells, i).Some?
  }

  lemma PairAtAfterFirst(parse: PairParser, cells: seq<string>, i: nat)
    requires 2 * i + 3 < |cells|
    ensures PairAt(parse, cells[2..], i) == PairAt(parse, cells, i + 1)
  {
  }

  /**
   * The `while` loop of `TeacherData.__init__` as a function: the pairs of
   * `cells` parsed in order, `UnparsableDate` at the first pair that does
   * not parse, and `UnpairedDateCell` when every whole pair parses but one
   * cell is left over.
   */
  function ParseDates(parse: PairParser, cells: seq<string>, teacher: string): (r: Result<seq<Timestamp>, Error>)
    ensures r.Success? <==> |cells| % 2 == 0 && PairsParse(parse, cells, |cells| / 2)
    ensures r == Failure(UnparsableDate(teacher)) <==> !PairsParse(parse, cells, |cells| / 2)
    ensures r == Failure(UnpairedDateCell(teacher)) <==> |cells| % 2 == 1 && PairsParse(parse, cells, |cells| / 2)
    ensures r.Success? ==>
      && |r.value| == |cells| / 2
      && forall i :: 0 <= i < |r.value| ==> PairAt(parse, cells, i) == Some(r.value[i])
    decreases |cells|
  {
    if cells == [] then Success([])
    else if |cells| == 1 then Failure(UnpairedDateCell(teacher))
    else
      assert forall i :: 0 <= i < (|cells| - 2) / 2 ==> PairAt(parse, cells[2..], i) == PairAt(parse, cells, i + 1) by {
        forall i | 0 <= i < (|cells| - 2) / 2 { PairAtAfterFirst(parse, cells, i); }
      }
      match parse(cells[0], cells[1])
      case None =>
        assert PairAt(parse, cells, 0).None?;
        Failure(UnparsableDate(teacher))
      case Some(t) =>
        assert PairsParse(parse, cells, |cells| / 2) <==> PairsParse(parse, cells[2..], |cells[2..]| / 2) by {
          if PairsParse(parse, cells[2..], |cells[2..]| / 2) {
            forall i | 0 <= i < |cells| / 2 ensures PairAt(parse, cells, i).Some? {
              if i > 0 { assert PairAt(parse, cells, i) == PairAt(parse, cells[2..], i - 1); }
            }
          }
        }
        match ParseDates(parse, cells[2..], teacher)
        case Failure(e) => Failure(e)
        case Success(rest) =>
          assert forall i :: 1 <= i < 1 + |rest| ==> PairAt(parse, cells, i) == Some(([t] + rest)[i]) by {
            forall i | 1 <= i < 1 + |rest| ensures PairAt(parse, cells, i) == Some(([t] + rest)[i]) {
              assert PairAt(parse, cells, i) == PairAt(parse, cells[2..], i - 1);
            }
          }
          Success([t] + rest)
  }

  /**
   * `TeacherData(data_row)`: the first cell stripped is the name, the second
   * stripped is the email address, the rest are the date pairs.  A row
   * with fewer than two cells fails on its missing cell.
   */
  function TeacherRecordOf(parse: PairParser, row: seq<string>): (r: Result<TeacherRecord, Error>)
    ensures |row| < 2 <==> r == Failure(ShortRow)
    ensures r.Success? ==>
      && r.value.name == Strip(row[0])
      && r.value.email == Strip(row[1])
      && |r.value.dates| == (|row| - 2) / 2
      && forall i :: 0 <= i < |r.value.dates| ==> parse(row[2 + 2 * i], row[3 + 2 * i]) == Some(r.value.dates[i])
    ensures |row| >= 2 ==>
      && (r.Success? <==> |row| % 2 == 0 && PairsParse(parse, row[2..], (|row| - 2) / 2))
      && (r == Failure(UnparsableDate(Strip(row[0]))) <==> !PairsParse(parse, row[2..], (|row| - 2) / 2))
      && (r == Failure(UnpairedDateCell(Strip(row[0]))) <==> |row| % 2 == 1 && PairsParse(parse, row[2..], (|row| - 2) / 2))
  {
    if |row| < 2 then Failure(ShortRow)
    else
      var name := Strip(row[0]);
      match ParseDates(parse, row[2..], name)
      case Failure(e) => Failure(e)
      case Success(dates) =>
        assert forall i :: 0 <= i < |dates| ==> parse(row[2 + 2 * i], row[3 + 2 * i]) == PairAt(parse, row[2..], i);
        Success(TeacherRecord(name, Strip(row[1]), dates))
  }

  /**
   * `TeacherData.__init__` as the script runs it: a `while` loop over the
   * date cells, two at a time, appending each parsed pair.
   */
  method ReadTeacherRow(parse: PairParser, row: seq<string>) returns (r: Result<TeacherRecord, Error>)
    ensures r == TeacherRecordOf(parse, row)
  {
    if |row| < 2 {
      return Failure(ShortRow);
    }
    var name := Strip(row[0]);
    var email := Strip(row[1]);
    var cells := row[2..];
    var dates: seq<Timestamp> := [];
    var i := 0;
    while i < |cells|
      invariant 0 <= i <= |cells| && i % 2 == 0
      invariant |dates| == i / 2
      invariant forall k :: 0 <= k < |dates| ==> PairAt(parse, cells, k) == Some(dates[k])
      decreases |cells| - i
    {
      if i + 1 >= |cells| {
        assert PairsParse(parse, cells, |cells| / 2);
        return Failure(UnpairedDateCell(name));
      }
      var stamp := parse(cells[i], cells[i + 1]);
      if stamp.None? {
        assert PairAt(parse, cells, i / 2).None?;
        return Failure(UnparsableDate(name));
      }
      dates := dates + [stamp.value];
      i := i + 2;
    }
    assert PairsParse(parse, cells, |cells| / 2);
    var expected := ParseDates(parse, cells, name);
    assert expected.Success? && expected.value == dates;
    return Success(TeacherRecord(name, email, dates));
  }

  /**
   * `GetFirstName()`: `name.split()[0].strip()`, the first word of the
   * name; a name with no word at all makes the script fail.
   */
  function FirstName(name: string): (r: Result<string, Error>)
    ensures r.Failure? <==> AllSpace(name)
    ensures r.Failure? ==> r.error == BlankName
    ensures r.Success? ==> FirstToken(name) == Some(r.value)
  {
    match FirstToken(name)
    case None => Failure(BlankName)
    case Some(word) =>
      StripToken(word);
      Success(Strip(word))
  }
}
