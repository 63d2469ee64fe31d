/**
  `MockAPIClient.parseWorkoutData(from:)`: one record per line of the form
  "date,exercise,reps,weight"; a line that does not make a record is skipped.
  The date formatter ("MMM dd yyyy" in the current time zone) and `Double(_: String)`
  are Foundation's; they are parameters here.
 */
module Networking {
  import opened Wrappers
  import opened Calendar
  import opened Text
  import opened Models
  import opened Utils

  /**
    The record one line makes: nil when the line has fewer than four comma-separated
    fields, an empty exercise, or a date, repetition count or weight that does not parse.
   */
  function ParseLine(line: string, parseDate: string -> Option<Date>, parseDouble: string -> Option<real>)
    : (r: Option<ExerciseRecord>)
    ensures r.Some? ==> r.value.exercise != [] && !r.value.isDeleted
    ensures r.Some? ==> r.value.oneRM == CalculateOneRepMax(r.value.repetitions, r.value.weightInPounds)
    ensures r.Some? ==> IntMin <= r.value.repetitions <= IntMax
  {
    var comps := Split(line, IsComma);
    if |comps| <= 3 || comps[1] == [] then None
    else
      match (parseDate(comps[0]), ParseInt(comps[2]), parseDouble(comps[3]))
      case (Some(date), Some(reps), Some(weight)) =>
        Some(ExerciseRecord(date, comps[1], reps, weight, CalculateOneRepMax(reps, weight), false))
      case _ => None
  }

  /** The record of one line, as a sequence of at most one record. */
  function LineRecords(line: string, parseDate: string -> Option<Date>, parseDouble: string -> Option<real>)
    : seq<ExerciseRecord>
  {
    match ParseLine(line, parseDate, parseDouble)
    case Some(r) => [r]
    case None => []
  }

  /** The records the lines make, in line order. */
  function ParsedRecords(lines: seq<string>, parseDate: string -> Option<Date>, parseDouble: string -> Option<real>)
    : seq<ExerciseRecord>
    decreases |lines|
  {
    if lines == [] then []
    else
      var n := |lines| - 1;
      ParsedRecords(lines[..n], parseDate, parseDouble) + LineRecords(lines[n], parseDate, parseDouble)
  }

  method ParseWorkoutData(content: string, parseDate: string -> Option<Date>, parseDouble: string -> Option<real>)
    returns (workoutRecords: seq<ExerciseRecord>)
    ensures workoutRecords == ParsedRecords(Split(content, IsNewline), parseDate, parseDouble)
  {
    workoutRecords := [];
    var lines := Split(content, IsNewline);
    for k := 0 to |lines|
      invariant workoutRecords == ParsedRecords(lines[..k], parseDate, parseDouble)
    {
      assert lines[..k + 1][..k] == lines[..k];
      var comps := Split(lines[k], IsComma);
      if |comps| <= 3 || comps[1] == [] {
        continue;
      }
      var date := parseDate(comps[0]);
      var reps := ParseInt(comps[2]);
      var weight := parseDouble(comps[3]);
      if date.None? || reps.None? || weight.None? {
        continue;
      }
      var record := ExerciseRecord(date.value, comps[1], reps.value, weight.value,
                                   CalculateOneRepMax(reps.value, weight.value), false);
      workoutRecords := workoutRecords + [record];
    }
    assert lines[..|lines|] == lines;
  }

  /** A line is skipped exactly when one of the guard's conditions fails; skipping is silent. */
  lemma ParseLineSkips(line: string, parseDate: string -> Option<Date>, parseDouble: string -> Option<real>)
    ensures var comps := Split(line, IsComma);
      ParseLine(line, parseDate, parseDouble).None? <==>
        |comps| <= 3 || comps[1] == []
        || parseDate(comps[0]).None? || ParseInt(comps[2]).None? || parseDouble(comps[3]).None?
  {
  }

  /** A record's exercise is the line's second field verbatim; its numbers are the fields' values. */
  lemma ParseLineFields(line: string, parseDate: string -> Option<Date>, parseDouble: string -> Option<real>)
    requires ParseLine(line, parseDate, parseDouble).Some?
    ensures var comps := Split(line, IsComma); var r := ParseLine(line, parseDate, parseDouble).value;
      && |comps| >= 4
      && r.exercise == comps[1]
      && parseDate(comps[0]) == Some(r.date)
      && ParseInt(comps[2]) == Some(r.repetitions)
      && parseDouble(comps[3]) == Some(r.weightInPounds)
  {
  }

  /** Fields after the fourth are ignored: appending more of them changes nothing. */
  lemma ExtraFieldsIgnored(line: string, extra: string,
                           parseDate: string -> Option<Date>, parseDouble: string -> Option<real>)
    requires |Split(line, IsComma)| >= 4
    ensures ParseLine(line + "," + extra, parseDate, parseDouble) == ParseLine(line, parseDate, parseDouble)
  {
    SplitAppend(line, ',', extra, IsComma);
    assert line + "," + extra == line + [','] + extra;
    var comps := Split(line, IsComma);
    var more := comps + Split(extra, IsComma);
    assert more[0] == comps[0] && more[1] == comps[1] && more[2] == comps[2] && more[3] == comps[3];
  }

  /** Lines are handled one by one: the records of two runs of lines are concatenated. */
  lemma {:induction false} ParsedRecordsAppend(a: seq<string>, b: seq<string>,
                                               parseDate: string -> Option<Date>, parseDouble: string -> Option<real>)
    ensures ParsedRecords(a + b, parseDate, parseDouble)
         == ParsedRecords(a, parseDate, parseDouble) + ParsedRecords(b, parseDate, parseDouble)
    decreases |b|
  {
    if b == [] {
      assert a + b == a;
    } else {
      var n := |b| - 1;
      ParsedRecordsAppend(a, b[..n], parseDate, parseDouble);
      var ab := a + b;
      assert ab[..|ab| - 1] == a + b[..n];
      ParsedSnoc(ab, a + b[..n], b[n], parseDate, parseDouble);
      ParsedSnoc(b, b[..n], b[n], parseDate, parseDouble);
      Regroup(ParsedRecords(ab, parseDate, parseDouble), ParsedRecords(a, parseDate, parseDouble),
              ParsedRecords(b[..n], parseDate, parseDouble), LineRecords(b[n], parseDate, parseDouble),
              ParsedRecords(b, parseDate, parseDouble));
    }
  }

  /** The records of some lines are those of all but the last line, then the last line's. */
  lemma ParsedSnoc(lines: seq<string>, init: seq<string>, last: string,
                   parseDate: string -> Option<Date>, parseDouble: string -> Option<real>)
    requires lines != [] && lines[..|lines| - 1] == init && lines[|lines| - 1] == last
    ensures ParsedRecords(lines, parseDate, parseDouble)
         == ParsedRecords(init, parseDate, parseDouble) + LineRecords(last, parseDate, parseDouble)
  {
  }

  lemma Regroup<T>(all: seq<T>, x: seq<T>, y: seq<T>, z: seq<T>, yz: seq<T>)
    requires all == (x + y) + z && yz == y + z
    ensures all == x + yz
  {
  }

  /** No more records than lines. */
  lemma {:induction false} ParsedRecordsLength(lines: seq<string>,
                                               parseDate: string -> Option<Date>, parseDouble: string -> Option<real>)
    ensures |ParsedRecords(lines, parseDate, parseDouble)| <= |lines|
    decreases |lines|
  {
    if lines != [] {
      ParsedRecordsLength(lines[..|lines| - 1], parseDate, parseDouble);
    }
  }

  /** Every record comes from some line. */
  lemma {:induction false} ParsedRecordsOrigin(lines: seq<string>,
                                               parseDate: string -> Option<Date>, parseDouble: string -> Option<real>)
    ensures forall r :: r in ParsedRecords(lines, parseDate, parseDouble) ==>
      exists k :: 0 <= k < |lines| && ParseLine(lines[k], parseDate, parseDouble) == Some(r)
    decreases |lines|
  {
    if lines != [] {
      var n := |lines| - 1;
      ParsedRecordsOrigin(lines[..n], parseDate, parseDouble);
      forall r | r in ParsedRecords(lines, parseDate, parseDouble)
        ensures exists k :: 0 <= k < |lines| && ParseLine(lines[k], parseDate, parseDouble) == Some(r)
      {
        if r in ParsedRecords(lines[..n], parseDate, parseDouble) {
          var k :| 0 <= k < n && ParseLine(lines[..n][k], parseDate, parseDouble) == Some(r);
          assert lines[k] == lines[..n][k];
        } else {
          assert ParseLine(lines[n], parseDate, parseDouble) == Some(r);
        }
      }
    }
  }

  /** What a line of the data file holds, as text, before parsing. */
  datatype Row = Row(dateText: string, exercise: string, reps: int, weightText: string)

  /** The line "date,exercise,reps,weight" that stands for a row. */
  function FormatRow(row: Row): string {
    row.dateText + "," + row.exercise + "," + IntToString(row.reps) + "," + row.weightText
  }

  function FormatRows(rows: seq<Row>): (lines: seq<string>)
    ensures |lines| == |rows| && forall i :: 0 <= i < |rows| ==> lines[i] == FormatRow(rows[i])
  {
    seq(|rows|, i requires 0 <= i < |rows| => FormatRow(rows[i]))
  }

  /** A row whose fields hold no separator and whose date and weight parse. */
  predicate WellFormed(row: Row, parseDate: string -> Option<Date>, parseDouble: string -> Option<real>) {
    && Free(row.dateText, IsComma) && Free(row.exercise, IsComma) && Free(row.weightText, IsComma)
    && Free(row.dateText, IsNewline) && Free(row.exercise, IsNewline) && Free(row.weightText, IsNewline)
    && row.exercise != [] && IntMin <= row.reps <= IntMax
    && parseDate(row.dateText).Some? && parseDouble(row.weightText).Some?
  }

  /** The record a well-formed row stands for. */
  function RowRecord(row: Row, parseDate: string -> Option<Date>, parseDouble: string -> Option<real>): ExerciseRecord
    requires WellFormed(row, parseDate, parseDouble)
  {
    var weight := parseDouble(row.weightText).value;
    ExerciseRecord(parseDate(row.dateText).value, row.exercise, row.reps, weight,
                   CalculateOneRepMax(row.reps, weight), false)
  }

  lemma JoinFour(a: string, b: string, c: string, d: string)
    ensures Join([a, b, c, d], ',') == a + "," + b + "," + c + "," + d
  {
    var w := [a, b, c, d];
    assert w[1..] == [b, c, d] && w[2..] == [c, d] && w[3..] == [d];
    assert Join([c, d], ',') == c + "," + d;
    assert Join([b, c, d], ',') == b + "," + (c + "," + d);
    assert Join(w, ',') == a + "," + (b + "," + (c + "," + d));
  }

  /** A formatted well-formed row parses back to the record it stands for. */
  lemma RowRoundTrip(row: Row, parseDate: string -> Option<Date>, parseDouble: string -> Option<real>)
    requires WellFormed(row, parseDate, parseDouble)
    ensures ParseLine(FormatRow(row), parseDate, parseDouble) == Some(RowRecord(row, parseDate, parseDouble))
  {
    var fields := [row.dateText, row.exercise, IntToString(row.reps), row.weightText];
    IntToStringFree(row.reps, IsComma);
    assert forall i :: 0 <= i < |fields| ==> Free(fields[i], IsComma);
    JoinFour(fields[0], fields[1], fields[2], fields[3]);
    SplitJoin(fields, ',', IsComma);
    IntRoundTrip(row.reps);
  }

  /** A formatted row is a single line. */
  lemma RowIsOneLine(row: Row, parseDate: string -> Option<Date>, parseDouble: string -> Option<real>)
    requires WellFormed(row, parseDate, parseDouble)
    ensures Free(FormatRow(row), IsNewline)
  {
    IntToStringFree(row.reps, IsNewline);
  }

  /**
    A file of well-formed rows, one per line, parses back to their records in order
    (an empty file to none).
   */
  lemma ContentRoundTrip(rows: seq<Row>, parseDate: string -> Option<Date>, parseDouble: string -> Option<real>)
    requires forall i :: 0 <= i < |rows| ==> WellFormed(rows[i], parseDate, parseDouble)
    ensures var content := Join(FormatRows(rows), '\n');
      ParsedRecords(Split(content, IsNewline), parseDate, parseDouble)
        == RowRecords(rows, parseDate, parseDouble)
  {
    var lines := FormatRows(rows);
    if rows == [] {
      assert Split("", IsNewline) == [""];
      assert ParseLine("", parseDate, parseDouble).None? by {
        assert Split("", IsComma) == [""];
      }
      assert ParsedRecords([""], parseDate, parseDouble) == ParsedRecords([], parseDate, parseDouble);
    } else {
      forall i | 0 <= i < |lines| ensures Free(lines[i], IsNewline) {
        RowIsOneLine(rows[i], parseDate, parseDouble);
      }
      SplitJoin(lines, '\n', IsNewline);
      ParsedRows(rows, parseDate, parseDouble);
    }
  }

  /** The records of well-formed rows, in order. */
  function RowRecords(rows: seq<Row>, parseDate: string -> Option<Date>, parseDouble: string -> Option<real>)
    : (r: seq<ExerciseRecord>)
    requires forall i :: 0 <= i < |rows| ==> WellFormed(rows[i], parseDate, parseDouble)
    ensures |r| == |rows|
    decreases |rows|
  {
    if rows == [] then []
    else
      var n := |rows| - 1;
      RowRecords(rows[..n], parseDate, parseDouble) + [RowRecord(rows[n], parseDate, parseDouble)]
  }

  lemma {:induction false} ParsedRows(rows: seq<Row>, parseDate: string -> Option<Date>, parseDouble: string -> Option<real>)
    requires forall i :: 0 <= i < |rows| ==> WellFormed(rows[i], parseDate, parseDouble)
    ensures ParsedRecords(FormatRows(rows), parseDate, parseDouble) == RowRecords(rows, parseDate, parseDouble)
    decreases |rows|
  {
    if rows != [] {
      var n := |rows| - 1;
      ParsedRows(rows[..n], parseDate, parseDouble);
      RowRoundTrip(rows[n], parseDate, parseDouble);
      var lines := FormatRows(rows);
      assert lines[..n] == FormatRows(rows[..n]);
      assert lines[n] == FormatRow(rows[n]);
    }
  }
}
