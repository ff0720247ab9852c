/**
 * The acquisition loop of the reader's entry point: each line read from the
 * instrument is parsed; a record is written as one CSV row, in the writer's
 * field order; a line that fails is logged and skipped. The file, the serial
 * port and the logger are left out: the loop returns what it would write
 * and what it would log.
 */
module Acquisition {
  import opened Wrappers
  import opened TsgParser

  /** The writer's columns, in order. */
  const CsvFields: seq<string> :=
    ["scan_no", "cond", "temp", "hull_temp", "time_elapsed", "nmea_time", "latitude", "longitude"]

  const LogPrefix := "Error parsing line: "
  const LogMiddle := ". Error: "

  /** What the writer says when a record holds a key it has no column for. */
  const ExtraFieldsText := "dict contains fields not in fieldnames"

  /** The logged text for a line that could not be handled. */
  function LogLine(line: string, message: string): string {
    LogPrefix + line + LogMiddle + message
  }

  /**
   * `DictWriter.writerow`: a key outside the columns is an error; otherwise
   * one cell per column, taken from the record, empty where the key is missing.
   * An empty cell is written like None, so it is held as NoneVal.
   */
  function RowOf(d: Record): (r: Option<seq<Value>>)
    ensures r.Some? <==> forall key :: key in d ==> key in CsvFields
    ensures r.Some? ==> |r.value| == |CsvFields|
    ensures r.Some? ==> forall i :: 0 <= i < |CsvFields| ==>
      r.value[i] == if CsvFields[i] in d then d[CsvFields[i]] else NoneVal
  {
    if exists key :: key in d && key !in CsvFields then None
    else Some(seq(|CsvFields|, i requires 0 <= i < |CsvFields| =>
      if CsvFields[i] in d then d[CsvFields[i]] else NoneVal))
  }

  /** What the loop does with one line. */
  datatype Step = Row(cells: seq<Value>) | Skip | Logged(text: string)

  /**
   * One iteration, given what the parser returned for the line: write the
   * record when it is non-empty (the `if parsed_line:` guard), and log any
   * error raised on the way.
   */
  function Handle(line: string, parsed: Result<Record, LineError>): Step {
    match parsed
    case Failure(e) => Logged(LogLine(line, e.message))
    case Success(d) =>
      if |d| == 0 then Skip
      else match RowOf(d)
        case None => Logged(LogLine(line, ExtraFieldsText))
        case Some(cells) => Row(cells)
  }

  /** A line parser: `parse_tsg_line` is the one the reader uses. */
  type Parser = string -> Result<Record, LineError>

  function StepOf(line: string): Step {
    Handle(line, ParseTsgLine(line))
  }

  /** What the loop does with each of the lines, given the parser. */
  function StepsWith(parse: Parser, lines: seq<string>): (steps: seq<Step>)
    ensures |steps| == |lines|
    ensures forall i :: 0 <= i < |lines| ==> steps[i] == Handle(lines[i], parse(lines[i]))
  {
    seq(|lines|, i requires 0 <= i < |lines| => Handle(lines[i], parse(lines[i])))
  }

  /** What the loop does with each of the lines. */
  function Steps(lines: seq<string>): (steps: seq<Step>)
    ensures |steps| == |lines|
    ensures forall i :: 0 <= i < |lines| ==> steps[i] == StepOf(lines[i])
  {
    StepsWith(ParseTsgLine, lines)
  }

  /** The rows the steps write, in order. */
  function RowsOf(steps: seq<Step>): seq<seq<Value>> {
    if steps == [] then []
    else
      var last := steps[|steps| - 1];
      RowsOf(steps[..|steps| - 1]) + (if last.Row? then [last.cells] else [])
  }

  /** The error texts the steps log, in order. */
  function LogOf(steps: seq<Step>): seq<string> {
    if steps == [] then []
    else
      var last := steps[|steps| - 1];
      LogOf(steps[..|steps| - 1]) + (if last.Logged? then [last.text] else [])
  }

  function Rows(lines: seq<string>): seq<seq<Value>> {
    RowsOf(Steps(lines))
  }

  function Log(lines: seq<string>): seq<string> {
    LogOf(Steps(lines))
  }

  /** Taking one more step appends what that step writes and what it logs. */
  lemma StepAppended(steps: seq<Step>, i: nat)
    requires i < |steps|
    ensures RowsOf(steps[..i + 1]) == RowsOf(steps[..i]) + (if steps[i].Row? then [steps[i].cells] else [])
    ensures LogOf(steps[..i + 1]) == LogOf(steps[..i]) + (if steps[i].Logged? then [steps[i].text] else [])
  {
    assert steps[..i + 1][..i] == steps[..i];
  }

  /**
   * `main`: the header is written when the file is empty, then every line
   * in turn is parsed and either written or logged.
   */
  method Acquire(lines: seq<string>, fileEmpty: bool) returns (header: bool, rows: seq<seq<Value>>, log: seq<string>)
    ensures header == fileEmpty
    ensures rows == Rows(lines)
    ensures log == Log(lines)
  {
    header, rows, log := AcquireWith(ParseTsgLine, lines, fileEmpty);
  }

  /**
   * The loop of `main` for a given parser: parse each line; write the record
   * when it is non-empty; log the error of a parse or a write that fails.
   */
  method AcquireWith(parse: Parser, lines: seq<string>, fileEmpty: bool)
    returns (header: bool, rows: seq<seq<Value>>, log: seq<string>)
    ensures header == fileEmpty
    ensures rows == RowsOf(StepsWith(parse, lines))
    ensures log == LogOf(StepsWith(parse, lines))
  {
    header := fileEmpty;
    rows, log := [], [];
    ghost var steps := StepsWith(parse, lines);
    var i := 0;
    while i < |lines|
      invariant 0 <= i <= |lines|
      invariant rows == RowsOf(steps[..i])
      invariant log == LogOf(steps[..i])
    {
      var line := lines[i];
      StepAppended(steps, i);
      var parsed := parse(line);
      match parsed {
        case Failure(e) =>
          log := log + [LogLine(line, e.message)];
        case Success(d) =>
          if |d| != 0 {
            var row := RowOf(d);
            if row.Some? {
              rows := rows + [row.value];
            } else {
              log := log + [LogLine(line, ExtraFieldsText)];
            }
          }
      }
      i := i + 1;
    }
    assert steps[..|lines|] == steps;
  }

  // ----- properties -----

  /** A record with exactly the parser's keys fits the writer: its row is its values in column order. */
  lemma RecordFitsWriter(d: Record)
    requires forall key :: key in d <==> key in FieldNames
    ensures |d| != 0
    ensures RowOf(d).Some?
    ensures forall i :: 0 <= i < 8 ==> RowOf(d).value[i] == d[FieldNames[i]]
  {
    assert CsvFields == FieldNames;
    assert FieldNames[0] in d;
  }

  /** A parse result whose record, if any, has exactly the parser's keys. */
  ghost predicate WellKeyed(parsed: Result<Record, LineError>) {
    parsed.Success? ==> forall key :: key in parsed.value <==> key in FieldNames
  }

  /** Every result of the parser is well keyed. */
  lemma ParsedWellKeyed(line: string)
    ensures WellKeyed(ParseTsgLine(line))
  {
    if ParseTsgLine(line).Success? {
      LineRecord(line);
    }
  }

  /** A well-keyed result is either written or logged, never skipped. */
  lemma HandleNeverSkips(line: string, parsed: Result<Record, LineError>)
    requires WellKeyed(parsed)
    ensures Handle(line, parsed).Row? <==> parsed.Success?
    ensures Handle(line, parsed).Logged? <==> parsed.Failure?
    ensures parsed.Success? ==> Handle(line, parsed).cells == RowOf(parsed.value).value
    ensures parsed.Failure? ==> Handle(line, parsed).text == LogPrefix + line + LogMiddle + parsed.error.message
  {
    if parsed.Success? {
      RecordFitsWriter(parsed.value);
    }
  }

  /** No line is skipped silently: a line is either written or logged, with its error. */
  lemma NeverSkips(line: string)
    ensures StepOf(line).Row? <==> ParseTsgLine(line).Success?
    ensures StepOf(line).Logged? <==> ParseTsgLine(line).Failure?
    ensures ParseTsgLine(line).Success? ==> StepOf(line).cells == RowOf(ParseTsgLine(line).value).value
    ensures ParseTsgLine(line).Failure? ==>
      StepOf(line).text == LogPrefix + line + LogMiddle + ParseTsgLine(line).error.message
  {
    ParsedWellKeyed(line);
    HandleNeverSkips(line, ParseTsgLine(line));
  }

  /** Steps none of which is a skip write or log once each. */
  lemma {:induction false} StepsCounted(steps: seq<Step>)
    requires forall i :: 0 <= i < |steps| ==> !steps[i].Skip?
    ensures |RowsOf(steps)| + |LogOf(steps)| == |steps|
  {
    if steps != [] {
      StepsCounted(steps[..|steps| - 1]);
    }
  }

  /** Steps that all write give their rows, in order, and log nothing. */
  lemma {:induction false} AllRows(steps: seq<Step>)
    requires forall i :: 0 <= i < |steps| ==> steps[i].Row?
    ensures |RowsOf(steps)| == |steps| && LogOf(steps) == []
    ensures forall i :: 0 <= i < |steps| ==> steps[i] == Row(RowsOf(steps)[i])
  {
    if steps != [] {
      var n := |steps| - 1;
      var pre := steps[..n];
      assert forall i :: 0 <= i < |pre| ==> pre[i].Row? by {
        forall i | 0 <= i < |pre| ensures pre[i].Row? {
          assert pre[i] == steps[i];
        }
      }
      AllRows(pre);
      assert RowsOf(steps) == RowsOf(pre) + [steps[n].cells];
      forall i | 0 <= i < |steps| ensures steps[i] == Row(RowsOf(steps)[i]) {
        if i < n {
          assert steps[i] == pre[i];
        }
      }
    }
  }

  /** Steps that all log give their texts, in order, and write nothing. */
  lemma {:induction false} AllLogged(steps: seq<Step>)
    requires forall i :: 0 <= i < |steps| ==> steps[i].Logged?
    ensures RowsOf(steps) == [] && |LogOf(steps)| == |steps|
    ensures forall i :: 0 <= i < |steps| ==> steps[i] == Logged(LogOf(steps)[i])
  {
    if steps != [] {
      var n := |steps| - 1;
      var pre := steps[..n];
      assert forall i :: 0 <= i < |pre| ==> pre[i].Logged? by {
        forall i | 0 <= i < |pre| ensures pre[i].Logged? {
          assert pre[i] == steps[i];
        }
      }
      AllLogged(pre);
      assert LogOf(steps) == LogOf(pre) + [steps[n].text];
      forall i | 0 <= i < |steps| ensures steps[i] == Logged(LogOf(steps)[i]) {
        if i < n {
          assert steps[i] == pre[i];
        }
      }
    }
  }

  /** Every line is accounted for once: rows written plus errors logged is the number of lines. */
  lemma EveryLineCounted(lines: seq<string>)
    ensures |Rows(lines)| + |Log(lines)| == |lines|
  {
    forall i | 0 <= i < |lines|
      ensures !StepOf(lines[i]).Skip?
    {
      NeverSkips(lines[i]);
    }
    StepsCounted(Steps(lines));
  }

  /** When every line parses, every line is written, in order, and nothing is logged. */
  lemma AllValidAllWritten(lines: seq<string>)
    requires forall i :: 0 <= i < |lines| ==> ParseTsgLine(lines[i]).Success?
    ensures |Rows(lines)| == |lines|
    ensures Log(lines) == []
    ensures forall i :: 0 <= i < |lines| ==> StepOf(lines[i]) == Row(Rows(lines)[i])
  {
    forall i | 0 <= i < |lines|
      ensures StepOf(lines[i]).Row?
    {
      NeverSkips(lines[i]);
    }
    AllRows(Steps(lines));
  }

  /** When no line parses, nothing is written and each line is logged with its error. */
  lemma AllInvalidNoneWritten(lines: seq<string>)
    requires forall i :: 0 <= i < |lines| ==> ParseTsgLine(lines[i]).Failure?
    ensures Rows(lines) == []
    ensures |Log(lines)| == |lines|
    ensures forall i :: 0 <= i < |lines| ==> StepOf(lines[i]) == Logged(Log(lines)[i])
  {
    forall i | 0 <= i < |lines|
      ensures StepOf(lines[i]).Logged?
    {
      NeverSkips(lines[i]);
    }
    AllLogged(Steps(lines));
  }
}
