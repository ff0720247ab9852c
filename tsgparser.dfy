/**
 * `parse_tsg_line`: one whitespace-delimited line of thermosalinograph
 * output becomes a record of eight named fields, or the line is rejected
 * with a single kind of error, "Error parsing TSG line: ...", that carries
 * the underlying cause.
 *
 * Accepted lines hold 4 or 8 fields:
 *   scan_no cond temp hull_temp [time_elapsed nmea_time latitude longitude]
 * `scan_no` and `nmea_time` are integers (`nmea_time` a Unix epoch in
 * seconds), the others floats. A 4-field line leaves the last four fields
 * present but without a value.
 */
module TsgParser {
  import opened Wrappers
  import opened Tokenize
  import opened Numeric

  /** A value of the record: an int, a float, a timestamp, or Python's None. */
  datatype Value = IntVal(i: int) | FloatVal(f: Float) | Timestamp(epoch: int) | NoneVal

  /** The dict the parser returns: field name to value. */
  type Record = map<string, Value>

  /** The eight keys of every record, in the order of the line's fields. */
  const FieldNames: seq<string> :=
    ["scan_no", "cond", "temp", "hull_temp", "time_elapsed", "nmea_time", "latitude", "longitude"]

  /** What went wrong inside the parser: the original exception. */
  datatype Cause =
    | WrongFieldCount(got: nat)   // raised by the count check
    | NotAnInt(token: string)     // ValueError from int()
    | NotAFloat(token: string)    // ValueError from float()

  /** The error the parser raises: its text, and the cause it is chained from. */
  datatype LineError = LineError(message: string, cause: Cause)

  const ErrorPrefix := "Error parsing TSG line: "
  const CountText := "Expected 4 or 8 fields, got "
  const IntText := "invalid literal for int() with base 10: "
  const FloatText := "could not convert string to float: "

  /** A token as Python's repr() shows it, simplified to single quotes. */
  function Quote(t: string): (q: string)
    ensures |q| == |t| + 2
    ensures q[0] == '\'' && q[|q| - 1] == '\''
    ensures q[1..|q| - 1] == t
  {
    "'" + t + "'"
  }

  /** How many characters of the token's repr the `int()` error keeps (its `%.200R`). */
  const ReprLimit := 200

  /** The repr in the `int()` error: cut after its first ReprLimit characters. */
  function IntRepr(t: string): (r: string)
    ensures r <= Quote(t)
    ensures |r| == if |t| + 2 <= ReprLimit then |t| + 2 else ReprLimit
  {
    var q := Quote(t);
    if |q| <= ReprLimit then q else q[..ReprLimit]
  }

  /** `str(e)` of the cause. The `float()` error shows the whole repr. */
  function Describe(c: Cause): string {
    match c
    case WrongFieldCount(n) => CountText + IntToString(n)
    case NotAnInt(t) => IntText + IntRepr(t)
    case NotAFloat(t) => FloatText + Quote(t)
  }

  /** The `except` clause: re-raise as one error kind, prefixed, chained to the cause. */
  function Wrap(c: Cause): LineError {
    LineError(ErrorPrefix + Describe(c), c)
  }

  /** `int(token)`. */
  function ToInt(token: string): Result<int, Cause> {
    match ParseInt(token)
    case Some(n) => Success(n)
    case None => Failure(NotAnInt(token))
  }

  /** `float(token)`. */
  function ToFloat(token: string): Result<Float, Cause> {
    match ParseFloat(token)
    case Some(x) => Success(x)
    case None => Failure(NotAFloat(token))
  }

  /**
   * The body of the `try`: the field-count check, then the conversions in
   * the order the dict literal and the update evaluate them.
   */
  function ParseFields(fields: seq<string>): Result<Record, Cause> {
    if |fields| != 4 && |fields| != 8 then Failure(WrongFieldCount(|fields|))
    else
      var scanNo :- ToInt(fields[0]);
      var cond :- ToFloat(fields[1]);
      var temp :- ToFloat(fields[2]);
      var hullTemp :- ToFloat(fields[3]);
      var result := map[
        "scan_no" := IntVal(scanNo),
        "cond" := FloatVal(cond),
        "temp" := FloatVal(temp),
        "hull_temp" := FloatVal(hullTemp),
        "time_elapsed" := NoneVal,
        "nmea_time" := NoneVal,
        "latitude" := NoneVal,
        "longitude" := NoneVal];
      if |fields| == 8 then
        var timeElapsed :- ToFloat(fields[4]);
        var epoch :- ToInt(fields[5]);
        var latitude :- ToFloat(fields[6]);
        var longitude :- ToFloat(fields[7]);
        Success(result + map[
          "time_elapsed" := FloatVal(timeElapsed),
          "nmea_time" := Timestamp(epoch),
          "latitude" := FloatVal(latitude),
          "longitude" := FloatVal(longitude)])
      else
        Success(result)
  }

  /** `parse_tsg_line(line)`. */
  function ParseTsgLine(line: string): Result<Record, LineError> {
    match ParseFields(Split(Strip(line)))
    case Success(r) => Success(r)
    case Failure(c) => Failure(Wrap(c))
  }

  // ----- a reference description of the fields, slot by slot -----

  /** How the token in position i decodes on its own: positions 0 and 5 are ints, the rest floats. */
  function Slot(i: nat, token: string): Result<Value, Cause>
    requires i < 8
  {
    if i == 0 then
      (match ToInt(token) case Success(n) => Success(IntVal(n)) case Failure(c) => Failure(c))
    else if i == 5 then
      (match ToInt(token) case Success(n) => Success(Timestamp(n)) case Failure(c) => Failure(c))
    else
      (match ToFloat(token) case Success(x) => Success(FloatVal(x)) case Failure(c) => Failure(c))
  }

  /** Every one of the (at most eight) tokens decodes in its position. */
  predicate AllSlotsDecode(toks: seq<string>)
    requires |toks| <= 8
  {
    forall i :: 0 <= i < |toks| ==> Slot(i, toks[i]).Success?
  }

  /** Position k is the first whose token does not decode. */
  predicate FirstBadSlot(toks: seq<string>, k: nat)
    requires |toks| <= 8
  {
    && k < |toks|
    && Slot(k, toks[k]).Failure?
    && forall j :: 0 <= j < k ==> Slot(j, toks[j]).Success?
  }

  /** The record a line of well-formed fields denotes: absent fields hold None. */
  ghost predicate Denotes(d: Record, toks: seq<string>)
    requires |toks| <= 8 && AllSlotsDecode(toks)
  {
    && (forall key :: key in d <==> key in FieldNames)
    && forall i :: 0 <= i < 8 ==>
         d[FieldNames[i]] == if i < |toks| then Slot(i, toks[i]).value else NoneVal
  }

  // ----- properties of ParseFields -----

  /** The count is checked before any token is converted. */
  lemma CountCheckedFirst(fields: seq<string>)
    requires |fields| != 4 && |fields| != 8
    ensures ParseFields(fields) == Failure(WrongFieldCount(|fields|))
  {
  }

  /** A record with one value per field name. */
  function RecordOf(v: seq<Value>): (d: Record)
    requires |v| == 8
    ensures forall key :: key in d <==> key in FieldNames
    ensures forall i :: 0 <= i < 8 ==> d[FieldNames[i]] == v[i]
  {
    map[
      "scan_no" := v[0], "cond" := v[1], "temp" := v[2], "hull_temp" := v[3],
      "time_elapsed" := v[4], "nmea_time" := v[5], "latitude" := v[6], "longitude" := v[7]]
  }

  /** The dict literal of the parser, and the literal after its update, are records of their values. */
  lemma LiteralIsRecord(a: Value, b: Value, c: Value, d: Value, e: Value, f: Value, g: Value, h: Value)
    ensures map[
        "scan_no" := a, "cond" := b, "temp" := c, "hull_temp" := d,
        "time_elapsed" := NoneVal, "nmea_time" := NoneVal, "latitude" := NoneVal, "longitude" := NoneVal]
      == RecordOf([a, b, c, d, NoneVal, NoneVal, NoneVal, NoneVal])
    ensures map[
        "scan_no" := a, "cond" := b, "temp" := c, "hull_temp" := d,
        "time_elapsed" := NoneVal, "nmea_time" := NoneVal, "latitude" := NoneVal, "longitude" := NoneVal]
      + map["time_elapsed" := e, "nmea_time" := f, "latitude" := g, "longitude" := h]
      == RecordOf([a, b, c, d, e, f, g, h])
  {
    MergeFour("scan_no", "cond", "temp", "hull_temp", "time_elapsed", "nmea_time", "latitude", "longitude",
      a, b, c, d, NoneVal, e, f, g, h);
  }

  /** Updating the last four keys of an eight-key map literal is writing them in the literal. */
  lemma MergeFour<K, V>(k0: K, k1: K, k2: K, k3: K, k4: K, k5: K, k6: K, k7: K,
                        a: V, b: V, c: V, d: V, n: V, e: V, f: V, g: V, h: V)
    ensures map[k0 := a, k1 := b, k2 := c, k3 := d, k4 := n, k5 := n, k6 := n, k7 := n]
      + map[k4 := e, k5 := f, k6 := g, k7 := h]
      == map[k0 := a, k1 := b, k2 := c, k3 := d, k4 := e, k5 := f, k6 := g, k7 := h]
  {
  }

  /** A 4-field line is accepted exactly when each of its tokens decodes in its position. */
  lemma FourFieldsAccepted(fields: seq<string>)
    requires |fields| == 4
    ensures ParseFields(fields).Success? <==> AllSlotsDecode(fields)
  {
    var ok := ToInt(fields[0]).Success? && ToFloat(fields[1]).Success? && ToFloat(fields[2]).Success?
      && ToFloat(fields[3]).Success?;
    assert ParseFields(fields).Success? <==> ok;
    assert AllSlotsDecode(fields) <==> ok by {
      if ok {
        forall i | 0 <= i < 4 ensures Slot(i, fields[i]).Success? {
          assert i == 0 || i == 1 || i == 2 || i == 3;
        }
      }
    }
  }

  /** The value of an accepted 4-field line: the dict literal, None in the last four fields. */
  lemma FourFieldsValue(fields: seq<string>)
    requires |fields| == 4
    requires ToInt(fields[0]).Success? && ToFloat(fields[1]).Success? && ToFloat(fields[2]).Success?
    requires ToFloat(fields[3]).Success?
    ensures ParseFields(fields) == Success(RecordOf([
      IntVal(ToInt(fields[0]).value), FloatVal(ToFloat(fields[1]).value),
      FloatVal(ToFloat(fields[2]).value), FloatVal(ToFloat(fields[3]).value),
      NoneVal, NoneVal, NoneVal, NoneVal]))
  {
    var a, b, c, d := IntVal(ToInt(fields[0]).value), FloatVal(ToFloat(fields[1]).value),
      FloatVal(ToFloat(fields[2]).value), FloatVal(ToFloat(fields[3]).value);
    assert ParseFields(fields) == Success(map[
        "scan_no" := a, "cond" := b, "temp" := c, "hull_temp" := d,
        "time_elapsed" := NoneVal, "nmea_time" := NoneVal, "latitude" := NoneVal, "longitude" := NoneVal]);
    LiteralIsRecord(a, b, c, d, NoneVal, NoneVal, NoneVal, NoneVal);
  }

  /** An accepted 4-field line gives tokens 0..3 decoded and None in the other four fields. */
  lemma FourFieldsRecord(fields: seq<string>)
    requires |fields| == 4 && AllSlotsDecode(fields)
    ensures ParseFields(fields).Success?
    ensures Denotes(ParseFields(fields).value, fields)
  {
    assert Slot(0, fields[0]).Success? && Slot(1, fields[1]).Success? && Slot(2, fields[2]).Success?;
    assert Slot(3, fields[3]).Success?;
    FourFieldsValue(fields);
    SlotValues(fields);
    PaddedDenotes(fields, IntVal(ToInt(fields[0]).value), FloatVal(ToFloat(fields[1]).value),
      FloatVal(ToFloat(fields[2]).value), FloatVal(ToFloat(fields[3]).value));
  }

  /** Four decoded values padded with four Nones denote the four fields they came from. */
  lemma PaddedDenotes(fields: seq<string>, a: Value, b: Value, c: Value, x: Value)
    requires |fields| == 4 && AllSlotsDecode(fields)
    requires Slot(0, fields[0]).value == a && Slot(1, fields[1]).value == b
    requires Slot(2, fields[2]).value == c && Slot(3, fields[3]).value == x
    ensures Denotes(RecordOf([a, b, c, x, NoneVal, NoneVal, NoneVal, NoneVal]), fields)
  {
    var w := [a, b, c, x, NoneVal, NoneVal, NoneVal, NoneVal];
    forall i | 0 <= i < 8 ensures w[i] == if i < 4 then Slot(i, fields[i]).value else NoneVal {
      assert i == 0 || i == 1 || i == 2 || i == 3 || i == 4 || i == 5 || i == 6 || i == 7;
    }
    RecordDenotes(w, fields);
  }

  /** The values of the first four slots, as the conversions give them. */
  lemma SlotValues(fields: seq<string>)
    requires 4 <= |fields| <= 8
    requires Slot(0, fields[0]).Success? && Slot(1, fields[1]).Success?
    requires Slot(2, fields[2]).Success? && Slot(3, fields[3]).Success?
    ensures ToInt(fields[0]).Success? && Slot(0, fields[0]).value == IntVal(ToInt(fields[0]).value)
    ensures ToFloat(fields[1]).Success? && Slot(1, fields[1]).value == FloatVal(ToFloat(fields[1]).value)
    ensures ToFloat(fields[2]).Success? && Slot(2, fields[2]).value == FloatVal(ToFloat(fields[2]).value)
    ensures ToFloat(fields[3]).Success? && Slot(3, fields[3]).value == FloatVal(ToFloat(fields[3]).value)
  {
  }

  /** An 8-field line is accepted exactly when each of its tokens decodes in its position. */
  lemma EightFieldsAccepted(fields: seq<string>)
    requires |fields| == 8
    ensures ParseFields(fields).Success? <==> AllSlotsDecode(fields)
  {
    var ok := ToInt(fields[0]).Success? && ToFloat(fields[1]).Success? && ToFloat(fields[2]).Success?
      && ToFloat(fields[3]).Success? && ToFloat(fields[4]).Success? && ToInt(fields[5]).Success?
      && ToFloat(fields[6]).Success? && ToFloat(fields[7]).Success?;
    assert ParseFields(fields).Success? <==> ok;
    assert AllSlotsDecode(fields) <==> ok by {
      if ok {
        forall i | 0 <= i < 8 ensures Slot(i, fields[i]).Success? {
          assert i == 0 || i == 1 || i == 2 || i == 3 || i == 4 || i == 5 || i == 6 || i == 7;
        }
      }
    }
  }

  /** The value of an accepted 8-field line: the dict literal updated with the last four fields. */
  lemma EightFieldsValue(fields: seq<string>)
    requires |fields| == 8
    requires ToInt(fields[0]).Success? && ToFloat(fields[1]).Success? && ToFloat(fields[2]).Success?
    requires ToFloat(fields[3]).Success? && ToFloat(fields[4]).Success? && ToInt(fields[5]).Success?
    requires ToFloat(fields[6]).Success? && ToFloat(fields[7]).Success?
    ensures ParseFields(fields) == Success(RecordOf([
      IntVal(ToInt(fields[0]).value), FloatVal(ToFloat(fields[1]).value),
      FloatVal(ToFloat(fields[2]).value), FloatVal(ToFloat(fields[3]).value),
      FloatVal(ToFloat(fields[4]).value), Timestamp(ToInt(fields[5]).value),
      FloatVal(ToFloat(fields[6]).value), FloatVal(ToFloat(fields[7]).value)]))
  {
    var a, b, c, d := IntVal(ToInt(fields[0]).value), FloatVal(ToFloat(fields[1]).value),
      FloatVal(ToFloat(fields[2]).value), FloatVal(ToFloat(fields[3]).value);
    var e, f, g, h := FloatVal(ToFloat(fields[4]).value), Timestamp(ToInt(fields[5]).value),
      FloatVal(ToFloat(fields[6]).value), FloatVal(ToFloat(fields[7]).value);
    assert ParseFields(fields) == Success(map[
        "scan_no" := a, "cond" := b, "temp" := c, "hull_temp" := d,
        "time_elapsed" := NoneVal, "nmea_time" := NoneVal, "latitude" := NoneVal, "longitude" := NoneVal]
      + map["time_elapsed" := e, "nmea_time" := f, "latitude" := g, "longitude" := h]);
    LiteralIsRecord(a, b, c, d, e, f, g, h);
  }

  /** An accepted 8-field line gives all eight tokens decoded, in order. */
  lemma EightFieldsRecord(fields: seq<string>)
    requires |fields| == 8 && AllSlotsDecode(fields)
    ensures ParseFields(fields).Success?
    ensures Denotes(ParseFields(fields).value, fields)
  {
    assert Slot(0, fields[0]).Success? && Slot(1, fields[1]).Success? && Slot(2, fields[2]).Success?;
    assert Slot(3, fields[3]).Success? && Slot(4, fields[4]).Success? && Slot(5, fields[5]).Success?;
    assert Slot(6, fields[6]).Success? && Slot(7, fields[7]).Success?;
    EightFieldsValue(fields);
    var w := [
      IntVal(ToInt(fields[0]).value), FloatVal(ToFloat(fields[1]).value),
      FloatVal(ToFloat(fields[2]).value), FloatVal(ToFloat(fields[3]).value),
      FloatVal(ToFloat(fields[4]).value), Timestamp(ToInt(fields[5]).value),
      FloatVal(ToFloat(fields[6]).value), FloatVal(ToFloat(fields[7]).value)];
    forall i | 0 <= i < 8 ensures w[i] == Slot(i, fields[i]).value {
      assert i == 0 || i == 1 || i == 2 || i == 3 || i == 4 || i == 5 || i == 6 || i == 7;
    }
    RecordDenotes(w, fields);
  }

  lemma RecordDenotes(w: seq<Value>, toks: seq<string>)
    requires |w| == 8 && |toks| <= 8 && AllSlotsDecode(toks)
    requires forall i :: 0 <= i < 8 ==> w[i] == if i < |toks| then Slot(i, toks[i]).value else NoneVal
    ensures Denotes(RecordOf(w), toks)
  {
  }

  /** A rejected 4-field line is rejected for its first token that does not decode. */
  lemma FourFieldsFirstError(fields: seq<string>)
    requires |fields| == 4 && ParseFields(fields).Failure?
    ensures exists k: nat :: FirstBadSlot(fields, k) && ParseFields(fields).error == Slot(k, fields[k]).error
  {
    assert Slot(0, fields[0]).Failure? || Slot(1, fields[1]).Failure? || Slot(2, fields[2]).Failure?
      || Slot(3, fields[3]).Failure? by {
      FourFieldsAccepted(fields);
    }
    var k: nat :=
      if Slot(0, fields[0]).Failure? then 0
      else if Slot(1, fields[1]).Failure? then 1
      else if Slot(2, fields[2]).Failure? then 2
      else 3;
    assert FirstBadSlot(fields, k) by {
      forall j | 0 <= j < k ensures Slot(j, fields[j]).Success? {
        assert j == 0 || j == 1 || j == 2;
      }
    }
    assert ParseFields(fields).error == Slot(k, fields[k]).error;
  }

  /** A rejected 8-field line is rejected for its first token that does not decode. */
  lemma EightFieldsFirstError(fields: seq<string>)
    requires |fields| == 8 && ParseFields(fields).Failure?
    ensures exists k: nat :: FirstBadSlot(fields, k) && ParseFields(fields).error == Slot(k, fields[k]).error
  {
    assert Slot(0, fields[0]).Failure? || Slot(1, fields[1]).Failure? || Slot(2, fields[2]).Failure?
      || Slot(3, fields[3]).Failure? || Slot(4, fields[4]).Failure? || Slot(5, fields[5]).Failure?
      || Slot(6, fields[6]).Failure? || Slot(7, fields[7]).Failure? by {
      EightFieldsAccepted(fields);
    }
    var k: nat :=
      if Slot(0, fields[0]).Failure? then 0
      else if Slot(1, fields[1]).Failure? then 1
      else if Slot(2, fields[2]).Failure? then 2
      else if Slot(3, fields[3]).Failure? then 3
      else if Slot(4, fields[4]).Failure? then 4
      else if Slot(5, fields[5]).Failure? then 5
      else if Slot(6, fields[6]).Failure? then 6
      else 7;
    assert FirstBadSlot(fields, k) by {
      forall j | 0 <= j < k ensures Slot(j, fields[j]).Success? {
        assert j == 0 || j == 1 || j == 2 || j == 3 || j == 4 || j == 5 || j == 6;
      }
    }
    assert ParseFields(fields).error == Slot(k, fields[k]).error;
  }

  // ----- properties of parse_tsg_line -----

  /** A line whose field count is not 4 or 8 fails with the count error, whatever its tokens are. */
  lemma LineCountChecked(line: string)
    requires |Split(line)| != 4 && |Split(line)| != 8
    ensures ParseTsgLine(line) == Failure(Wrap(WrongFieldCount(|Split(line)|)))
  {
    SplitStrip(line);
  }

  /** A line is accepted exactly when it has 4 or 8 fields and each decodes in its position. */
  lemma LineAccepted(line: string)
    ensures ParseTsgLine(line).Success? <==>
      (|Split(line)| == 4 || |Split(line)| == 8) && AllSlotsDecode(Split(line))
  {
    SplitStrip(line);
    var fields := Split(line);
    if |fields| == 4 {
      FourFieldsAccepted(fields);
    } else if |fields| == 8 {
      EightFieldsAccepted(fields);
    }
  }

  /**
   * Every accepted line gives a record with exactly the eight keys, the
   * line's tokens decoded in order, and None for the fields a short line lacks.
   */
  lemma LineRecord(line: string)
    requires ParseTsgLine(line).Success?
    ensures |Split(line)| == 4 || |Split(line)| == 8
    ensures AllSlotsDecode(Split(line))
    ensures Denotes(ParseTsgLine(line).value, Split(line))
  {
    LineAccepted(line);
    SplitStrip(line);
    var fields := Split(line);
    if |fields| == 4 {
      FourFieldsRecord(fields);
    } else {
      EightFieldsRecord(fields);
    }
  }

  /**
   * Every rejected line raises the one error kind, prefixed and chained to its
   * cause; the cause is the count when the count is wrong, and otherwise the
   * first token that does not decode.
   */
  lemma LineRejected(line: string)
    requires ParseTsgLine(line).Failure?
    ensures ParseTsgLine(line).error == Wrap(ParseTsgLine(line).error.cause)
    ensures Contains(ParseTsgLine(line).error.message, "Error parsing TSG line")
    ensures |Split(line)| != 4 && |Split(line)| != 8 ==>
      ParseTsgLine(line).error.cause == WrongFieldCount(|Split(line)|)
    ensures |Split(line)| == 4 || |Split(line)| == 8 ==>
      exists k: nat :: FirstBadSlot(Split(line), k) && ParseTsgLine(line).error.cause == Slot(k, Split(line)[k]).error
  {
    SplitStrip(line);
    var fields := Split(line);
    if |fields| == 4 {
      FourFieldsFirstError(fields);
    } else if |fields| == 8 {
      EightFieldsFirstError(fields);
    }
    WrapNamesParser(ParseTsgLine(line).error.cause);
  }

  /** A line of a valid count whose scan number is no integer fails on the scan number. */
  lemma BadScanNo(line: string)
    requires |Split(line)| == 4 || |Split(line)| == 8
    requires ParseInt(Split(line)[0]).None?
    ensures ParseTsgLine(line) == Failure(Wrap(NotAnInt(Split(line)[0])))
  {
    LineAccepted(line);
    LineRejected(line);
    var k: nat :| FirstBadSlot(Split(line), k) && ParseTsgLine(line).error.cause == Slot(k, Split(line)[k]).error;
    assert k == 0;
  }

  /** Only the fields matter: the same fields laid out with any whitespace parse alike. */
  lemma WhitespaceInsensitive(toks: seq<string>, gaps1: seq<string>, gaps2: seq<string>)
    requires forall i :: 0 <= i < |toks| ==> IsToken(toks[i])
    requires ValidGaps(toks, gaps1) && ValidGaps(toks, gaps2)
    ensures ParseTsgLine(Layout(toks, gaps1)) == ParseTsgLine(Layout(toks, gaps2))
  {
    SplitLayout(toks, gaps1);
    SplitLayout(toks, gaps2);
    SplitStrip(Layout(toks, gaps1));
    SplitStrip(Layout(toks, gaps2));
  }

  // ----- the error text -----

  /** Python's `sub in s` on strings. */
  ghost predicate Contains(s: string, sub: string) {
    exists i :: 0 <= i <= |s| && sub <= s[i..]
  }

  /** Every error the parser raises reads "Error parsing TSG line". */
  lemma WrapNamesParser(c: Cause)
    ensures Contains(Wrap(c).message, "Error parsing TSG line")
  {
    var m := Wrap(c).message;
    assert m[0..] == m;
    assert m[..|ErrorPrefix|] == ErrorPrefix;
    assert "Error parsing TSG line" <= ErrorPrefix;
  }

  /** The count error names the count: the text after its fixed words reads back as the number. */
  lemma CountMessageNamesCount(n: nat)
    ensures var m := Wrap(WrongFieldCount(n)).message; var k := |ErrorPrefix + CountText|;
      && k <= |m|
      && m[..k] == ErrorPrefix + CountText
      && ParseInt(m[k..]) == Some(n)
      && Contains(m, "Expected 4 or 8 fields")
  {
    var m := Wrap(WrongFieldCount(n)).message;
    var x := IntToString(n);
    assert m == ErrorPrefix + (CountText + x);
    ReadBehind(ErrorPrefix, CountText, x, m);
    IntRoundTrip(n);
    CountTextNamesCount();
    PhraseWithin(ErrorPrefix, CountText, x, m, "Expected 4 or 8 fields");
  }

  lemma CountTextNamesCount()
    ensures "Expected 4 or 8 fields" <= CountText
  {
  }

  /** `p + (c + x)` read back: the fixed part `p + c`, then `x`. */
  lemma ReadBehind(p: string, c: string, x: string, m: string)
    requires m == p + (c + x)
    ensures |p + c| <= |m| && m[..|p + c|] == p + c && m[|p + c|..] == x
  {
    Regroup(p, c, x);
    Halves(p + c, x);
  }

  /** A phrase that starts `c` is in `p + (c + x)`. */
  lemma PhraseWithin(p: string, c: string, x: string, m: string, w: string)
    requires m == p + (c + x) && w <= c
    ensures Contains(m, w)
  {
    Halves(p, c + x);
    PrefixOfLonger(w, c, x);
    ContainsAt(m, w, |p|);
  }

  lemma Regroup(a: string, b: string, c: string)
    ensures a + (b + c) == (a + b) + c
  {
  }

  /** A concatenation taken apart at the seam. */
  lemma Halves(p: string, x: string)
    ensures (p + x)[..|p|] == p && (p + x)[|p|..] == x
  {
  }

  lemma PrefixOfLonger(a: string, b: string, c: string)
    requires a <= b
    ensures a <= b + c
  {
  }

  lemma ContainsAt(s: string, sub: string, i: nat)
    requires i <= |s| && sub <= s[i..]
    ensures Contains(s, sub)
  {
  }

  /** Equal texts behind the same prefix are equal. */
  lemma PrefixCancel(p: string, x: string, y: string)
    requires p + x == p + y
    ensures x == y
  {
    Halves(p, x);
    Halves(p, y);
  }

  /** Distinct tokens are quoted distinctly. */
  lemma QuoteInjective(t1: string, t2: string)
    requires Quote(t1) == Quote(t2)
    ensures t1 == t2
  {
    assert t1 == Quote(t1)[1..|Quote(t1)| - 1];
    assert t2 == Quote(t2)[1..|Quote(t2)| - 1];
  }

  /** The three kinds of cause begin their text with three different letters. */
  lemma DescribeHead(c: Cause)
    ensures |Describe(c)| > 0
    ensures Describe(c)[0] == if c.WrongFieldCount? then 'E' else if c.NotAnInt? then 'i' else 'c'
  {
    match c
    case WrongFieldCount(n) => Halves(CountText, IntToString(n));
    case NotAnInt(t) => Halves(IntText, IntRepr(t));
    case NotAFloat(t) => Halves(FloatText, Quote(t));
  }

  /**
   * The error text determines its cause: count errors, int errors and float
   * errors never read alike. An int token must be short enough for its repr
   * to be shown whole.
   */
  lemma MessageDeterminesCause(c1: Cause, c2: Cause)
    requires c1.NotAnInt? ==> |c1.token| + 2 <= ReprLimit
    requires c2.NotAnInt? ==> |c2.token| + 2 <= ReprLimit
    requires Wrap(c1).message == Wrap(c2).message
    ensures c1 == c2
  {
    PrefixCancel(ErrorPrefix, Describe(c1), Describe(c2));
    DescribeHead(c1);
    DescribeHead(c2);
    match c1
    case WrongFieldCount(n1) =>
      PrefixCancel(CountText, IntToString(n1), IntToString(c2.got));
      IntToStringInjective(n1, c2.got);
    case NotAnInt(t1) =>
      PrefixCancel(IntText, IntRepr(t1), IntRepr(c2.token));
      QuoteInjective(t1, c2.token);
    case NotAFloat(t1) =>
      PrefixCancel(FloatText, Quote(t1), Quote(c2.token));
      QuoteInjective(t1, c2.token);
  }

  /**
   * Past the cut the `int()` error no longer tells tokens apart: two tokens
   * that agree on their first ReprLimit - 1 characters give the same text.
   */
  lemma LongIntTokensShareMessage(t1: string, t2: string)
    requires ReprLimit - 1 <= |t1| && ReprLimit - 1 <= |t2|
    requires t1[..ReprLimit - 1] == t2[..ReprLimit - 1]
    ensures Wrap(NotAnInt(t1)).message == Wrap(NotAnInt(t2)).message
  {
    CutRepr(t1);
    CutRepr(t2);
  }

  /** The repr of a long token, cut: the opening quote and the token's first ReprLimit - 1 characters. */
  lemma CutRepr(t: string)
    requires ReprLimit - 1 <= |t|
    ensures IntRepr(t) == "'" + t[..ReprLimit - 1]
  {
    var q := Quote(t);
    assert q == "'" + t + "'";
    assert q[..ReprLimit] == "'" + t[..ReprLimit - 1];
  }
}
