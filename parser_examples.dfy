/**
 * The parser on the lines of its test suite: a full 8-field line, a short
 * 4-field line, a 5-field line, and a line whose conductivity is not a
 * number. Each test line is written as its fields joined by single spaces.
 */
module ParserExamples {
  import opened Wrappers
  import opened Tokenize
  import opened JoinedFields
  import opened Numeric
  import opened TsgParser

  // ----- the tokens of the test lines -----

  lemma Int1234()
    ensures ParseInt("1234") == Some(1234)
  {
    assert NatToString(12) == "12";
    assert NatToString(123) == "123";
    assert NatToString(1234) == "1234";
    IntRoundTrip(1234);
  }

  lemma Int1235()
    ensures ParseInt("1235") == Some(1235)
  {
    assert NatToString(12) == "12";
    assert NatToString(123) == "123";
    assert NatToString(1235) == "1235";
    IntRoundTrip(1235);
  }

  lemma Int1237()
    ensures ParseInt("1237") == Some(1237)
  {
    assert NatToString(12) == "12";
    assert NatToString(123) == "123";
    assert NatToString(1237) == "1237";
    IntRoundTrip(1237);
  }

  lemma Epoch()
    ensures ParseInt("1749519966") == Some(1749519966)
  {
    assert NatToString(17) == "17";
    assert NatToString(174) == "174";
    assert NatToString(1749) == "1749";
    assert NatToString(17495) == "17495";
    assert NatToString(174951) == "174951";
    assert NatToString(1749519) == "1749519";
    assert NatToString(17495199) == "17495199";
    assert NatToString(174951996) == "174951996";
    assert NatToString(1749519966) == "1749519966";
    IntRoundTrip(1749519966);
  }

  /** A literal `whole.frac` parses to the value of its two digit parts. */
  lemma PointLiteral(t: string, p: nat, v: real)
    requires p < |t| && t[p] == '.'
    requires IsDigitPart(t[..p]) && IsDigitPart(t[p + 1..])
    requires PointValue(t[..p], t[p + 1..]) == v
    ensures ParseFloat(t) == Some(Finite(v))
  {
    AroundPoint(t, p);
    PointDecimal(t[..p], t[p + 1..]);
  }

  lemma AroundPoint(t: string, p: nat)
    requires p < |t| && t[p] == '.'
    ensures t == t[..p] + "." + t[p + 1..]
  {
    assert t == t[..p] + [t[p]] + t[p + 1..];
  }

  lemma Pow10Small()
    ensures Pow10Nat(1) == 10.0 && Pow10Nat(2) == 100.0
    ensures Pow10Nat(3) == 1000.0 && Pow10Nat(4) == 10000.0
  {
  }

  /** The value of `whole.frac` where both halves render naturals. */
  lemma NatPointValue(whole: string, frac: string, w: nat, f: nat)
    requires NatToString(w) == whole && NatToString(f) == frac
    ensures PointValue(whole, frac) == w as real + f as real / Pow10Nat(|frac|)
  {
    NatToStringValue(w);
    NatToStringValue(f);
    DigitCountOfDigits(frac);
  }

  /** The value of a two-digit fraction. */
  lemma TwoDigitPoint(whole: string, frac: string, w: nat, f: nat)
    requires NatToString(w) == whole && |frac| == 2 && NatToString(f) == frac
    ensures PointValue(whole, frac) == w as real + f as real / 100.0
  {
    NatPointValue(whole, frac, w, f);
    assert Pow10Nat(2) == 100.0 by { Pow10Small(); }
  }

  /** The value of a four-digit fraction. */
  lemma FourDigitPoint(whole: string, frac: string, w: nat, f: nat)
    requires NatToString(w) == whole && |frac| == 4 && NatToString(f) == frac
    ensures PointValue(whole, frac) == w as real + f as real / 10000.0
  {
    NatPointValue(whole, frac, w, f);
    assert Pow10Nat(4) == 10000.0 by { Pow10Small(); }
  }

  lemma Float4_56()
    ensures ParseFloat("4.56") == Some(Finite(4.56))
  {
    assert NatToString(4) == "4" && NatToString(56) == "56";
    TwoDigitPoint("4", "56", 4, 56);
    assert "4.56"[..1] == "4" && "4.56"[2..] == "56";
    PointLiteral("4.56", 1, 4.56);
  }

  lemma Float4_57()
    ensures ParseFloat("4.57") == Some(Finite(4.57))
  {
    assert NatToString(4) == "4" && NatToString(57) == "57";
    TwoDigitPoint("4", "57", 4, 57);
    assert "4.57"[..1] == "4" && "4.57"[2..] == "57";
    PointLiteral("4.57", 1, 4.57);
  }

  lemma Float12_34()
    ensures ParseFloat("12.34") == Some(Finite(12.34))
  {
    assert NatToString(12) == "12" && NatToString(34) == "34";
    TwoDigitPoint("12", "34", 12, 34);
    assert "12.34"[..2] == "12" && "12.34"[3..] == "34";
    PointLiteral("12.34", 2, 12.34);
  }

  lemma Float12_35()
    ensures ParseFloat("12.35") == Some(Finite(12.35))
  {
    assert NatToString(12) == "12" && NatToString(35) == "35";
    TwoDigitPoint("12", "35", 12, 35);
    assert "12.35"[..2] == "12" && "12.35"[3..] == "35";
    PointLiteral("12.35", 2, 12.35);
  }

  lemma Float11_98()
    ensures ParseFloat("11.98") == Some(Finite(11.98))
  {
    assert NatToString(11) == "11" && NatToString(98) == "98";
    TwoDigitPoint("11", "98", 11, 98);
    assert "11.98"[..2] == "11" && "11.98"[3..] == "98";
    PointLiteral("11.98", 2, 11.98);
  }

  lemma Float11_99()
    ensures ParseFloat("11.99") == Some(Finite(11.99))
  {
    assert NatToString(11) == "11" && NatToString(99) == "99";
    TwoDigitPoint("11", "99", 11, 99);
    assert "11.99"[..2] == "11" && "11.99"[3..] == "99";
    PointLiteral("11.99", 2, 11.99);
  }

  lemma Float3600_5()
    ensures ParseFloat("3600.5") == Some(Finite(3600.5))
  {
    assert NatToString(360) == "360";
    assert NatToString(3600) == "3600";
    NatToStringValue(3600);
    assert DigitsValue("5") == 5 && DigitCount("5") == 1 && Pow10Nat(1) == 10.0;
    assert PointValue("3600", "5") == 3600.5;
    assert "3600.5"[..4] == "3600" && "3600.5"[5..] == "5";
    PointLiteral("3600.5", 4, 3600.5);
  }

  lemma Float42_1234()
    ensures ParseFloat("42.1234") == Some(Finite(42.1234))
  {
    assert NatToString(42) == "42";
    assert NatToString(12) == "12";
    assert NatToString(123) == "123";
    assert NatToString(1234) == "1234";
    FourDigitPoint("42", "1234", 42, 1234);
    assert "42.1234"[..2] == "42" && "42.1234"[3..] == "1234";
    PointLiteral("42.1234", 2, 42.1234);
  }

  lemma FloatMinus42_1234()
    ensures ParseFloat("-42.1234") == Some(Finite(-42.1234))
  {
    Float42_1234();
    MinusLiteral();
    NegatedDecimal("42.1234", "-42.1234", 42.1234);
  }

  lemma MinusLiteral()
    ensures "-42.1234" == "-" + "42.1234" && IsDigit("42.1234"[0])
  {
  }

  lemma Float147_8901()
    ensures ParseFloat("147.8901") == Some(Finite(147.8901))
  {
    Digits147And8901();
    FourDigitPoint("147", "8901", 147, 8901);
    assert "147.8901"[..3] == "147" && "147.8901"[4..] == "8901";
    PointLiteral("147.8901", 3, 147.8901);
  }

  lemma Digits147And8901()
    ensures NatToString(147) == "147" && NatToString(8901) == "8901"
  {
    assert NatToString(14) == "14";
    assert NatToString(89) == "89";
    assert NatToString(890) == "890";
  }

  // ----- the test lines -----
  // Each lemma covers every line whose whitespace-separated fields are the
  // fields of the test's line, the test's line among them.

  lemma FieldNamesAt()
    ensures FieldNames[0] == "scan_no" && FieldNames[1] == "cond"
    ensures FieldNames[2] == "temp" && FieldNames[3] == "hull_temp"
    ensures FieldNames[4] == "time_elapsed" && FieldNames[5] == "nmea_time"
    ensures FieldNames[6] == "latitude" && FieldNames[7] == "longitude"
  {
  }

  /** Eight fields that each decode make a line that decodes. */
  lemma EightDecode(toks: seq<string>)
    requires |toks| == 8
    requires Slot(0, toks[0]).Success? && Slot(1, toks[1]).Success? && Slot(2, toks[2]).Success?
    requires Slot(3, toks[3]).Success? && Slot(4, toks[4]).Success? && Slot(5, toks[5]).Success?
    requires Slot(6, toks[6]).Success? && Slot(7, toks[7]).Success?
    ensures AllSlotsDecode(toks)
  {
    forall i | 0 <= i < 8
      ensures Slot(i, toks[i]).Success?
    {
      assert i == 0 || i == 1 || i == 2 || i == 3 || i == 4 || i == 5 || i == 6 || i == 7;
    }
  }

  /** Four fields that each decode make a line that decodes. */
  lemma FourDecode(toks: seq<string>)
    requires |toks| == 4
    requires Slot(0, toks[0]).Success? && Slot(1, toks[1]).Success?
    requires Slot(2, toks[2]).Success? && Slot(3, toks[3]).Success?
    ensures AllSlotsDecode(toks)
  {
    forall i | 0 <= i < 4
      ensures Slot(i, toks[i]).Success?
    {
      assert i == 0 || i == 1 || i == 2 || i == 3;
    }
  }

  /** test_parse_valid_tsg_line: all eight fields, decoded in order. */
  lemma FullLine(line: string)
    requires line == Joined(["1234", "4.56", "12.34", "11.98", "3600.5", "1749519966", "-42.1234", "147.8901"])
    ensures ParseTsgLine(line).Success?
    ensures var d := ParseTsgLine(line).value;
      && (forall key :: key in d <==> key in FieldNames)
      && "scan_no" in d && d["scan_no"] == IntVal(1234)
      && "cond" in d && d["cond"] == FloatVal(Finite(4.56))
      && "temp" in d && d["temp"] == FloatVal(Finite(12.34))
      && "hull_temp" in d && d["hull_temp"] == FloatVal(Finite(11.98))
      && "time_elapsed" in d && d["time_elapsed"] == FloatVal(Finite(3600.5))
      && "nmea_time" in d && d["nmea_time"] == Timestamp(1749519966)
      && "latitude" in d && d["latitude"] == FloatVal(Finite(-42.1234))
      && "longitude" in d && d["longitude"] == FloatVal(Finite(147.8901))
  {
    FullLineSplits(line);
    FullLineSlot0(Split(line));
    FullLineSlot1(Split(line));
    FullLineSlot2(Split(line));
    FullLineSlot3(Split(line));
    FullLineSlot4(Split(line));
    FullLineSlot5(Split(line));
    FullLineSlot6(Split(line));
    FullLineSlot7(Split(line));
    EightFieldLine(line, IntVal(1234), FloatVal(Finite(4.56)), FloatVal(Finite(12.34)),
      FloatVal(Finite(11.98)), FloatVal(Finite(3600.5)), Timestamp(1749519966),
      FloatVal(Finite(-42.1234)), FloatVal(Finite(147.8901)));
  }

  /** An eight-field line whose tokens decode to the given values is the record of them. */
  lemma EightFieldLine(line: string, a: Value, b: Value, c: Value, x: Value,
                       e: Value, f: Value, g: Value, h: Value)
    requires |Split(line)| == 8
    requires Slot(0, Split(line)[0]) == Success(a) && Slot(1, Split(line)[1]) == Success(b)
    requires Slot(2, Split(line)[2]) == Success(c) && Slot(3, Split(line)[3]) == Success(x)
    requires Slot(4, Split(line)[4]) == Success(e) && Slot(5, Split(line)[5]) == Success(f)
    requires Slot(6, Split(line)[6]) == Success(g) && Slot(7, Split(line)[7]) == Success(h)
    ensures ParseTsgLine(line).Success?
    ensures var d := ParseTsgLine(line).value;
      && (forall key :: key in d <==> key in FieldNames)
      && "scan_no" in d && d["scan_no"] == a
      && "cond" in d && d["cond"] == b
      && "temp" in d && d["temp"] == c
      && "hull_temp" in d && d["hull_temp"] == x
      && "time_elapsed" in d && d["time_elapsed"] == e
      && "nmea_time" in d && d["nmea_time"] == f
      && "latitude" in d && d["latitude"] == g
      && "longitude" in d && d["longitude"] == h
  {
    EightDecode(Split(line));
    LineAccepted(line);
    LineRecord(line);
    EightDenoted(ParseTsgLine(line).value, Split(line));
  }

  /** The record an eight-field line denotes, key by key. */
  lemma EightDenoted(d: Record, toks: seq<string>)
    requires |toks| == 8 && AllSlotsDecode(toks) && Denotes(d, toks)
    ensures forall key :: key in d <==> key in FieldNames
    ensures "scan_no" in d && d["scan_no"] == Slot(0, toks[0]).value
    ensures "cond" in d && d["cond"] == Slot(1, toks[1]).value
    ensures "temp" in d && d["temp"] == Slot(2, toks[2]).value
    ensures "hull_temp" in d && d["hull_temp"] == Slot(3, toks[3]).value
    ensures "time_elapsed" in d && d["time_elapsed"] == Slot(4, toks[4]).value
    ensures "nmea_time" in d && d["nmea_time"] == Slot(5, toks[5]).value
    ensures "latitude" in d && d["latitude"] == Slot(6, toks[6]).value
    ensures "longitude" in d && d["longitude"] == Slot(7, toks[7]).value
  {
    FieldNamesAt();
    assert d[FieldNames[0]] == Slot(0, toks[0]).value;
    assert d[FieldNames[1]] == Slot(1, toks[1]).value;
    assert d[FieldNames[2]] == Slot(2, toks[2]).value;
    assert d[FieldNames[3]] == Slot(3, toks[3]).value;
    assert d[FieldNames[4]] == Slot(4, toks[4]).value;
    assert d[FieldNames[5]] == Slot(5, toks[5]).value;
    assert d[FieldNames[6]] == Slot(6, toks[6]).value;
    assert d[FieldNames[7]] == Slot(7, toks[7]).value;
  }

  /** The record a four-field line denotes, key by key. */
  lemma FourDenoted(d: Record, toks: seq<string>)
    requires |toks| == 4 && AllSlotsDecode(toks) && Denotes(d, toks)
    ensures forall key :: key in d <==> key in FieldNames
    ensures "scan_no" in d && d["scan_no"] == Slot(0, toks[0]).value
    ensures "cond" in d && d["cond"] == Slot(1, toks[1]).value
    ensures "temp" in d && d["temp"] == Slot(2, toks[2]).value
    ensures "hull_temp" in d && d["hull_temp"] == Slot(3, toks[3]).value
    ensures "time_elapsed" in d && d["time_elapsed"] == NoneVal
    ensures "nmea_time" in d && d["nmea_time"] == NoneVal
    ensures "latitude" in d && d["latitude"] == NoneVal
    ensures "longitude" in d && d["longitude"] == NoneVal
  {
    FieldNamesAt();
    assert d[FieldNames[0]] == Slot(0, toks[0]).value;
    assert d[FieldNames[1]] == Slot(1, toks[1]).value;
    assert d[FieldNames[2]] == Slot(2, toks[2]).value;
    assert d[FieldNames[3]] == Slot(3, toks[3]).value;
    assert d[FieldNames[4]] == NoneVal;
    assert d[FieldNames[5]] == NoneVal;
    assert d[FieldNames[6]] == NoneVal;
    assert d[FieldNames[7]] == NoneVal;
  }

  lemma FullLineSlot0(toks: seq<string>)
    requires toks == ["1234", "4.56", "12.34", "11.98", "3600.5", "1749519966", "-42.1234", "147.8901"]
    ensures Slot(0, toks[0]) == Success(IntVal(1234))
  {
    Int1234();
  }

  lemma FullLineSlot1(toks: seq<string>)
    requires toks == ["1234", "4.56", "12.34", "11.98", "3600.5", "1749519966", "-42.1234", "147.8901"]
    ensures Slot(1, toks[1]) == Success(FloatVal(Finite(4.56)))
  {
    Float4_56();
  }

  lemma FullLineSlot2(toks: seq<string>)
    requires toks == ["1234", "4.56", "12.34", "11.98", "3600.5", "1749519966", "-42.1234", "147.8901"]
    ensures Slot(2, toks[2]) == Success(FloatVal(Finite(12.34)))
  {
    Float12_34();
  }

  lemma FullLineSlot3(toks: seq<string>)
    requires toks == ["1234", "4.56", "12.34", "11.98", "3600.5", "1749519966", "-42.1234", "147.8901"]
    ensures Slot(3, toks[3]) == Success(FloatVal(Finite(11.98)))
  {
    Float11_98();
  }

  lemma FullLineSlot4(toks: seq<string>)
    requires toks == ["1234", "4.56", "12.34", "11.98", "3600.5", "1749519966", "-42.1234", "147.8901"]
    ensures Slot(4, toks[4]) == Success(FloatVal(Finite(3600.5)))
  {
    Float3600_5();
  }

  lemma FullLineSlot5(toks: seq<string>)
    requires toks == ["1234", "4.56", "12.34", "11.98", "3600.5", "1749519966", "-42.1234", "147.8901"]
    ensures Slot(5, toks[5]) == Success(Timestamp(1749519966))
  {
    Epoch();
  }

  lemma FullLineSlot6(toks: seq<string>)
    requires toks == ["1234", "4.56", "12.34", "11.98", "3600.5", "1749519966", "-42.1234", "147.8901"]
    ensures Slot(6, toks[6]) == Success(FloatVal(Finite(-42.1234)))
  {
    FloatMinus42_1234();
  }

  lemma FullLineSlot7(toks: seq<string>)
    requires toks == ["1234", "4.56", "12.34", "11.98", "3600.5", "1749519966", "-42.1234", "147.8901"]
    ensures Slot(7, toks[7]) == Success(FloatVal(Finite(147.8901)))
  {
    Float147_8901();
  }

  /** test_parse_short_line: four fields decoded, the other four None. */
  lemma ShortLine(line: string)
    requires line == Joined(["1235", "4.57", "12.35", "11.99"])
    ensures ParseTsgLine(line).Success?
    ensures var d := ParseTsgLine(line).value;
      && (forall key :: key in d <==> key in FieldNames)
      && "scan_no" in d && d["scan_no"] == IntVal(1235)
      && "cond" in d && d["cond"] == FloatVal(Finite(4.57))
      && "temp" in d && d["temp"] == FloatVal(Finite(12.35))
      && "hull_temp" in d && d["hull_temp"] == FloatVal(Finite(11.99))
      && "time_elapsed" in d && d["time_elapsed"] == NoneVal
      && "nmea_time" in d && d["nmea_time"] == NoneVal
      && "latitude" in d && d["latitude"] == NoneVal
      && "longitude" in d && d["longitude"] == NoneVal
  {
    ShortLineSplits(line);
    ShortLineFields(Split(line));
    FourFieldLine(line, IntVal(1235), FloatVal(Finite(4.57)), FloatVal(Finite(12.35)), FloatVal(Finite(11.99)));
  }

  /** A four-field line whose tokens decode to the given values is the record of them. */
  lemma FourFieldLine(line: string, a: Value, b: Value, c: Value, x: Value)
    requires |Split(line)| == 4
    requires Slot(0, Split(line)[0]) == Success(a) && Slot(1, Split(line)[1]) == Success(b)
    requires Slot(2, Split(line)[2]) == Success(c) && Slot(3, Split(line)[3]) == Success(x)
    ensures ParseTsgLine(line).Success?
    ensures var d := ParseTsgLine(line).value;
      && (forall key :: key in d <==> key in FieldNames)
      && "scan_no" in d && d["scan_no"] == a
      && "cond" in d && d["cond"] == b
      && "temp" in d && d["temp"] == c
      && "hull_temp" in d && d["hull_temp"] == x
      && "time_elapsed" in d && d["time_elapsed"] == NoneVal
      && "nmea_time" in d && d["nmea_time"] == NoneVal
      && "latitude" in d && d["latitude"] == NoneVal
      && "longitude" in d && d["longitude"] == NoneVal
  {
    FourDecode(Split(line));
    LineAccepted(line);
    LineRecord(line);
    FourDenoted(ParseTsgLine(line).value, Split(line));
  }

  lemma ShortLineFields(toks: seq<string>)
    requires toks == ["1235", "4.57", "12.35", "11.99"]
    ensures Slot(0, toks[0]) == Success(IntVal(1235))
    ensures Slot(1, toks[1]) == Success(FloatVal(Finite(4.57)))
    ensures Slot(2, toks[2]) == Success(FloatVal(Finite(12.35)))
    ensures Slot(3, toks[3]) == Success(FloatVal(Finite(11.99)))
  {
    ShortLineTokens(toks);
    assert Slot(0, toks[0]) == Success(IntVal(1235)) by { Int1235(); CountSlot(toks[0], 1235); }
    assert Slot(1, toks[1]) == Success(FloatVal(Finite(4.57))) by { Float4_57(); FloatSlot(1, toks[1], Finite(4.57)); }
    assert Slot(2, toks[2]) == Success(FloatVal(Finite(12.35))) by { Float12_35(); FloatSlot(2, toks[2], Finite(12.35)); }
    assert Slot(3, toks[3]) == Success(FloatVal(Finite(11.99))) by { Float11_99(); FloatSlot(3, toks[3], Finite(11.99)); }
  }

  lemma ShortLineTokens(toks: seq<string>)
    requires toks == ["1235", "4.57", "12.35", "11.99"]
    ensures |toks| == 4
    ensures toks[0] == "1235" && toks[1] == "4.57" && toks[2] == "12.35" && toks[3] == "11.99"
  {
  }

  /** The scan number slot holds what `int()` reads. */
  lemma CountSlot(t: string, n: int)
    requires ParseInt(t) == Some(n)
    ensures Slot(0, t) == Success(IntVal(n))
  {
  }

  /** A float slot holds what `float()` reads. */
  lemma FloatSlot(i: nat, t: string, x: Float)
    requires 0 < i < 8 && i != 5 && ParseFloat(t) == Some(x)
    ensures Slot(i, t) == Success(FloatVal(x))
  {
  }

  /** A float slot whose token `float()` refuses fails with that token. */
  lemma FloatSlotFails(i: nat, t: string)
    requires 0 < i < 8 && i != 5 && ParseFloat(t) == None
    ensures Slot(i, t) == Failure(NotAFloat(t))
  {
  }

  /** The epoch slot whose token `int()` refuses fails with that token. */
  lemma EpochSlotFails(t: string)
    requires ParseInt(t) == None
    ensures Slot(5, t) == Failure(NotAnInt(t))
  {
  }

  /** test_parse_invalid_field_count: five fields are refused, and the message says so. */
  lemma FiveFieldLine(line: string)
    requires line == Joined(["1236", "4.58", "12.36", "11.97", "3601.5"])
    ensures ParseTsgLine(line) == Failure(Wrap(WrongFieldCount(5)))
    ensures Contains(ParseTsgLine(line).error.message, "Expected 4 or 8 fields")
  {
    FiveFieldLineSplits(line);
    LineCountChecked(line);
    CountMessageNamesCount(5);
  }

  /**
   * test_parse_invalid_numeric_data: the conductivity "bad" is the first
   * field that does not decode, so it is the one reported, ahead of the
   * epoch "000002.00", which would fail too.
   */
  lemma NonNumericLine(line: string)
    requires line == Joined(["1237", "bad", "12.37", "11.96", "3603.5", "000002.00", "-42.1237", "147.8904"])
    ensures ParseTsgLine(line) == Failure(Wrap(NotAFloat("bad")))
    ensures Contains(ParseTsgLine(line).error.message, "Error parsing TSG line")
    ensures Slot(5, "000002.00") == Failure(NotAnInt("000002.00"))
  {
    NonNumericLineSplits(line);
    NonNumericSlots(Split(line));
    SecondBadLine(line, NotAFloat("bad"));
    WrapNamesParser(NotAFloat("bad"));
  }

  /** An eight-field line whose first token decodes and whose second does not fails on the second. */
  lemma SecondBadLine(line: string, c: Cause)
    requires |Split(line)| == 8
    requires Slot(0, Split(line)[0]).Success? && Slot(1, Split(line)[1]) == Failure(c)
    ensures ParseTsgLine(line) == Failure(Wrap(c))
  {
    LineAccepted(line);
    LineRejected(line);
    var k: nat :| FirstBadSlot(Split(line), k) && ParseTsgLine(line).error.cause == Slot(k, Split(line)[k]).error;
    SecondIsFirstBad(Split(line), k);
  }

  /** When the first token decodes and the second does not, the second is the first bad one. */
  lemma SecondIsFirstBad(toks: seq<string>, k: nat)
    requires 2 <= |toks| <= 8
    requires Slot(0, toks[0]).Success? && Slot(1, toks[1]).Failure?
    requires FirstBadSlot(toks, k)
    ensures k == 1
  {
  }

  lemma NonNumericSlots(toks: seq<string>)
    requires toks == ["1237", "bad", "12.37", "11.96", "3603.5", "000002.00", "-42.1237", "147.8904"]
    ensures Slot(0, toks[0]) == Success(IntVal(1237))
    ensures Slot(1, toks[1]) == Failure(NotAFloat("bad"))
    ensures Slot(5, toks[5]) == Failure(NotAnInt("000002.00"))
  {
    NonNumericTokens(toks);
    assert Slot(0, toks[0]) == Success(IntVal(1237)) by { Int1237(); CountSlot(toks[0], 1237); }
    assert Slot(1, toks[1]) == Failure(NotAFloat("bad")) by { BadIsNoFloat(); FloatSlotFails(1, toks[1]); }
    assert Slot(5, toks[5]) == Failure(NotAnInt("000002.00")) by { EpochWithPointIsNoInt(); EpochSlotFails(toks[5]); }
  }

  lemma NonNumericTokens(toks: seq<string>)
    requires toks == ["1237", "bad", "12.37", "11.96", "3603.5", "000002.00", "-42.1237", "147.8904"]
    ensures toks[0] == "1237" && toks[1] == "bad" && toks[5] == "000002.00"
  {
  }

  // ----- the test lines as written -----

  /** The line of test_parse_valid_tsg_line, its fields joined by single spaces, splits into those fields. */
  lemma FullLineSplits(line: string)
    requires line == Joined(["1234", "4.56", "12.34", "11.98", "3600.5", "1749519966", "-42.1234", "147.8901"])
    ensures Split(line) == ["1234", "4.56", "12.34", "11.98", "3600.5", "1749519966", "-42.1234", "147.8901"]
  {
    FullLineFieldsAreTokens();
    SplitJoined(["1234", "4.56", "12.34", "11.98", "3600.5", "1749519966", "-42.1234", "147.8901"]);
  }

  lemma FullLineFieldsAreTokens()
    ensures forall i :: 0 <= i < 8 ==> IsToken(["1234", "4.56", "12.34", "11.98", "3600.5", "1749519966", "-42.1234", "147.8901"][i])
  {
  }

  /** The line of test_parse_short_line, its fields joined by single spaces, splits into those fields. */
  lemma ShortLineSplits(line: string)
    requires line == Joined(["1235", "4.57", "12.35", "11.99"])
    ensures Split(line) == ["1235", "4.57", "12.35", "11.99"]
  {
    ShortLineFieldsAreTokens();
    SplitJoined(["1235", "4.57", "12.35", "11.99"]);
  }

  lemma ShortLineFieldsAreTokens()
    ensures forall i :: 0 <= i < 4 ==> IsToken(["1235", "4.57", "12.35", "11.99"][i])
  {
  }

  /** The line of test_parse_invalid_field_count, its fields joined by single spaces, splits into those fields. */
  lemma FiveFieldLineSplits(line: string)
    requires line == Joined(["1236", "4.58", "12.36", "11.97", "3601.5"])
    ensures Split(line) == ["1236", "4.58", "12.36", "11.97", "3601.5"]
  {
    FiveFieldLineFieldsAreTokens();
    SplitJoined(["1236", "4.58", "12.36", "11.97", "3601.5"]);
  }

  lemma FiveFieldLineFieldsAreTokens()
    ensures forall i :: 0 <= i < 5 ==> IsToken(["1236", "4.58", "12.36", "11.97", "3601.5"][i])
  {
  }

  /** The line of test_parse_invalid_numeric_data, its fields joined by single spaces, splits into those fields. */
  lemma NonNumericLineSplits(line: string)
    requires line == Joined(["1237", "bad", "12.37", "11.96", "3603.5", "000002.00", "-42.1237", "147.8904"])
    ensures Split(line) == ["1237", "bad", "12.37", "11.96", "3603.5", "000002.00", "-42.1237", "147.8904"]
  {
    NonNumericLineFieldsAreTokens();
    SplitJoined(["1237", "bad", "12.37", "11.96", "3603.5", "000002.00", "-42.1237", "147.8904"]);
  }

  lemma NonNumericLineFieldsAreTokens()
    ensures forall i :: 0 <= i < 8 ==> IsToken(["1237", "bad", "12.37", "11.96", "3603.5", "000002.00", "-42.1237", "147.8904"][i])
  {
  }
}
