# TSG line parser — a Dafny model

This project models the line parser of a thermosalinograph (TSG) reader.
`parse_tsg_line` takes one line of instrument output. It trims the line and
splits it at whitespace. It accepts only 4 or 8 fields:

    scan_no cond temp hull_temp [time_elapsed nmea_time latitude longitude]

`scan_no` is read with `int()` and the next three fields with `float()`. An
8-field line also gives `time_elapsed`, `nmea_time` (an integer Unix epoch),
`latitude` and `longitude`. A 4-field line leaves those four keys set to
`None`. Every failure, from the count check or from a conversion, is
re-raised as one `ValueError` whose text starts "Error parsing TSG line: "
and which is chained to the original exception.

The model also covers the acquisition loop of the reader's `main`. Each line
is parsed. A record is written as a CSV row. A line that fails is logged and
skipped.

Modules:

- `Wrappers` (`wrappers.dfy`): `Option` and `Result`.
- `Tokenize` (`tokenize.dfy`): Python's `str.strip()` and `str.split()`, using
  the whitespace set of `str.isspace()`.
- `Numeric` (`numeric.dfy`): `int()` and `float()` on a token, and `str()` of
  an integer. Underscores between digits, a sign, a decimal point, an
  exponent, and `inf`/`infinity`/`nan` in any case are all covered. A finite
  float is kept as the exact real its literal denotes.
- `TsgParser` (`tsgparser.dfy`): the parser.
  - The result is a `map<string, Value>`, as the Python dict is.
  - The error is a `LineError` holding the message text and the `Cause` it is
    chained from.
  - `Slot`, `AllSlotsDecode`, `FirstBadSlot` and `Denotes` are an independent
    reference description, position by position. The lemmas relate the
    parser to it.
- `JoinedFields` (`joined.dfy`): fields joined by single spaces, as
  `" ".join` writes them, and the proof that such a line splits back into its
  fields.
- `ParserExamples` (`parser_examples.dfy`): the parser's unit tests, stated
  for each test's own line. A test line is written as its fields joined by
  single spaces, which is the same string.
- `Acquisition` (`acquisition.dfy`): the loop of `main` as a method with a
  loop invariant. It is proved against the functions `Rows` and `Log`, which
  give what the loop writes and what it logs.

`parse_tsg_line` has no `key=value` line format and computes no salinity and
no capture-time stamp.

## Model

| member | source | states |
|---|---|---|
| Tokenize.SkipSpace | tsgreader/tsgparser.py:18 | the result is a suffix of the input, what it drops is whitespace, and it does not start with whitespace |
| Tokenize.TrimEnd | tsgreader/tsgparser.py:18 | the result is a prefix of the input, what it drops is whitespace, and it does not end with whitespace |
| Tokenize.Word | tsgreader/tsgparser.py:18 | the longest whitespace-free prefix: a prefix, free of whitespace, followed by whitespace or by the end |
| Tokenize.Strip | tsgreader/tsgparser.py:18 | `strip()` neither starts nor ends with whitespace; `StripExact` shows it is the input with only its outer whitespace removed, and `SplitStrip` that it does not change the fields |
| Tokenize.StripExact | tsgreader/tsgparser.py:18 | the input is a blank prefix, then the result of `strip()`, then a blank suffix |
| Tokenize.Split | tsgreader/tsgparser.py:18 | every field `split()` returns is non-empty and holds no whitespace |
| Tokenize.Gaps | tsgreader/tsgparser.py:18 | a line has one more gap of whitespace than it has fields |
| Tokenize.SplitAppendBlank | tsgreader/tsgparser.py:18 | trailing whitespace does not change the fields |
| Tokenize.SplitSkipSpace | tsgreader/tsgparser.py:18 | leading whitespace does not change the fields |
| Tokenize.SplitStrip | tsgreader/tsgparser.py:18 | `line.strip().split()` equals `line.split()` |
| Tokenize.SplitLayout | tsgreader/tsgparser.py:18 | fields joined by any valid whitespace (blank, non-empty between fields) split back into exactly those fields |
| Tokenize.LayoutSplit | tsgreader/tsgparser.py:18 | every string is its own fields laid out with its own whitespace gaps |
| Tokenize.SplitIff | tsgreader/tsgparser.py:18 | `split()` returns given fields if and only if the line is those fields laid out with valid whitespace |
| Numeric.IntToString | tsgreader/tsgparser.py:20 | `str(n)` is non-empty, starts with '-' exactly when n is negative, and is digits after that; `IntNoLeadingZero` shows the digits have no leading zero, and `IntRoundTrip` that `int()` reads it back as n |
| Numeric.NatToString | tsgreader/tsgparser.py:20 | `str(n)` for n >= 0 is a non-empty run of digits; `NatNoLeadingZero` shows it is the shortest such run |
| Numeric.NatNoLeadingZero | tsgreader/tsgparser.py:20 | `str(n)` for n >= 0 starts with '0' only when n is 0 |
| Numeric.IntNoLeadingZero | tsgreader/tsgparser.py:20 | the digits of `str(n)`, after any minus sign, start with '0' only when n is 0, so the count in the message is written without padding |
| Numeric.NatToStringValue | tsgreader/tsgparser.py:20 | the digits of `str(n)` spell n |
| Numeric.IntRoundTrip | tsgreader/tsgparser.py:20 | `int(str(n)) == n` for every integer n; the count in the message reads back as the count |
| Numeric.IntToStringInjective | tsgreader/tsgparser.py:20 | distinct counts give distinct texts |
| Numeric.ParseInt | tsgreader/tsgparser.py:23 | `int()` on a token; its meaning is given by `IntRoundTrip` (it reads back every `str(n)`), `IntIsFloat` (it accepts only what `float()` accepts, with the same value) and `PointIsNoInt` (it refuses every token holding a decimal point) |
| Numeric.PointIsNoInt | tsgreader/tsgparser.py:23-36 | `int()` refuses every token that holds a '.' |
| Numeric.ParseFloat | tsgreader/tsgparser.py:24-26 | `float()` on a token; its meaning is given by `PointDecimal`, `FloatExponent` and `NegatedDecimal` (the value of decimal, exponent and signed literals) and `BadIsNoFloat` (`"bad"` is refused; the words `inf`, `infinity` and `nan` are accepted) |
| Numeric.IntIsFloat | tsgreader/tsgparser.py:23-26 | every token `int()` accepts is accepted by `float()` with the same value |
| Numeric.PointDecimal | tsgreader/tsgparser.py:24-26 | `float(a + "." + b)` for digit parts a and b is the whole part plus the fraction |
| Numeric.FloatExponent | tsgreader/tsgparser.py:24-26 | `float(str(m) + "e" + str(e))` is m times ten to the e |
| Numeric.NegatedDecimal | tsgreader/tsgparser.py:24-26 | a minus sign before a literal that starts with a digit negates the value `float()` gives |
| Numeric.DigitCountOfDigits | tsgreader/tsgparser.py:24-26 | a run of plain digits counts as many digits as it is long, which fixes the scale of a fraction |
| Numeric.EpochWithPointIsNoInt | tsgreader/tsgparser.py:36 | `int("000002.00")` is refused, an instance of `PointIsNoInt`: the epoch field must be an integer |
| Numeric.BadIsNoFloat | tsgreader/tsgparser.py:24 | `float("bad")` is refused |
| TsgParser.Quote | tsgreader/tsgparser.py:23-38 | the quoted token is the token between two `'` characters |
| TsgParser.IntRepr | tsgreader/tsgparser.py:23 | the token's repr in the `int()` error is a prefix of the quoted token, cut to 200 characters when longer |
| TsgParser.Describe | tsgreader/tsgparser.py:20-38 | the text of each cause, `str(e)`: the count message, or the `int()`/`float()` message with the token's repr; `MessageDeterminesCause` shows the texts tell causes apart |
| TsgParser.Wrap | tsgreader/tsgparser.py:43-44 | the one `ValueError` re-raised for every cause, prefixed and chained; its meaning is given by `WrapNamesParser`, `CountMessageNamesCount` and `MessageDeterminesCause` |
| TsgParser.ToInt | tsgreader/tsgparser.py:23 | `int(token)` or its `ValueError`; `Slot` builds on it and `BadScanNo` states its error path through the parser |
| TsgParser.ToFloat | tsgreader/tsgparser.py:24-38 | `float(token)` or its `ValueError`; `Slot` builds on it and `SecondBadLine` states its error path through the parser |
| TsgParser.ParseFields | tsgreader/tsgparser.py:19-41 | the parser after the split; its meaning is given by `CountCheckedFirst`, `FourFieldsAccepted`, `FourFieldsRecord`, `EightFieldsAccepted`, `EightFieldsRecord`, `FourFieldsFirstError` and `EightFieldsFirstError` |
| TsgParser.ParseTsgLine | tsgreader/tsgparser.py:3-44 | the parser on a line; its meaning is given by `LineCountChecked`, `LineAccepted`, `LineRecord`, `LineRejected` and `WhitespaceInsensitive` |
| TsgParser.RecordOf | tsgreader/tsgparser.py:22-31 | the record built from eight values has exactly the eight field names as keys, each holding its value |
| TsgParser.CountCheckedFirst | tsgreader/tsgparser.py:19-23 | a field count other than 4 or 8 fails with the count error before any token is converted |
| TsgParser.FourFieldsAccepted | tsgreader/tsgparser.py:22-31 | four fields are accepted if and only if each token decodes in its position |
| TsgParser.FourFieldsRecord | tsgreader/tsgparser.py:22-31 | an accepted 4-field list denotes the record of its tokens with None in the last four keys |
| TsgParser.PaddedDenotes | tsgreader/tsgparser.py:27-30 | four decoded values padded with four Nones denote the four fields |
| TsgParser.EightFieldsAccepted | tsgreader/tsgparser.py:33-39 | eight fields are accepted if and only if each token decodes in its position |
| TsgParser.EightFieldsRecord | tsgreader/tsgparser.py:22-39 | an accepted 8-field list denotes the record of all eight tokens in order |
| TsgParser.RecordDenotes | tsgreader/tsgparser.py:22-39 | a record of the slot values, with None past the fields given, denotes the fields |
| TsgParser.FourFieldsFirstError | tsgreader/tsgparser.py:23-26 | a rejected 4-field list is rejected with the error of its first token that does not decode |
| TsgParser.EightFieldsFirstError | tsgreader/tsgparser.py:23-38 | a rejected 8-field list is rejected with the error of its first token that does not decode |
| TsgParser.LineCountChecked | tsgreader/tsgparser.py:18-20 | a line whose field count is not 4 or 8 fails with the wrapped count error, whatever its tokens |
| TsgParser.LineAccepted | tsgreader/tsgparser.py:17-41 | a line is accepted if and only if it has 4 or 8 fields and each decodes in its position |
| TsgParser.LineRecord | tsgreader/tsgparser.py:22-41 | an accepted line gives exactly the eight keys, the tokens decoded in order, and None for the fields a short line lacks |
| TsgParser.LineRejected | tsgreader/tsgparser.py:43-44 | a rejected line raises the one prefixed error chained to its cause; the cause is the count, or else the first token that does not decode |
| TsgParser.BadScanNo | tsgreader/tsgparser.py:23 | a line of a valid count whose scan number is not an integer fails with the error for that token |
| TsgParser.WhitespaceInsensitive | tsgreader/tsgparser.py:18 | the same fields laid out with any whitespace parse to the same result |
| TsgParser.WrapNamesParser | tsgreader/tsgparser.py:44 | every error text contains "Error parsing TSG line" |
| TsgParser.CountMessageNamesCount | tsgreader/tsgparser.py:20 | the count error reads "Error parsing TSG line: Expected 4 or 8 fields, got " followed by text that reads back as the count |
| TsgParser.MessageDeterminesCause | tsgreader/tsgparser.py:43-44 | equal error texts come from equal causes, for `int()` tokens short enough (at most 198 characters) for their repr to be shown whole |
| TsgParser.LongIntTokensShareMessage | tsgreader/tsgparser.py:23 | two `int()` tokens that agree in their first 199 characters give the same error text, as the repr is cut at 200 |
| ParserExamples.Int1234 | tests/test_parser.py:9 | `int("1234") == 1234` |
| ParserExamples.Int1235 | tests/test_parser.py:23 | `int("1235") == 1235` |
| ParserExamples.Int1237 | tests/test_parser.py:39 | `int("1237") == 1237` |
| ParserExamples.Epoch | tests/test_parser.py:15 | `int("1749519966") == 1749519966` |
| ParserExamples.Float4_56 | tests/test_parser.py:10 | `float("4.56") == 4.56` |
| ParserExamples.Float4_57 | tests/test_parser.py:24 | `float("4.57") == 4.57` |
| ParserExamples.Float12_34 | tests/test_parser.py:11 | `float("12.34") == 12.34` |
| ParserExamples.Float12_35 | tests/test_parser.py:25 | `float("12.35") == 12.35` |
| ParserExamples.Float11_98 | tests/test_parser.py:12 | `float("11.98") == 11.98` |
| ParserExamples.Float11_99 | tests/test_parser.py:26 | `float("11.99") == 11.99` |
| ParserExamples.Float3600_5 | tests/test_parser.py:13 | `float("3600.5") == 3600.5` |
| ParserExamples.Float42_1234 | tests/test_parser.py:16 | `float("42.1234") == 42.1234` |
| ParserExamples.FloatMinus42_1234 | tests/test_parser.py:16 | `float("-42.1234") == -42.1234` |
| ParserExamples.Float147_8901 | tests/test_parser.py:17 | `float("147.8901") == 147.8901` |
| ParserExamples.EightFieldLine | tsgreader/tsgparser.py:22-39 | an 8-field line whose tokens decode to given values is the record of those values, key by key |
| ParserExamples.FourFieldLine | tsgreader/tsgparser.py:22-31 | a 4-field line whose tokens decode to given values is the record of those values with None in the last four keys |
| JoinedFields.SplitJoined | tsgreader/tsgparser.py:18 | fields joined by single spaces split back into exactly those fields |
| ParserExamples.FullLineSplits | tests/test_parser.py:6 | the full test line splits into its eight fields |
| ParserExamples.ShortLineSplits | tests/test_parser.py:20 | the short test line splits into its four fields |
| ParserExamples.FiveFieldLineSplits | tests/test_parser.py:33 | the five-field test line splits into its five fields |
| ParserExamples.NonNumericLineSplits | tests/test_parser.py:39 | the non-numeric test line splits into its eight fields |
| ParserExamples.FullLine | tests/test_parser.py:5-17 | the full test line itself parses to its eight values, `nmea_time` the epoch 1749519966 |
| ParserExamples.ShortLine | tests/test_parser.py:19-30 | the short test line itself parses to its four values and four Nones |
| ParserExamples.FiveFieldLine | tests/test_parser.py:32-36 | the five-field test line itself fails with the count error, whose text contains "Expected 4 or 8 fields" |
| ParserExamples.NonNumericLine | tests/test_parser.py:38-42 | the test line with conductivity "bad" itself fails on that token, its text contains "Error parsing TSG line", and its epoch "000002.00" would fail too |
| ParserExamples.SecondBadLine | tsgreader/tsgparser.py:23-24 | an 8-field line whose first token decodes and whose second does not fails with the second's error |
| Acquisition.LogLine | tsgreader/main.py:58 | the logged text "Error parsing line: <line>. Error: <message>"; `NeverSkips` states when it is logged |
| Acquisition.Handle | tsgreader/main.py:52-59 | what the loop body does with one parse result; its meaning is given by `HandleNeverSkips` and `NeverSkips` |
| Acquisition.RowOf | tsgreader/main.py:42-44 | `writerow`; its meaning for the parser's records is given by `RecordFitsWriter`: a record with exactly the parser's keys is written, as its values in column order |
| Acquisition.Acquire | tsgreader/main.py:41-59 | the header is written exactly when the file is empty; the rows written and the errors logged are `Rows(lines)` and `Log(lines)` |
| Acquisition.AcquireWith | tsgreader/main.py:51-59 | for any parser, the loop writes the rows of its steps and logs their errors, in line order |
| Acquisition.RecordFitsWriter | tsgreader/main.py:42-44 | a record with exactly the parser's keys is non-empty and fits the writer: its row is its values in column order |
| Acquisition.ParsedWellKeyed | tsgreader/main.py:53-56 | every record the parser returns has exactly the writer's columns as keys |
| Acquisition.HandleNeverSkips | tsgreader/main.py:55-58 | a well-keyed result is written if and only if it is a success, and logged with its error text if and only if it is a failure |
| Acquisition.NeverSkips | tsgreader/main.py:52-59 | no line is skipped silently: each is written if and only if it parses, and logged with "Error parsing line: <line>. Error: <message>" if and only if it does not |
| Acquisition.StepsCounted | tsgreader/main.py:51-59 | steps that are never skips write or log once each |
| Acquisition.AllRows | tsgreader/main.py:55-56 | steps that all write give their rows in order and log nothing |
| Acquisition.AllLogged | tsgreader/main.py:57-59 | steps that all log give their texts in order and write nothing |
| Acquisition.EveryLineCounted | tsgreader/main.py:51-59 | rows written plus errors logged is the number of lines |
| Acquisition.AllValidAllWritten | tests/test_main.py:53-55 | when every line parses, one row is written per line, in order, and nothing is logged |
| Acquisition.AllInvalidNoneWritten | tests/test_main.py:80-82 | when no line parses, no row is written and each line is logged with its error |

## Left out

- Numeric.ParseFloat: a finite float is the exact real its literal denotes. IEEE-754 rounding is not modelled, nor overflow to infinity on huge literals, nor the sign of `-0.0`.
- Numeric: only ASCII digits count. Python's `int()` and `float()` also accept other Unicode decimal digits.
- Numeric.ParseInt: Python's limit on the digits of a string converted with `int()` (4300 by default) is not modelled. A longer token is accepted here.
- TsgParser.Describe: the token in a conversion error is quoted with plain single quotes. Python's `repr()` escaping and its choice of quote character are not modelled. The `int()` error cuts the repr after 200 characters, which is modelled (`IntRepr`); the `float()` error shows the whole repr.
- TsgParser.MessageDeterminesCause: stated only for `int()` tokens of at most 198 characters. Longer tokens that agree in their first 199 characters share one message (`LongIntTokensShareMessage`), so the text does not determine the cause for them.
- TsgParser.Slot: `nmea_time` is kept as the epoch integer (`Timestamp`); `datetime.fromtimestamp` depends on the local time zone, which is not modelled. The model accepts every integer epoch. In the program, an epoch whose local year falls outside 1..9999 (the millisecond epoch 1749519966000, say) makes `fromtimestamp` raise `ValueError("year N is out of range")`, which the parser wraps as "Error parsing TSG line: year N is out of range". Epochs further out raise `OverflowError` or `OSError`, which are not caught by the parser; `main`'s `except Exception` logs them, whereas the model writes the row.
- TsgParser.LineAccepted: the "if and only if" holds of the model. Of the program it fails for 8-field lines whose epoch is out of `fromtimestamp`'s range, as described under `TsgParser.Slot`: those lines are accepted here and rejected (or raise) there. `LineRecord`, `EightFieldsAccepted` and `Acquisition.NeverSkips` inherit the same gap.
- TsgParser: the `IndexError` branch of the `except` is not modelled. After the count check, every index the parser uses exists.
- TsgParser: there is no idempotence lemma. `ParseTsgLine` is a function, so parsing the same line twice gives the same result by construction.
- Acquisition.RowOf: the exact text of the writer's error for extra keys, and the CSV text of each cell, are not modelled. A missing key is written as an empty cell, like None, so it is held as `NoneVal`.
- Acquisition: the configuration file, logging setup, `print`, the serial port (`tsgreader/serialreader.py`), the CSV file and `KeyboardInterrupt` with `reader.close()` are I/O and are left out. The lines read and whether the file was empty are parameters.
- tsgreader/synthetic_data.py is not part of this model: it generates random data in an endless, sleeping loop.
- The file-based tests (`test_parse_file_data`, `test_main_writes_to_csv`) read a capture file that is not part of this model. Their properties are stated for arbitrary lines: `TsgParser.LineRecord` gives the keys, and `Acquisition.AllValidAllWritten` gives the row count.
