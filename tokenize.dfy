/**
 * Python's `str.strip()` and `str.split()` with no arguments, on which the
 * TSG line parser builds its list of fields.
 *
 * Both use the same notion of whitespace: the characters for which
 * `str.isspace()` holds (Unicode bidirectional class WS, B or S, or general
 * category Zs).
 */
module Tokenize {

  /** The whitespace characters of Python's `str`. */
  predicate IsSpace(c: char) {
    var n := c as int;
    || 0x09 <= n <= 0x0D
    || 0x1C <= n <= 0x20
    || n == 0x85
    || n == 0xA0
    || n == 0x1680
    || 0x2000 <= n <= 0x200A
    || n == 0x2028
    || n == 0x2029
    || n == 0x202F
    || n == 0x205F
    || n == 0x3000
  }

  /** A run of whitespace, possibly empty. */
  predicate IsBlank(s: string) {
    forall i :: 0 <= i < |s| ==> IsSpace(s[i])
  }

  /** A field as `split()` produces it: non-empty, no whitespace in it. */
  predicate IsToken(s: string) {
    s != [] && forall i :: 0 <= i < |s| ==> !IsSpace(s[i])
  }

  /** `s` with its leading whitespace removed (`str.lstrip()`). */
  function SkipSpace(s: string): (r: string)
    ensures |r| <= |s| && r == s[|s| - |r|..]
    ensures IsBlank(s[..|s| - |r|])
    ensures r == [] || !IsSpace(r[0])
  {
    if s != [] && IsSpace(s[0]) then SkipSpace(s[1..]) else s
  }

  /** `s` with its trailing whitespace removed (`str.rstrip()`). */
  function TrimEnd(s: string): (r: string)
    ensures r <= s
    ensures IsBlank(s[|r|..])
    ensures r == [] || !IsSpace(r[|r| - 1])
  {
    if s != [] && IsSpace(s[|s| - 1]) then TrimEnd(s[..|s| - 1]) else s
  }

  /** `str.strip()`: both ends trimmed. */
  function Strip(s: string): (r: string)
    ensures |r| <= |s|
    ensures r == [] || (!IsSpace(r[0]) && !IsSpace(r[|r| - 1]))
  {
    TrimEnd(SkipSpace(s))
  }

  /** `s` is a blank head of length `k`, then `r`, then a blank tail. */
  predicate BlankAround(s: string, k: nat, r: string) {
    && k + |r| <= |s|
    && s[k..k + |r|] == r
    && IsBlank(s[..k])
    && IsBlank(s[k + |r|..])
  }

  /** `strip()` removes whitespace from both ends and nothing else. */
  lemma StripExact(s: string)
    ensures BlankAround(s, |s| - |SkipSpace(s)|, Strip(s))
  {
    var t := SkipSpace(s);
    TrimmedIsAround(s, |s| - |t|, t, TrimEnd(t));
  }

  lemma TrimmedIsAround(s: string, k: nat, t: string, r: string)
    requires k <= |s| && t == s[k..] && IsBlank(s[..k])
    requires r <= t && IsBlank(t[|r|..])
    ensures BlankAround(s, k, r)
  {
    assert s[k..k + |r|] == t[..|r|];
    assert s[k + |r|..] == t[|r|..];
  }

  /** The longest prefix of `s` that holds no whitespace. */
  function Word(s: string): (w: string)
    ensures w <= s
    ensures forall i :: 0 <= i < |w| ==> !IsSpace(w[i])
    ensures |w| == |s| || IsSpace(s[|w|])
    ensures s != [] && !IsSpace(s[0]) ==> w != []
  {
    if s == [] || IsSpace(s[0]) then [] else [s[0]] + Word(s[1..])
  }

  /** `str.split()`: the maximal whitespace-free runs of `s`, in order. */
  function Split(s: string): (r: seq<string>)
    ensures forall i :: 0 <= i < |r| ==> IsToken(r[i])
    decreases |s|
  {
    var t := SkipSpace(s);
    if t == [] then []
    else
      var w := Word(t);
      var rest := Split(t[|w|..]);
      TokensCons(w, rest);
      [w] + rest
  }

  /** A token in front of tokens gives tokens. */
  lemma TokensCons(w: string, rest: seq<string>)
    requires w != [] && forall i :: 0 <= i < |w| ==> !IsSpace(w[i])
    requires forall i :: 0 <= i < |rest| ==> IsToken(rest[i])
    ensures forall i :: 0 <= i < |[w] + rest| ==> IsToken(([w] + rest)[i])
  {
  }

  /**
   * The whitespace around and between the fields of `s`: one more gap than
   * there are fields, the first and last possibly empty.
   */
  function Gaps(s: string): (g: seq<string>)
    ensures |g| == |Split(s)| + 1
    decreases |s|
  {
    var t := SkipSpace(s);
    var lead := s[..|s| - |t|];
    if t == [] then [lead]
    else
      var w := Word(t);
      [lead] + Gaps(t[|w|..])
  }

  /** Gaps that may stand around `toks`: blank, and non-empty between two fields. */
  predicate ValidGaps(toks: seq<string>, gaps: seq<string>) {
    && |gaps| == |toks| + 1
    && (forall i :: 0 <= i < |gaps| ==> IsBlank(gaps[i]))
    && (forall i :: 0 < i < |toks| ==> gaps[i] != [])
  }

  /** `gaps[0] + toks[0] + gaps[1] + ... + toks[n-1] + gaps[n]`. */
  function Layout(toks: seq<string>, gaps: seq<string>): string
    requires |gaps| == |toks| + 1
  {
    if toks == [] then gaps[0]
    else gaps[0] + toks[0] + Layout(toks[1..], gaps[1..])
  }

  /** The string after the first field of `s`. */
  function AfterFirstField(s: string): (rest: string)
    requires SkipSpace(s) != []
    ensures |rest| < |s|
  {
    var t := SkipSpace(s);
    t[|Word(t)|..]
  }

  // ----- helper facts about SkipSpace and Word -----

  lemma {:induction false} SkipBlankPrefix(b: string, x: string)
    requires IsBlank(b)
    requires x == [] || !IsSpace(x[0])
    ensures SkipSpace(b + x) == x
  {
    if b != [] {
      assert (b + x)[1..] == b[1..] + x;
      SkipBlankPrefix(b[1..], x);
    } else {
      assert b + x == x;
    }
  }

  lemma {:induction false} SkipSpaceAppend(s: string, b: string)
    requires SkipSpace(s) != []
    ensures SkipSpace(s + b) == SkipSpace(s) + b
  {
    if s != [] && IsSpace(s[0]) {
      assert (s + b)[1..] == s[1..] + b;
      SkipSpaceAppend(s[1..], b);
    }
  }

  lemma {:induction false} WordBeforeSpace(w: string, rest: string)
    requires forall i :: 0 <= i < |w| ==> !IsSpace(w[i])
    requires rest == [] || IsSpace(rest[0])
    ensures Word(w + rest) == w
  {
    if w == [] {
      assert w + rest == rest;
    } else {
      assert (w + rest)[1..] == w[1..] + rest;
      WordBeforeSpace(w[1..], rest);
      assert [w[0]] + w[1..] == w;
    }
  }

  lemma {:induction false} WordAppendBlank(t: string, b: string)
    requires IsBlank(b)
    ensures Word(t + b) == Word(t)
  {
    if t == [] {
      assert t + b == b;
    } else if !IsSpace(t[0]) {
      assert (t + b)[1..] == t[1..] + b;
      WordAppendBlank(t[1..], b);
    }
  }

  // ----- properties of split -----

  /** Dropping a prefix of `t` and then appending `b`, or the other way round. */
  lemma DropAppend(t: string, b: string, k: nat)
    requires k <= |t|
    ensures (t + b)[k..] == t[k..] + b
  {
  }

  lemma SplitAppendBlankEmpty(s: string, b: string)
    requires IsBlank(b) && SkipSpace(s) == []
    ensures Split(s + b) == Split(s)
  {
    assert s[..|s|] == s;
    assert IsBlank(s + b);
    SkipBlankPrefix(s + b, []);
    assert s + b + [] == s + b;
  }

  lemma SplitAppendBlankStep(s: string, b: string)
    requires IsBlank(b) && SkipSpace(s) != []
    requires Split(AfterFirstField(s) + b) == Split(AfterFirstField(s))
    ensures Split(s + b) == Split(s)
  {
    var t := SkipSpace(s);
    SkipSpaceAppend(s, b);
    WordAppendBlank(t, b);
    DropAppend(t, b, |Word(t)|);
  }

  /** Trailing whitespace does not change the fields. */
  lemma {:induction false} SplitAppendBlank(s: string, b: string)
    requires IsBlank(b)
    ensures Split(s + b) == Split(s)
    decreases |s|
  {
    if SkipSpace(s) == [] {
      SplitAppendBlankEmpty(s, b);
    } else {
      SplitAppendBlank(AfterFirstField(s), b);
      SplitAppendBlankStep(s, b);
    }
  }

  /** Stripping before splitting changes nothing: `line.strip().split() == line.split()`. */
  lemma SplitStrip(s: string)
    ensures Split(Strip(s)) == Split(s)
  {
    var t := SkipSpace(s);
    var u := TrimEnd(t);
    PrefixRest(t, u);
    SplitAppendBlank(u, t[|u|..]);
    SplitSkipSpace(s);
  }

  lemma PrefixRest(t: string, u: string)
    requires u <= t
    ensures t == u + t[|u|..]
  {
  }

  /** Leading whitespace does not change the fields. */
  lemma SplitSkipSpace(s: string)
    ensures Split(SkipSpace(s)) == Split(s)
  {
    assert SkipSpace(SkipSpace(s)) == SkipSpace(s);
  }

  /** One field after blank space, followed by a gap or by nothing, is split off first. */
  lemma SplitOneField(b: string, w: string, rest: string)
    requires IsBlank(b) && IsToken(w)
    requires rest == [] || IsSpace(rest[0])
    ensures Split(b + w + rest) == [w] + Split(rest)
  {
    assert b + w + rest == b + (w + rest);
    SkipBlankPrefix(b, w + rest);
    WordBeforeSpace(w, rest);
    assert (w + rest)[|w|..] == rest;
  }

  lemma ValidGapsTail(toks: seq<string>, gaps: seq<string>)
    requires toks != [] && ValidGaps(toks, gaps)
    ensures ValidGaps(toks[1..], gaps[1..])
  {
    forall i | 0 < i < |toks[1..]| ensures gaps[1..][i] != [] {
      assert gaps[1..][i] == gaps[i + 1];
    }
  }

  /** After its first field, a layout continues with a gap or ends. */
  lemma LayoutTailStartsBlank(toks: seq<string>, gaps: seq<string>)
    requires toks != [] && ValidGaps(toks, gaps)
    ensures var rest := Layout(toks[1..], gaps[1..]); rest == [] || IsSpace(rest[0])
  {
    var rest := Layout(toks[1..], gaps[1..]);
    if |toks| == 1 {
      assert rest == gaps[1];
    } else {
      assert gaps[1] != [];
      assert rest == gaps[1] + (toks[1] + Layout(toks[2..], gaps[2..]));
    }
  }

  lemma HeadTail(toks: seq<string>)
    requires toks != []
    ensures [toks[0]] + toks[1..] == toks
  {
  }

  lemma SplitLayoutEmpty(gaps: seq<string>)
    requires ValidGaps([], gaps)
    ensures Split(Layout([], gaps)) == []
  {
    SkipBlankPrefix(gaps[0], []);
    assert gaps[0] + [] == gaps[0];
  }

  lemma SplitLayoutStep(toks: seq<string>, gaps: seq<string>)
    requires toks != [] && IsToken(toks[0]) && ValidGaps(toks, gaps)
    requires Split(Layout(toks[1..], gaps[1..])) == toks[1..]
    ensures Split(Layout(toks, gaps)) == toks
  {
    var rest := Layout(toks[1..], gaps[1..]);
    LayoutTailStartsBlank(toks, gaps);
    SplitOneField(gaps[0], toks[0], rest);
    HeadTail(toks);
  }

  /** Fields separated by any valid whitespace are split back into exactly those fields. */
  lemma {:induction false} SplitLayout(toks: seq<string>, gaps: seq<string>)
    requires forall i :: 0 <= i < |toks| ==> IsToken(toks[i])
    requires ValidGaps(toks, gaps)
    ensures Split(Layout(toks, gaps)) == toks
  {
    if toks == [] {
      SplitLayoutEmpty(gaps);
    } else {
      ValidGapsTail(toks, gaps);
      assert forall i :: 0 <= i < |toks[1..]| ==> IsToken(toks[1..][i]) by {
        forall i | 0 <= i < |toks[1..]| ensures IsToken(toks[1..][i]) {
          assert toks[1..][i] == toks[i + 1];
        }
      }
      SplitLayout(toks[1..], gaps[1..]);
      SplitLayoutStep(toks, gaps);
    }
  }

  lemma ValidGapsCons(w: string, toks: seq<string>, lead: string, gaps: seq<string>)
    requires ValidGaps(toks, gaps) && IsBlank(lead)
    requires toks != [] ==> gaps[0] != []
    ensures ValidGaps([w] + toks, [lead] + gaps)
  {
    var toks', gaps' := [w] + toks, [lead] + gaps;
    forall i | 0 < i < |toks'| ensures gaps'[i] != [] {
      assert gaps'[i] == gaps[i - 1];
    }
    forall i | 0 <= i < |gaps'| ensures IsBlank(gaps'[i]) {
      if i > 0 {
        assert gaps'[i] == gaps[i - 1];
      }
    }
  }

  /** A string that starts with whitespace and holds a field has a non-empty first gap. */
  lemma GapsHeadNonEmpty(r: string)
    requires r == [] || IsSpace(r[0])
    requires Split(r) != []
    ensures Gaps(r)[0] != []
  {
    assert r != [];
    assert SkipSpace(r) == SkipSpace(r[1..]);
  }

  /** How Split and Gaps take a string with at least one field apart. */
  lemma SplitGapsUnfold(s: string)
    requires SkipSpace(s) != []
    ensures var t := SkipSpace(s); var lead := s[..|s| - |t|];
      var w := Word(t); var rest := t[|w|..];
      && Split(s) == [w] + Split(rest)
      && Gaps(s) == [lead] + Gaps(rest)
      && s == lead + w + rest
      && (rest == [] || IsSpace(rest[0]))
  {
    SplitUnfold(s);
    GapsUnfold(s);
    FirstFieldLayout(s);
  }

  lemma SplitUnfold(s: string)
    requires SkipSpace(s) != []
    ensures var t := SkipSpace(s); var w := Word(t); Split(s) == [w] + Split(t[|w|..])
  {
  }

  lemma GapsUnfold(s: string)
    requires SkipSpace(s) != []
    ensures var t := SkipSpace(s); var w := Word(t); Gaps(s) == [s[..|s| - |t|]] + Gaps(t[|w|..])
  {
  }

  /** The first field splits a string into the blank before it, itself, and a rest that starts blank. */
  lemma FirstFieldLayout(s: string)
    requires SkipSpace(s) != []
    ensures var t := SkipSpace(s); var w := Word(t); var rest := t[|w|..];
      && s == s[..|s| - |t|] + w + rest
      && (rest == [] || IsSpace(rest[0]))
  {
    var t := SkipSpace(s);
    var k := |s| - |t|;
    var w := Word(t);
    assert t == s[k..];
    assert w == t[..|w|];
    Recompose(s, k, |w|);
  }

  /** A string is its first k characters, the j after those, and the rest. */
  lemma Recompose(s: string, k: nat, j: nat)
    requires k <= |s| && j <= |s| - k
    ensures s == s[..k] + s[k..][..j] + s[k..][j..]
  {
    assert s[k..] == s[k..][..j] + s[k..][j..];
    assert s == s[..k] + s[k..];
  }

  lemma LayoutSplitBlank(s: string)
    requires SkipSpace(s) == []
    ensures ValidGaps(Split(s), Gaps(s))
    ensures Layout(Split(s), Gaps(s)) == s
  {
    assert s[..|s|] == s;
    assert Gaps(s) == [s];
  }

  /** A layout with one more field: its first gap, that field, then the rest. */
  lemma LayoutCons(w: string, toks: seq<string>, lead: string, gaps: seq<string>)
    requires |gaps| == |toks| + 1
    ensures Layout([w] + toks, [lead] + gaps) == lead + w + Layout(toks, gaps)
  {
    assert ([w] + toks)[1..] == toks;
    assert ([lead] + gaps)[1..] == gaps;
  }

  /** Split and Gaps of a string with at least one field, in terms of what follows that field. */
  lemma SplitGapsHead(s: string, t: string, lead: string, rest: string)
    requires t == SkipSpace(s) && t != []
    requires lead == s[..|s| - |t|] && rest == AfterFirstField(s)
    ensures Split(s) == [Word(t)] + Split(rest)
    ensures Gaps(s) == [lead] + Gaps(rest)
    ensures IsBlank(lead)
    ensures Split(rest) != [] ==> Gaps(rest)[0] != []
  {
    SplitUnfold(s);
    GapsUnfold(s);
    if Split(rest) != [] {
      assert rest == [] || IsSpace(rest[0]);
      GapsHeadNonEmpty(rest);
    }
  }

  lemma GapsValidStep(s: string)
    requires SkipSpace(s) != []
    requires ValidGaps(Split(AfterFirstField(s)), Gaps(AfterFirstField(s)))
    ensures ValidGaps(Split(s), Gaps(s))
  {
    var t := SkipSpace(s);
    var lead := s[..|s| - |t|];
    var rest := AfterFirstField(s);
    SplitGapsHead(s, t, lead, rest);
    ValidGapsOnto(Split(s), Gaps(s), Word(t), Split(rest), lead, Gaps(rest));
  }

  lemma ValidGapsOnto(toks': seq<string>, gaps': seq<string>, w: string, toks: seq<string>, lead: string, gaps: seq<string>)
    requires toks' == [w] + toks && gaps' == [lead] + gaps
    requires ValidGaps(toks, gaps) && IsBlank(lead)
    requires toks != [] ==> gaps[0] != []
    ensures ValidGaps(toks', gaps')
  {
    ValidGapsCons(w, toks, lead, gaps);
  }

  lemma LayoutSplitStep(s: string)
    requires SkipSpace(s) != []
    requires ValidGaps(Split(AfterFirstField(s)), Gaps(AfterFirstField(s)))
    requires Layout(Split(AfterFirstField(s)), Gaps(AfterFirstField(s))) == AfterFirstField(s)
    ensures ValidGaps(Split(s), Gaps(s))
    ensures Layout(Split(s), Gaps(s)) == s
  {
    GapsValidStep(s);
    SplitGapsUnfold(s);
    var t := SkipSpace(s);
    var rest := AfterFirstField(s);
    LayoutCons(Word(t), Split(rest), s[..|s| - |t|], Gaps(rest));
  }

  /** Every string is its own fields laid out with its own gaps. */
  lemma {:induction false} LayoutSplit(s: string)
    ensures ValidGaps(Split(s), Gaps(s))
    ensures Layout(Split(s), Gaps(s)) == s
    decreases |s|
  {
    if SkipSpace(s) == [] {
      LayoutSplitBlank(s);
    } else {
      LayoutSplit(AfterFirstField(s));
      LayoutSplitStep(s);
    }
  }

  /**
   * `split()` returns `toks` exactly when the line is `toks` laid out with
   * valid whitespace: the fields are all that matters about a line.
   */
  lemma SplitIff(s: string, toks: seq<string>)
    requires forall i :: 0 <= i < |toks| ==> IsToken(toks[i])
    ensures Split(s) == toks <==> exists gaps :: ValidGaps(toks, gaps) && Layout(toks, gaps) == s
  {
    if Split(s) == toks {
      LayoutSplit(s);
    }
    if exists gaps :: ValidGaps(toks, gaps) && Layout(toks, gaps) == s {
      var gaps :| ValidGaps(toks, gaps) && Layout(toks, gaps) == s;
      SplitLayout(toks, gaps);
    }
  }

  // ----- reading fields one at a time -----

  /** A field that runs to the end of the line is the last field. */
  lemma SplitLast(line: string, i: nat)
    requires i < |line| && IsToken(line[i..])
    ensures Split(line[i..]) == [line[i..]]
  {
    var w := line[i..];
    assert w == "" + w + "";
    SplitOneField("", w, "");
  }

  /** A field, one space, and a rest that starts with a field: the field is split off first. */
  lemma SplitSpaced(w: string, next: string)
    requires IsToken(w) && next != [] && !IsSpace(next[0])
    ensures Split(w + " " + next) == [w] + Split(next)
  {
    assert w + " " + next == "" + w + (" " + next);
    SplitOneField("", w, " " + next);
    SplitAfterSpace(next);
  }

  /** One space before a field does not change the split. */
  lemma SplitAfterSpace(next: string)
    requires next != [] && !IsSpace(next[0])
    ensures Split(" " + next) == Split(next)
  {
    SkipBlankPrefix(" ", next);
    SplitSkipSpace(" " + next);
  }
}
