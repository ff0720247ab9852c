/**
 * Fields written with one space between each two, as the parser's tests
 * write their lines.
 */
module JoinedFields {
  import opened Tokenize

  /** `" ".join(toks)`: the fields with one space between each two. */
  function Joined(toks: seq<string>): string
    requires toks != []
  {
    if |toks| == 1 then toks[0] else toks[0] + " " + Joined(toks[1..])
  }

  /** Fields joined by single spaces split back into exactly those fields. */
  lemma {:induction false} SplitJoined(toks: seq<string>)
    requires toks != [] && forall i :: 0 <= i < |toks| ==> IsToken(toks[i])
    ensures Split(Joined(toks)) == toks
    decreases |toks|
  {
    if |toks| == 1 {
      SplitOne(toks);
    } else {
      SplitJoined(toks[1..]);
      SplitJoinedStep(toks);
    }
  }

  lemma SplitOne(toks: seq<string>)
    requires |toks| == 1 && IsToken(toks[0])
    ensures Split(Joined(toks)) == toks
  {
    var w := toks[0];
    assert w[0..] == w;
    SplitLast(w, 0);
  }

  lemma SplitJoinedStep(toks: seq<string>)
    requires |toks| > 1 && IsToken(toks[0]) && IsToken(toks[1])
    requires Split(Joined(toks[1..])) == toks[1..]
    ensures Split(Joined(toks)) == toks
  {
    var rest := toks[1..];
    assert rest[0] == toks[1];
    JoinedHead(rest);
    FieldOnto(Joined(toks), toks[0], Joined(rest), rest);
    HeadTail(toks);
  }

  /** A field and a space put before a line of fields add that field in front. */
  lemma FieldOnto(line: string, w: string, j: string, rest: seq<string>)
    requires line == w + " " + j
    requires IsToken(w) && j != [] && !IsSpace(j[0]) && Split(j) == rest
    ensures Split(line) == [w] + rest
  {
    SplitSpaced(w, j);
  }

  /** Joined fields start with the first character of the first field. */
  lemma JoinedHead(toks: seq<string>)
    requires toks != [] && IsToken(toks[0])
    ensures Joined(toks) != [] && Joined(toks)[0] == toks[0][0]
  {
  }
}
