/**
 * `wrapCheckerSummary` and `composeCheckerSummary`: the one-line count of
 * errors and warnings a checker reports, coloured by the worst of them.
 */
module Summary {
  import opened JsStrings
  import opened Styling

  /** `[name] summary`: the checker name in brackets, then the summary. */
  function WrapCheckerSummary(checkerName: string, rawSummary: string): (r: string)
    ensures |r| == |checkerName| + |rawSummary| + 3
    ensures r[0] == '[' && r[1..|checkerName| + 1] == checkerName
    ensures r[|checkerName| + 1..|checkerName| + 3] == "] "
    ensures r[|checkerName| + 3..] == rawSummary
  {
    "[" + checkerName + "] " + rawSummary
  }

  /** For a given checker name the summary can be read back. */
  lemma WrapCheckerSummaryInjective(checkerName: string, a: string, b: string)
    requires WrapCheckerSummary(checkerName, a) == WrapCheckerSummary(checkerName, b)
    ensures a == b
  {
  }

  /** The plural ending, used only for counts above one ("0 error"). */
  function Plural(count: int): string {
    if count > 1 then "s" else ""
  }

  /** The uncoloured message, before the checker name is prefixed. */
  function RawSummary(errorCount: int, warningCount: int): string {
    "Found " + NumberToString(errorCount) + " error" + Plural(errorCount)
    + " and " + NumberToString(warningCount) + " warning" + Plural(warningCount)
  }

  function SummaryColour(errorCount: int, warningCount: int): Style {
    if errorCount > 0 then Red
    else if warningCount > 0 then Yellow
    else Green
  }

  /** `composeCheckerSummary`: red when there are errors, yellow when there
      are only warnings, green otherwise, around the wrapped message. */
  function ComposeCheckerSummary(checkerName: string, errorCount: int, warningCount: int): (r: Span)
    ensures r.Styled?
    ensures r.style == Red <==> errorCount > 0
    ensures r.style == Yellow <==> errorCount <= 0 && warningCount > 0
    ensures r.style == Green <==> errorCount <= 0 && warningCount <= 0
    ensures r.text == WrapCheckerSummary(checkerName, RawSummary(errorCount, warningCount))
  {
    Styled(SummaryColour(errorCount, warningCount),
           WrapCheckerSummary(checkerName, RawSummary(errorCount, warningCount)))
  }

  /** The character after "error" is 's' exactly when there is more than one
      error, and the message ends in 's' exactly when there is more than one
      warning. */
  lemma SummaryPluralisation(errorCount: int, warningCount: int)
    ensures var raw := RawSummary(errorCount, warningCount);
            var k := 6 + |NumberToString(errorCount)| + 6;
            |raw| > k && (raw[k] == 's' <==> errorCount > 1) &&
            (raw[|raw| - 1] == 's' <==> warningCount > 1)
  {
    var n := NumberToString(errorCount);
    var raw := RawSummary(errorCount, warningCount);
    var rest := Plural(errorCount) + " and " + NumberToString(warningCount) + " warning" + Plural(warningCount);
    assert raw == ("Found " + n + " error") + rest;
    assert |"Found " + n + " error"| == 6 + |n| + 6;
    assert raw[6 + |n| + 6] == rest[0];
  }

  lemma {:induction false} SplitAtFirstSpace(a: string, x: string, b: string, y: string)
    requires ' ' !in a && ' ' !in b
    requires |x| > 0 && x[0] == ' ' && |y| > 0 && y[0] == ' '
    requires a + x == b + y
    ensures a == b && x == y
  {
    assert (a + x)[|a|] == ' ';
    assert (b + y)[|b|] == ' ';
    assert |a| >= |b| by {
      assert (b + y)[|a|] == ' ';
    }
    assert |b| >= |a| by {
      assert (a + x)[|b|] == ' ';
    }
    assert a == (a + x)[..|a|];
    assert b == (b + y)[..|b|];
    assert x == (a + x)[|a|..];
    assert y == (b + y)[|b|..];
  }

  lemma NumberHasNoSpace(n: int)
    ensures ' ' !in NumberToString(n)
  {
    var s := NumberToString(n);
    forall i | 0 <= i < |s| ensures s[i] != ' ' {
      assert IsDigit(s[i]) || s[i] == '-';
    }
  }

  lemma DropCommonPrefix(p: string, a: string, b: string)
    requires p + a == p + b
    ensures a == b
  {
    assert a == (p + a)[|p|..];
    assert b == (p + b)[|p|..];
  }

  /** The summary with its parts grouped around the two numbers. */
  function ErrorPart(errorCount: int, warningCount: int): string {
    " error" + Plural(errorCount) + " and " + (NumberToString(warningCount) + (" warning" + Plural(warningCount)))
  }

  lemma RawSummaryShape(errorCount: int, warningCount: int)
    ensures RawSummary(errorCount, warningCount) ==
            "Found " + (NumberToString(errorCount) + ErrorPart(errorCount, warningCount))
  {
  }

  /** The summary text names both counts: two summaries of one checker that
      read the same were composed from the same counts. */
  lemma SummaryDeterminesCounts(checkerName: string, e1: int, w1: int, e2: int, w2: int)
    requires ComposeCheckerSummary(checkerName, e1, w1).text == ComposeCheckerSummary(checkerName, e2, w2).text
    ensures e1 == e2 && w1 == w2
  {
    WrapCheckerSummaryInjective(checkerName, RawSummary(e1, w1), RawSummary(e2, w2));
    RawSummaryShape(e1, w1);
    RawSummaryShape(e2, w2);
    var n1, n2 := NumberToString(e1), NumberToString(e2);
    var x1, x2 := ErrorPart(e1, w1), ErrorPart(e2, w2);
    DropCommonPrefix("Found ", n1 + x1, n2 + x2);
    NumberHasNoSpace(e1);
    NumberHasNoSpace(e2);
    SplitAtFirstSpace(n1, x1, n2, x2);
    NumberToStringInjective(e1, e2);
    var m1, m2 := NumberToString(w1), NumberToString(w2);
    var y1, y2 := " warning" + Plural(w1), " warning" + Plural(w2);
    DropCommonPrefix(" error" + Plural(e1) + " and ", m1 + y1, m2 + y2);
    NumberHasNoSpace(w1);
    NumberHasNoSpace(w2);
    SplitAtFirstSpace(m1, y1, m2, y2);
    NumberToStringInjective(w1, w2);
  }

  lemma ZeroOneTwo()
    ensures NumberToString(0) == "0" && NumberToString(1) == "1" && NumberToString(2) == "2"
  {
  }

  /** No problems: singular nouns and green. */
  lemma SummaryExampleClean()
    ensures RawSummary(0, 0) == "Found 0 error and 0 warning"
    ensures ComposeCheckerSummary("ESLint", 0, 0).style == Green
  {
    ZeroOneTwo();
  }

  /** Two errors: plural "errors" and red. */
  lemma SummaryExampleErrors()
    ensures RawSummary(2, 0) == "Found 2 errors and 0 warning"
    ensures ComposeCheckerSummary("ESLint", 2, 0).style == Red
  {
    ZeroOneTwo();
  }

  /** One warning only: singular "warning" and yellow. */
  lemma SummaryExampleWarning()
    ensures RawSummary(0, 1) == "Found 0 error and 1 warning"
    ensures ComposeCheckerSummary("ESLint", 0, 1).style == Yellow
  {
    ZeroOneTwo();
  }
}
