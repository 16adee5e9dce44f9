/**
 * `diagnosticToTerminalLog`: a diagnostic as coloured console text. Four
 * components are joined with the host line ending after the falsy ones are
 * dropped; the file and frame components end in a line ending themselves, so
 * only the conclusion can ever be dropped.
 */
module TerminalLog {
  import opened Wrappers
  import opened JsStrings
  import opened Styling
  import opened Diagnostics

  /** The checker name in parentheses, or "" when none is given. */
  function NameInLabel(name: Option<string>): string {
    if name.Some? && name.value != "" then "(" + name.value + ")" else ""
  }

  function LevelBackground(l: Level): Background {
    match l
    case Error => RedBright
    case Warning => YellowBright
    case Suggestion => BlueBright
    case Message => CyanBright
  }

  function LevelWord(l: Level): string {
    match l
    case Error => "ERROR"
    case Warning => "WARNING"
    case Suggestion => "SUGGESTION"
    case Message => "MESSAGE"
  }

  /** The entry of `labelMap` for a level. */
  function LevelLabel(l: Level, name: Option<string>): Span {
    Styled(BoldBlackOn(LevelBackground(l)), " " + LevelWord(l) + NameInLabel(name) + " ")
  }

  /** Distinct levels get distinct labels, told apart by their background. */
  lemma LevelLabelsDistinct(l: Level, m: Level, name: Option<string>)
    requires l != m
    ensures LevelLabel(l, name).style != LevelLabel(m, name).style
  {
  }

  /** String coercion of a value that may be `undefined`. */
  function OrUndefined(s: Option<string>): string {
    s.GetOr("undefined")
  }

  function OptionalNumberText(n: Option<int>): string {
    if n.Some? then NumberToString(n.value) else "undefined"
  }

  /** `line:column` of the start, each number in yellow; "" without a location. */
  function PositionText(loc: Option<SourceLocation>): Text {
    if loc.Some? then
      [Styled(Yellow, NumberToString(loc.value.start.line)), Plain(":"),
       Styled(Yellow, OptionalNumberText(loc.value.start.column))]
    else []
  }

  /** Component 1: the level label, a space and the message. */
  function LevelLine(d: Diagnostic, name: Option<string>): Text {
    [LevelLabel(d.level.GetOr(Error), name), Plain(" " + OrUndefined(d.message))]
  }

  /** Component 2: the FILE label, the file, ':' and the position, then a line ending. */
  function FileLine(d: Diagnostic, eol: Eol): Text {
    [Styled(BoldBlackOn(CyanBright), " FILE "), Plain(" " + OrUndefined(d.id) + ":")]
    + PositionText(d.loc) + [Plain(eol.Text())]
  }

  /** Component 3: the code frame, then a line ending. */
  function FrameBlock(d: Diagnostic, eol: Eol): Text {
    [Plain(OrUndefined(d.codeFrame) + eol.Text())]
  }

  /** Component 4: the conclusion, `undefined` when there is none. */
  function ConclusionPart(d: Diagnostic): Option<Text> {
    if d.conclusion.Some? then Some([Plain(d.conclusion.value)]) else None
  }

  function Components(d: Diagnostic, name: Option<string>, eol: Eol): seq<Option<Text>> {
    [Some(LevelLine(d, name)), Some(FileLine(d, eol)), Some(FrameBlock(d, eol)), ConclusionPart(d)]
  }

  /** `.filter(Boolean)`: the present, non-empty texts, in order. */
  function KeepTruthy(parts: seq<Option<Text>>): (r: seq<Text>)
    ensures |r| <= |parts|
    ensures forall i :: 0 <= i < |r| ==> Truthy(r[i])
    ensures |parts| == 1 ==>
              (|r| == 1 <==> parts[0].Some? && Truthy(parts[0].value)) &&
              (|r| == 1 ==> r[0] == parts[0].value)
    decreases |parts|
  {
    if |parts| == 0 then []
    else
      (if parts[0].Some? && Truthy(parts[0].value) then [parts[0].value] else [])
      + KeepTruthy(parts[1..])
  }

  /** The terminal rendering of one record: the first three components are
      never dropped, and the conclusion is appended, after one more line
      ending, exactly when it is present and not empty. */
  function DiagnosticToTerminalLog(d: Diagnostic, name: Option<string>, eol: Eol): (r: Text)
    ensures var sep := [Plain(eol.Text())];
            r == LevelLine(d, name) + sep + FileLine(d, eol) + sep + FrameBlock(d, eol)
                 + (if ConclusionShown(d) then sep + [Plain(d.conclusion.value)] else [])
  {
    KeptComponents(d, name, eol);
    JoinThreeOrFour(LevelLine(d, name), FileLine(d, eol), FrameBlock(d, eol),
                    if ConclusionShown(d) then [[Plain(d.conclusion.value)]] else [],
                    [Plain(eol.Text())]);
    Join(KeepTruthy(Components(d, name, eol)), [Plain(eol.Text())])
  }

  /** The conclusion is shown when it is present and not empty. */
  predicate ConclusionShown(d: Diagnostic) {
    d.conclusion.Some? && d.conclusion.value != ""
  }

  lemma KeepTruthyCons(p: Option<Text>, rest: seq<Option<Text>>)
    ensures KeepTruthy([p] + rest) ==
            (if p.Some? && Truthy(p.value) then [p.value] else []) + KeepTruthy(rest)
  {
    assert ([p] + rest)[0] == p && ([p] + rest)[1..] == rest;
  }

  /** `.filter(Boolean)` works piece by piece: filtering a concatenation is
      concatenating the filtered pieces. */
  lemma {:induction false} KeepTruthyAppend(a: seq<Option<Text>>, b: seq<Option<Text>>)
    ensures KeepTruthy(a + b) == KeepTruthy(a) + KeepTruthy(b)
    decreases |a|
  {
    if |a| == 0 {
      assert a + b == b;
    } else {
      var p, rest := a[0], a[1..];
      var head: seq<Text> := if p.Some? && Truthy(p.value) then [p.value] else [];
      assert a == [p] + rest;
      assert a + b == [p] + (rest + b);
      KeepTruthyCons(p, rest + b);
      KeepTruthyCons(p, rest);
      KeepTruthyAppend(rest, b);
      assert head + (KeepTruthy(rest) + KeepTruthy(b)) == (head + KeepTruthy(rest)) + KeepTruthy(b);
    }
  }

  lemma KeepFirstThree(a: Text, b: Text, c: Text, last: Option<Text>)
    requires Truthy(a) && Truthy(b) && Truthy(c)
    ensures KeepTruthy([Some(a), Some(b), Some(c), last]) ==
            [a, b, c] + (if last.Some? && Truthy(last.value) then [last.value] else [])
  {
    var tail: seq<Text> := if last.Some? && Truthy(last.value) then [last.value] else [];
    KeepTruthyCons(last, []);
    assert [last] + [] == [last];
    assert KeepTruthy([last]) == tail;
    KeepTruthyCons(Some(c), [last]);
    assert [Some(c)] + [last] == [Some(c), last];
    assert KeepTruthy([Some(c), last]) == [c] + tail;
    KeepTruthyCons(Some(b), [Some(c), last]);
    assert [Some(b)] + [Some(c), last] == [Some(b), Some(c), last];
    assert KeepTruthy([Some(b), Some(c), last]) == [b] + ([c] + tail);
    KeepTruthyCons(Some(a), [Some(b), Some(c), last]);
    assert [Some(a)] + [Some(b), Some(c), last] == [Some(a), Some(b), Some(c), last];
    assert [a] + ([b] + ([c] + tail)) == [a, b, c] + tail;
  }

  lemma JoinThreeOrFour(a: Text, b: Text, c: Text, tail: seq<Text>, sep: Text)
    requires |tail| <= 1
    ensures Join([a, b, c] + tail, sep) ==
            a + sep + b + sep + c + (if |tail| == 1 then sep + tail[0] else [])
  {
    assert [a, b, c] + tail == [a] + ([b] + ([c] + tail));
    JoinCons(a, [b] + ([c] + tail), sep);
    JoinCons(b, [c] + tail, sep);
    if |tail| == 1 {
      JoinCons(c, tail, sep);
    } else {
      assert [c] + tail == [c];
    }
  }

  lemma ComponentsTruthy(d: Diagnostic, name: Option<string>, eol: Eol)
    ensures Truthy(LevelLine(d, name)) && Truthy(FileLine(d, eol)) && Truthy(FrameBlock(d, eol))
  {
    var a, b, c := LevelLine(d, name), FileLine(d, eol), FrameBlock(d, eol);
    assert Unstyled(a) == a[0].text + Unstyled(a[1..]);
    assert Unstyled(b) == b[0].text + Unstyled(b[1..]);
    assert Unstyled(c) == c[0].text + Unstyled(c[1..]);
  }

  /** Which components `.filter(Boolean)` keeps. */
  lemma KeptComponents(d: Diagnostic, name: Option<string>, eol: Eol)
    ensures KeepTruthy(Components(d, name, eol)) ==
            [LevelLine(d, name), FileLine(d, eol), FrameBlock(d, eol)]
            + (if ConclusionShown(d) then [[Plain(d.conclusion.value)]] else [])
  {
    ComponentsTruthy(d, name, eol);
    KeepFirstThree(LevelLine(d, name), FileLine(d, eol), FrameBlock(d, eol), ConclusionPart(d));
    if d.conclusion.Some? {
      assert Unstyled([Plain(d.conclusion.value)]) == d.conclusion.value;
    }
  }

  /** A diagnostic without a level is shown exactly like an Error. */
  lemma TerminalLogDefaultsToError(d: Diagnostic, name: Option<string>, eol: Eol)
    requires d.level.None?
    ensures DiagnosticToTerminalLog(d, name, eol) ==
            DiagnosticToTerminalLog(d.(level := Some(Error)), name, eol)
    ensures DiagnosticToTerminalLog(d, name, eol)[0] == LevelLabel(Error, name)
  {
  }

  /** The log opens with the label of the record's level. */
  lemma TerminalLogLabel(d: Diagnostic, name: Option<string>, eol: Eol)
    ensures DiagnosticToTerminalLog(d, name, eol)[0] == LevelLabel(d.level.GetOr(Error), name)
  {
  }

  /** The position as plain characters. */
  function PositionPlain(loc: Option<SourceLocation>): string {
    if loc.Some? then
      NumberToString(loc.value.start.line) + ":" + OptionalNumberText(loc.value.start.column)
    else ""
  }

  lemma UnstyledOfLayout(a: Text, b: Text, c: Text, sep: string, tail: Text)
    ensures Unstyled(a + [Plain(sep)] + b + [Plain(sep)] + c + tail) ==
            Unstyled(a) + sep + Unstyled(b) + sep + Unstyled(c) + Unstyled(tail)
  {
    var s := [Plain(sep)];
    assert Unstyled(s) == sep by {
      assert Unstyled(s) == s[0].text + Unstyled(s[1..]);
    }
    UnstyledAppend(a + s + b + s + c, tail);
    UnstyledAppend(a + s + b + s, c);
    UnstyledAppend(a + s + b, s);
    UnstyledAppend(a + s, b);
    UnstyledAppend(a, s);
  }

  lemma UnstyledLevelLine(d: Diagnostic, name: Option<string>)
    ensures Unstyled(LevelLine(d, name)) ==
            " " + LevelWord(d.level.GetOr(Error)) + NameInLabel(name) + "  " + OrUndefined(d.message)
  {
    var a := LevelLine(d, name);
    assert Unstyled(a) == a[0].text + Unstyled(a[1..]);
    assert Unstyled(a[1..]) == a[1].text + Unstyled(a[2..]);
  }

  lemma UnstyledFileLine(d: Diagnostic, eol: Eol)
    ensures Unstyled(FileLine(d, eol)) ==
            " FILE  " + OrUndefined(d.id) + ":" + PositionPlain(d.loc) + eol.Text()
  {
    var pos := PositionText(d.loc);
    assert Unstyled(pos) == PositionPlain(d.loc) by {
      if d.loc.Some? {
        assert Unstyled(pos) == pos[0].text + Unstyled(pos[1..]);
        assert Unstyled(pos[1..]) == pos[1].text + Unstyled(pos[2..]);
        assert Unstyled(pos[2..]) == pos[2].text + Unstyled(pos[3..]);
      }
    }
    var head: Text := [Styled(BoldBlackOn(CyanBright), " FILE "), Plain(" " + OrUndefined(d.id) + ":")];
    var s: Text := [Plain(eol.Text())];
    assert Unstyled(head) == " FILE " + (" " + OrUndefined(d.id) + ":") by {
      assert Unstyled(head) == head[0].text + Unstyled(head[1..]);
      assert Unstyled(head[1..]) == head[1].text + Unstyled(head[2..]);
    }
    assert Unstyled(s) == eol.Text() by {
      assert Unstyled(s) == s[0].text + Unstyled(s[1..]);
    }
    UnstyledAppend(head + pos, s);
    UnstyledAppend(head, pos);
  }

  /** The log's characters with styling removed: a blank line always
      separates the file line from the frame. */
  lemma TerminalLogPlainText(d: Diagnostic, name: Option<string>, eol: Eol)
    ensures var e := eol.Text();
            Unstyled(DiagnosticToTerminalLog(d, name, eol)) ==
              (" " + LevelWord(d.level.GetOr(Error)) + NameInLabel(name) + "  " + OrUndefined(d.message))
              + e + (" FILE  " + OrUndefined(d.id) + ":" + PositionPlain(d.loc) + e)
              + e + (OrUndefined(d.codeFrame) + e)
              + (if ConclusionShown(d) then e + d.conclusion.value else "")
  {
    var e := eol.Text();
    var tail: Text := if ConclusionShown(d) then [Plain(e)] + [Plain(d.conclusion.value)] else [];
    UnstyledOfLayout(LevelLine(d, name), FileLine(d, eol), FrameBlock(d, eol), e, tail);
    UnstyledLevelLine(d, name);
    UnstyledFileLine(d, eol);
    var c := FrameBlock(d, eol);
    assert Unstyled(c) == OrUndefined(d.codeFrame) + e by {
      assert Unstyled(c) == c[0].text + Unstyled(c[1..]);
    }
    var t := if ConclusionShown(d) then e + d.conclusion.value else "";
    assert Unstyled(tail) == t by {
      if ConclusionShown(d) {
        assert Unstyled(tail) == tail[0].text + Unstyled(tail[1..]);
        assert Unstyled(tail[1..]) == tail[1].text + Unstyled(tail[2..]);
      }
    }
  }
}
