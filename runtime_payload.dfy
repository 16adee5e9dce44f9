/**
 * `diagnosticToRuntimeError` and `toClientPayload`: the transport shape of a
 * diagnostic, sent to the browser overlay inside an event envelope.
 */
module RuntimePayload {
  import opened Wrappers
  import opened JsStrings
  import opened Diagnostics
  import Location
  import LevelFilter

  /** The `loc` of `DiagnosticToRuntime`. */
  datatype RuntimeLoc = RuntimeLoc(file: string, line: int, column: int)

  datatype DiagnosticToRuntime = DiagnosticToRuntime(
    message: string,
    stack: string,
    id: Option<string>,
    frame: Option<string>,
    checkerId: string,
    level: Option<Level>,
    loc: Option<RuntimeLoc>)

  /** `WS_CHECKER_ERROR_EVENT`, the event tag shared with the overlay client. */
  const WsCheckerErrorEvent: string := "vite-plugin-checker:error"

  datatype PayloadData = PayloadData(checkerId: string, diagnostics: seq<DiagnosticToRuntime>)

  /** `ClientDiagnosticPayload` */
  datatype ClientDiagnosticPayload = ClientDiagnosticPayload(event: string, data: PayloadData)

  /** The stack as one string: a string as it is, an array of lines joined
      with the host line ending (an empty array as "", and each line
      recoverable by splitting on '\n' when no line holds one), nothing at
      all as "". */
  function StackText(stack: Option<Stack>, eol: Eol): (r: string)
    ensures stack.None? ==> r == ""
    ensures stack.Some? && stack.value.SingleStack? ==> r == stack.value.text
    ensures stack.Some? && stack.value.StackLines? ==> r == Join(stack.value.lines, eol.Text())
    ensures stack.Some? && stack.value.StackLines? && |stack.value.lines| == 0 ==> r == ""
    ensures stack.Some? && stack.value.StackLines? && |stack.value.lines| >= 1 &&
            (forall i :: 0 <= i < |stack.value.lines| ==> '\n' !in stack.value.lines[i]) ==>
              Split(r, '\n') == Suffixed(stack.value.lines, eol.BeforeNewline())
  {
    match stack
    case None => ""
    case Some(SingleStack(text)) => text
    case Some(StackLines(lines)) =>
      StackLinesRecoverable(lines, eol);
      Join(lines, eol.Text())
  }

  /** Lines free of '\n', joined with the host line ending, come back from a
      split on '\n', each but the last still carrying what precedes the '\n'
      in the line ending. */
  lemma StackLinesRecoverable(lines: seq<string>, eol: Eol)
    ensures |lines| >= 1 && (forall i :: 0 <= i < |lines| ==> '\n' !in lines[i]) ==>
              Split(Join(lines, eol.Text()), '\n') == Suffixed(lines, eol.BeforeNewline())
  {
    if |lines| >= 1 && forall i :: 0 <= i < |lines| ==> '\n' !in lines[i] {
      LinesOfEolJoin(lines, eol);
    }
  }

  /** The conversion of one record (the `map` callback). */
  function ToRuntime(d: Diagnostic, eol: Eol): (r: DiagnosticToRuntime)
    ensures r.message == d.message.GetOr("")
    ensures r.stack == StackText(d.stack, eol)
    ensures r.id == d.id && r.frame == d.stripedCodeFrame
    ensures r.checkerId == d.checker && r.level == d.level
    ensures r.loc.Some? <==> d.loc.Some?
    ensures d.loc.Some? ==> r.loc.value.file == d.id.GetOr("")
    ensures d.loc.Some? ==> r.loc.value.line == d.loc.value.start.line
    ensures d.loc.Some? ==> r.loc.value.column == d.loc.value.start.column.GetOr(0)
  {
    var loc :=
      if d.loc.Some? then
        Some(RuntimeLoc(d.id.GetOr(""), d.loc.value.start.line, d.loc.value.start.column.GetOr(0)))
      else None;
    DiagnosticToRuntime(
      d.message.GetOr(""),
      StackText(d.stack, eol),
      d.id,
      d.stripedCodeFrame,
      d.checker,
      d.level,
      loc)
  }

  /** `Array.prototype.map` of the conversion. */
  function ToRuntimeAll(ds: seq<Diagnostic>, eol: Eol): (r: seq<DiagnosticToRuntime>)
    ensures |r| == |ds|
    ensures forall i :: 0 <= i < |ds| ==> r[i] == ToRuntime(ds[i], eol)
    decreases |ds|
  {
    if |ds| == 0 then []
    else [ToRuntime(ds[0], eol)] + ToRuntimeAll(ds[1..], eol)
  }

  /** `diagnosticToRuntimeError`: a single record is wrapped in an array,
      converted, and unwrapped again, so the result has the input's shape. */
  function DiagnosticToRuntimeError(diagnostics: OneOrMany<Diagnostic>, eol: Eol): (r: OneOrMany<DiagnosticToRuntime>)
    ensures r.One? <==> diagnostics.One?
    ensures diagnostics.One? ==> r.item == ToRuntime(diagnostics.item, eol)
    ensures diagnostics.Many? ==>
              |r.items| == |diagnostics.items| &&
              forall i :: 0 <= i < |diagnostics.items| ==> r.items[i] == ToRuntime(diagnostics.items[i], eol)
  {
    var diagnosticsArray := if diagnostics.Many? then diagnostics.items else [diagnostics.item];
    var results := ToRuntimeAll(diagnosticsArray, eol);
    if diagnostics.Many? then Many(results) else One(results[0])
  }

  /** `toClientPayload`: the fixed error event carrying the checker id and
      the converted records exactly as given. */
  function ToClientPayload(id: string, diagnostics: seq<DiagnosticToRuntime>): (r: ClientDiagnosticPayload)
    ensures r.event == WsCheckerErrorEvent
    ensures r.data.checkerId == id
    ensures r.data.diagnostics == diagnostics
  {
    ClientDiagnosticPayload(WsCheckerErrorEvent, PayloadData(id, diagnostics))
  }

  /** The transport record does not depend on what only the terminal shows:
      the conclusion, the coloured frame and where the location ends. */
  lemma RuntimeIgnoresTerminalOnlyFields(d: Diagnostic, e: Diagnostic, eol: Eol)
    requires d.message == e.message && d.stack == e.stack && d.id == e.id
    requires d.checker == e.checker && d.stripedCodeFrame == e.stripedCodeFrame
    requires d.level == e.level && d.loc.Some? == e.loc.Some?
    requires d.loc.Some? ==> d.loc.value.start == e.loc.value.start
    ensures ToRuntime(d, eol) == ToRuntime(e, eol)
  {
  }

  /** A diagnostic located from a TypeScript range reaches the overlay with
      the 1-based start of that range. */
  lemma RuntimeLocOfTsRange(d: Diagnostic, ts: Location.TsRange, eol: Eol)
    requires d.loc == Some(Location.TsLocationToBabelLocation(ts))
    ensures ToRuntime(d, eol).loc ==
            Some(RuntimeLoc(d.id.GetOr(""), ts.start.line + 1, ts.start.character + 1))
  {
  }

  /** Filtering, converting and wrapping: the envelope lists, in collection
      order, the converted records of exactly those diagnostics whose level
      is accepted. */
  lemma PayloadOfFilteredDiagnostics(id: string, ds: seq<Diagnostic>, levels: Option<seq<Level>>, eol: Eol)
    ensures var kept := LevelFilter.FilterLogLevelMany(ds, levels);
            var p := ToClientPayload(id, ToRuntimeAll(kept, eol));
            p.event == WsCheckerErrorEvent && p.data.checkerId == id &&
            |p.data.diagnostics| == |kept| <= |ds| &&
            forall i :: 0 <= i < |kept| ==>
              p.data.diagnostics[i] == ToRuntime(kept[i], eol) &&
              p.data.diagnostics[i].level.Some? &&
              p.data.diagnostics[i].level.value in LevelFilter.AcceptedLevels(levels)
  {
    var kept := LevelFilter.FilterLogLevelMany(ds, levels);
    forall i | 0 <= i < |kept|
      ensures kept[i].level.Some? && kept[i].level.value in LevelFilter.AcceptedLevels(levels)
    {
      assert kept[i] in kept;
    }
  }
}
