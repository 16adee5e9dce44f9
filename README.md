# vite-plugin-checker diagnostic pipeline, modelled in Dafny

This project models the diagnostic pipeline of vite-plugin-checker
(`packages/vite-plugin-checker/src/logger.ts`). Every checker adapter (TypeScript,
vue-tsc, VLS, ESLint, Stylelint) maps its output to a `NormalizedDiagnostic`. The
logger then:

- filters records by severity (`filterLogLevel`);
- renders them as coloured terminal text (`diagnosticToTerminalLog`);
- projects them to the transport record the browser overlay receives
  (`diagnosticToRuntimeError`) and wraps them in an event envelope (`toClientPayload`);
- translates TypeScript's 0-based positions to Babel's 1-based ones
  (`tsLocationToBabelLocation`);
- indents a rendered code frame (the split/indent/join step of `createFrame`);
- composes a one-line error/warning summary per checker (`wrapCheckerSummary`,
  `composeCheckerSummary`).

The source is a set of pure functions. The model is therefore written as datatypes,
functions and lemmas, one module per component:

| file | module | models |
|---|---|---|
| `wrappers.dfy` | `Wrappers` | `undefined`/`null` as `Option` |
| `js_strings.dfy` | `JsStrings` | `Array.prototype.join`, `String.prototype.split` on one character, `os.EOL`, integer-to-decimal text |
| `styling.dfy` | `Styling` | `chalk` output as tagged spans |
| `diagnostics.dfy` | `Diagnostics` | `NormalizedDiagnostic`, `DiagnosticLevel`, Babel's `SourceLocation` |
| `level_filter.dfy` | `LevelFilter` | `filterLogLevel`, `isNormalizedDiagnostic` |
| `location.dfy` | `Location` | `tsLocationToBabelLocation` |
| `code_frame.dfy` | `CodeFrame` | the indent/join part of `createFrame` |
| `runtime_payload.dfy` | `RuntimePayload` | `diagnosticToRuntimeError`, `toClientPayload` |
| `terminal_log.dfy` | `TerminalLog` | `diagnosticToTerminalLog` |
| `summary.dfy` | `Summary` | `wrapCheckerSummary`, `composeCheckerSummary` |

Modelling choices:

- **Levels.** `DiagnosticLevel` is a numeric enum. The enum is declared in `types.ts`,
  which is not part of this model. The model takes Warning = 0, Error = 1,
  Suggestion = 2 and Message = 3 (`Diagnostics.Ordinal`). That order matches the default
  list at `logger.ts:49-54`. Only the level numbered 0 is falsy in JavaScript.
- **Optional fields and overloads.** Optional fields are `Option` values. An argument that
  is either one record or an array is `OneOrMany`.
- **Host line ending.** `os.EOL` is a parameter of type `Eol`: either `Lf` ("\n") or
  `CrLf` ("\r\n").
- **Colour.** Chalk styling is a tagged span (`Plain(text)` or `Styled(style, text)`), and
  a coloured string is a sequence of spans. `Unstyled` gives a text's characters without
  colour. `chalk` returns "" for "", so a text is falsy exactly when `Unstyled` gives "".
- **Numbers.** JavaScript numbers are modelled as unbounded integers. `NumberToString`
  is their decimal text: an optional minus sign, then digits without leading zeros. This
  is what JavaScript prints for integers of magnitude below 1e21, and arithmetic such as
  `line + 1` is exact in JavaScript only up to 2^53 (see Left out).
- **Event tag.** `WS_CHECKER_ERROR_EVENT` is declared in `client/index.ts`, which is not
  part of this model. The model fixes it to the constant `"vite-plugin-checker:error"`.
  The properties only use the fact that the tag is one fixed constant.

In two places the code is inconsistent with itself. The model follows the code:

- **Single-record filter.** The array overload of `filterLogLevel` drops a record when
  `typeof d.level !== 'number'` (`logger.ts:70`), so only an absent level is rejected
  there. The single-record overload instead returns null when `!diagnostics.level`
  (`logger.ts:74`), and that test also rejects the level numbered 0 (Warning). See Findings.
- **Terminal components.** `diagnosticToTerminalLog` passes its four components through
  `.filter(Boolean)` (`logger.ts:111`), but the file and frame components always end in
  `os.EOL` (`logger.ts:107-108`) and the label line always holds the label, so only the
  conclusion can be dropped. An absent message, file id or code frame is rendered
  as the text `undefined` (`TerminalLog.OrUndefined`). A position whose column is absent
  renders as `line:undefined`.

## Model

| member | source | states |
|---|---|---|
| `LevelFilter.FilterLogLevelMany` | packages/vite-plugin-checker/src/logger.ts:64-72 | a record is in the result iff it is in the input and has a numeric level that the accepted list (or the default list) includes; the result is never longer than the input |
| `LevelFilter.FilterAppend` | packages/vite-plugin-checker/src/logger.ts:68-72 | filtering a concatenation is the concatenation of the filtered parts, so each record is kept or dropped on its own and relative order is kept |
| `LevelFilter.FilterIsSubsequence` | packages/vite-plugin-checker/src/logger.ts:68-72 | the result is obtained from the input by deleting records only |
| `LevelFilter.FilterIdempotent` | packages/vite-plugin-checker/src/logger.ts:68-72 | filtering twice with the same levels equals filtering once |
| `LevelFilter.FilterKeepsAllIff` | packages/vite-plugin-checker/src/logger.ts:68-72 | the filter returns its input unchanged iff every record has an accepted level (both directions) |
| `LevelFilter.DefaultKeepsEveryLevelledRecord` | packages/vite-plugin-checker/src/logger.ts:49-54 | with no level list, a record is kept iff it has a level; an input whose records all have levels comes back unchanged |
| `LevelFilter.FilterLogLevelOne` | packages/vite-plugin-checker/src/logger.ts:73-76 | the result is the record itself or null; it is the record iff the array overload keeps the record as a one-element array and its level is not Warning |
| `LevelFilter.SingleFilterDropsWarnings` | packages/vite-plugin-checker/src/logger.ts:74-75 | a Warning record is rejected by the single-record overload even when Warning is accepted, while the array overload keeps it |
| `LevelFilter.FilterLogLevelOneByMembership` | packages/vite-plugin-checker/src/logger.ts:73-76 | corrected single-record filter: the record itself or null; the record exactly when the array overload keeps it |
| `LevelFilter.IsNormalizedDiagnostic` | packages/vite-plugin-checker/src/logger.ts:79-83 | the type guard accepts a value iff a record is present, since every record object is truthy; null and undefined (`None`) are rejected |
| `LevelFilter.NarrowFilterResult` | packages/vite-plugin-checker/src/logger.ts:79-83 | `isNormalizedDiagnostic` accepts a single-record filter result iff that result is the record itself, and the record's level is then accepted |
| `Location.TsLocationToBabelLocation` | packages/vite-plugin-checker/src/logger.ts:179-186 | start and end line and column are the 0-based inputs plus one, with no range check (exact for integers, which JavaScript matches up to 2^53); the result always carries an end and both columns, and maps back to the input |
| `Location.BabelLocationRoundTrip` | packages/vite-plugin-checker/src/logger.ts:179-186 | a Babel location has a TypeScript pre-image iff it has an end and both columns; translating that pre-image gives the location back |
| `CodeFrame.IndentFrame` | packages/vite-plugin-checker/src/logger.ts:172-174 | the output has exactly as many '\n'-separated lines as the rendered excerpt; line i is two spaces plus excerpt line i, followed by "\r" before each newline on a "\r\n" host |
| `RuntimePayload.StackText` | packages/vite-plugin-checker/src/logger.ts:134-135 | an absent stack becomes ""; a string stack stays as it is; an array of lines is joined with the host line ending, so `[]` gives ""; when no line holds '\n', splitting the result on '\n' gives the lines back, each but the last followed by "\r" on a "\r\n" host |
| `RuntimePayload.StackLinesRecoverable` | packages/vite-plugin-checker/src/logger.ts:134-135 | a non-empty array of newline-free lines joined with the host line ending splits on '\n' into those lines, each but the last followed by "\r" on a "\r\n" host |
| `RuntimePayload.ToRuntime` | packages/vite-plugin-checker/src/logger.ts:122-142 | message defaults to ""; stack is stringified; frame is the stripped frame; checkerId is the checker; id and level are copied; loc is present iff the source loc is present, and then has file = id or "", line = start line, column = start column or 0 |
| `RuntimePayload.ToRuntimeAll` | packages/vite-plugin-checker/src/logger.ts:122 | the mapped array has the input's length, and element i is the conversion of input i |
| `RuntimePayload.DiagnosticToRuntimeError` | packages/vite-plugin-checker/src/logger.ts:115-145 | the output has the input's shape: one record gives its conversion; an array gives an array of the same length and order, element i being the conversion of input i |
| `RuntimePayload.ToClientPayload` | packages/vite-plugin-checker/src/logger.ts:147-158 | the envelope carries the fixed error event, the given checker id and the given records, with the same order and the same count |
| `RuntimePayload.RuntimeIgnoresTerminalOnlyFields` | packages/vite-plugin-checker/src/logger.ts:122-142 | the transport record does not depend on the conclusion, the coloured code frame or the end of the location |
| `RuntimePayload.RuntimeLocOfTsRange` | packages/vite-plugin-checker/src/logger.ts:124-130 | a diagnostic located by a translated TypeScript range reaches the overlay at that range's start, 1-based |
| `RuntimePayload.PayloadOfFilteredDiagnostics` | packages/vite-plugin-checker/src/logger.ts:147-158 | filtering, converting and wrapping gives one transport record per kept diagnostic, in collection order, each with an accepted level, and never more records than were collected |
| `TerminalLog.KeepTruthy` | packages/vite-plugin-checker/src/logger.ts:111 | `.filter(Boolean)` keeps only non-empty texts and never lengthens the list; a one-element list keeps its element iff it is present and non-empty |
| `TerminalLog.KeepTruthyAppend` | packages/vite-plugin-checker/src/logger.ts:111 | `.filter(Boolean)` decides element by element: filtering a concatenation is concatenating the filtered parts, so order is kept |
| `TerminalLog.DiagnosticToTerminalLog` | packages/vite-plugin-checker/src/logger.ts:85-113 | the label line, file line and frame are always present, joined by line endings; the conclusion follows one more line ending exactly when it is present and non-empty |
| `TerminalLog.TerminalLogDefaultsToError` | packages/vite-plugin-checker/src/logger.ts:99 | a record without a level renders exactly like the same record at Error, and opens with the ERROR label |
| `TerminalLog.TerminalLogLabel` | packages/vite-plugin-checker/src/logger.ts:92-99 | the log opens with the label of the record's level, with Error when the level is absent |
| `TerminalLog.LevelLabelsDistinct` | packages/vite-plugin-checker/src/logger.ts:92-97 | different levels get labels with different background colours |
| `TerminalLog.TerminalLogPlainText` | packages/vite-plugin-checker/src/logger.ts:89-112 | without colour, the log is the label word, the optional name in parentheses and the message; then the FILE line with `line:column`, a blank line and the frame; then the conclusion only when shown |
| `Summary.WrapCheckerSummary` | packages/vite-plugin-checker/src/logger.ts:188-190 | the result is '[', the checker name, "] ", then the raw summary unchanged |
| `Summary.WrapCheckerSummaryInjective` | packages/vite-plugin-checker/src/logger.ts:188-190 | for one checker name, different raw summaries give different wrapped texts |
| `Summary.ComposeCheckerSummary` | packages/vite-plugin-checker/src/logger.ts:192-205 | the colour is red iff there are errors, yellow iff there are warnings but no errors, and green otherwise; the text is the wrapped count message |
| `Summary.SummaryPluralisation` | packages/vite-plugin-checker/src/logger.ts:197-199 | "error" takes an 's' iff the error count exceeds one; the message ends in 's' iff the warning count exceeds one |
| `Summary.SummaryDeterminesCounts` | packages/vite-plugin-checker/src/logger.ts:197-204 | two summaries of one checker with the same text were composed from the same error and warning counts |
| `Summary.SummaryExampleClean` | packages/vite-plugin-checker/src/logger.ts:192-205 | counts 0 and 0 give "Found 0 error and 0 warning", green |
| `Summary.SummaryExampleErrors` | packages/vite-plugin-checker/src/logger.ts:192-205 | counts 2 and 0 give "Found 2 errors and 0 warning", red |
| `Summary.SummaryExampleWarning` | packages/vite-plugin-checker/src/logger.ts:192-205 | counts 0 and 1 give "Found 0 error and 1 warning", yellow |

## Left out

- `ensureCall` (`logger.ts:208-212`): it schedules a callback on the event loop with `setTimeout`. The model has no event loop.
- `consoleLog` (`logger.ts:214-223`): console output, or `parentPort.postMessage` on a worker thread. Both are I/O, and which one runs depends on the thread.
- `codeFrameColumns` from `@babel/code-frame` (`logger.ts:168-171`) is a foreign library and is not part of this model. `IndentFrame` starts from the excerpt it returns.
- `strip` from `strip-ansi` (`logger.ts:3, 23`) is a foreign library. The model does not derive `stripedCodeFrame` from `codeFrame` and does not prove it free of ANSI codes: both frames are inputs of the record.
- The ANSI escape bytes chalk emits are not modelled. Styling is a tag on a span.
- The `vscode-uri` import shim (`logger.ts:4-9`) has no logic.
- `playground/serializers.ts` is a test snapshot serializer made of regular-expression rewrites of logs. It is not part of this model.
- Numbers that are not integers (fractions, NaN, -0) are not modelled. Strings are sequences of characters, with no UTF-16 detail.
- Integers outside JavaScript's safe range are not modelled as JavaScript treats them: above 2^53 `+ 1` may round, and from 1e21 on numbers print in exponent form. The model's integers are exact and always print in plain decimal.
- `Location.TsLocationToBabelLocation`: the +1 and the round trip hold for unbounded integers; JavaScript agrees only while the coordinates stay below 2^53.
- `TerminalLog.DiagnosticToTerminalLog`: its `name` argument is typed in the source as one of five non-empty literals. The model accepts any optional string and treats an empty one as absent, as JavaScript truthiness does.

## Findings

| source | as written | input that shows it | evidently intended | confidence | as-written member | corrected member |
|---|---|---|---|---|---|---|
| packages/vite-plugin-checker/src/logger.ts:74 | the single-record overload of `filterLogLevel` returns null when `!diagnostics.level`, and that test is true for Warning, whose enum value is 0 | a record with level Warning and no level list: the array overload keeps it, but the single-record overload returns null | return the record whenever its level is present and included, as the array overload does (`typeof d.level !== 'number'`) | medium; not executed; depends on Warning = 0 in `types.ts`, which is not part of this model | `LevelFilter.SingleFilterDropsWarnings` | `LevelFilter.FilterLogLevelOneByMembership` |
