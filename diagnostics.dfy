/**
 * The normalized diagnostic record every checker's output is mapped into
 * (`NormalizedDiagnostic` in logger.ts) and the location shape of
 * `@babel/code-frame` it carries.
 */
module Diagnostics {
  import opened Wrappers

  /** `DiagnosticLevel`, a numeric enum. */
  datatype Level = Warning | Error | Suggestion | Message

  /** The number the enum member stands for at run time. */
  function Ordinal(l: Level): nat {
    match l
    case Warning => 0
    case Error => 1
    case Suggestion => 2
    case Message => 3
  }

  /** JavaScript truthiness of a level: only the member numbered 0 is falsy. */
  predicate IsTruthyLevel(l: Level) {
    Ordinal(l) != 0
  }

  /** A point in `SourceLocation`: 1-based line, optional 1-based column. */
  datatype Position = Position(line: int, column: Option<int>)

  /** `SourceLocation` of `@babel/code-frame`: a start and an optional end. */
  datatype SourceLocation = SourceLocation(start: Position, end: Option<Position>)

  /** `string | string[]` */
  datatype Stack = SingleStack(text: string) | StackLines(lines: seq<string>)

  datatype Diagnostic = Diagnostic(
    message: Option<string>,
    conclusion: Option<string>,
    stack: Option<Stack>,
    id: Option<string>,
    checker: string,
    codeFrame: Option<string>,
    stripedCodeFrame: Option<string>,
    loc: Option<SourceLocation>,
    level: Option<Level>)

  /** An argument that is either one value or an array of them. */
  datatype OneOrMany<T> = One(item: T) | Many(items: seq<T>)
}
