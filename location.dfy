/**
 * `tsLocationToBabelLocation`: TypeScript reports positions as 0-based line
 * and character; `@babel/code-frame` wants 1-based line and column.
 */
module Location {
  import opened Wrappers
  import opened Diagnostics

  /** TypeScript's `LineAndCharacter`, both 0-based. */
  datatype LineAndCharacter = LineAndCharacter(line: int, character: int)

  /** `Record<'start' | 'end', LineAndCharacter>` */
  datatype TsRange = TsRange(start: LineAndCharacter, end: LineAndCharacter)

  /** Every coordinate moves up by one; nothing is range-checked, so
      negative or out-of-range inputs are shifted like any other. */
  function TsLocationToBabelLocation(ts: TsRange): (r: SourceLocation)
    ensures r.start.line == ts.start.line + 1 && r.start.column == Some(ts.start.character + 1)
    ensures r.end.Some? && r.end.value.line == ts.end.line + 1
    ensures r.end.value.column == Some(ts.end.character + 1)
    ensures BabelLocationToTs(r) == Some(ts)
  {
    SourceLocation(
      Position(ts.start.line + 1, Some(ts.start.character + 1)),
      Some(Position(ts.end.line + 1, Some(ts.end.character + 1))))
  }

  /** The inverse translation, defined where the Babel location carries an
      end and both columns. */
  function BabelLocationToTs(loc: SourceLocation): Option<TsRange> {
    if loc.start.column.Some? && loc.end.Some? && loc.end.value.column.Some? then
      Some(TsRange(
        LineAndCharacter(loc.start.line - 1, loc.start.column.value - 1),
        LineAndCharacter(loc.end.value.line - 1, loc.end.value.column.value - 1)))
    else None
  }

  /** Every complete Babel location is the translation of exactly one
      TypeScript range. */
  lemma BabelLocationRoundTrip(loc: SourceLocation)
    ensures BabelLocationToTs(loc).Some? <==>
            loc.start.column.Some? && loc.end.Some? && loc.end.value.column.Some?
    ensures BabelLocationToTs(loc).Some? ==>
            TsLocationToBabelLocation(BabelLocationToTs(loc).value) == loc
  {
  }
}
