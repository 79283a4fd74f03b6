/**
 * Conversions between the server's native positions and ranges, the
 * Language Server Protocol's, and MSBuild's element locations
 * (src/LanguageServer.Engine/Utilities/ModelConversions.cs).
 *
 * A native Position carries the numbering base it was made in. The
 * protocol's positions are always zero-based; MSBuild's locations and
 * the native default are one-based.
 */
module ModelConversions {
  import opened Wrappers

  datatype Base = ZeroBased | OneBased

  /** A native (line, column) position, in the numbering base `base`. */
  datatype Position = Position(lineNumber: int, columnNumber: int, base: Base)

  /** A native range between two positions. */
  datatype Range = Range(start: Position, end: Position)

  /** A protocol position: zero-based line and character. */
  datatype LspPosition = LspPosition(line: int, character: int)

  /** A protocol range. */
  datatype LspRange = LspRange(start: LspPosition, end: LspPosition)

  /** An MSBuild element location: one-based line and column, line 0 when there is none. */
  datatype ElementLocation = ElementLocation(line: int, column: int)

  /** An XML text span: absolute start and end offsets. */
  datatype TextSpan = TextSpan(start: nat, end: nat)

  /** The position lookup of one text snapshot: absolute offset to native position. */
  datatype TextPositions = TextPositions(getPosition: nat -> Position)

  /** The sentinel for "no location". */
  const Invalid: Position := Position(0, 0, OneBased)

  /** The same place, numbered from zero. */
  function ToZeroBased(p: Position): (r: Position)
    ensures r.base == ZeroBased
    ensures p.base == ZeroBased ==> r == p
    ensures p.base == OneBased ==> r.lineNumber == p.lineNumber - 1 && r.columnNumber == p.columnNumber - 1
  {
    if p.base == ZeroBased then p else Position(p.lineNumber - 1, p.columnNumber - 1, ZeroBased)
  }

  /** The same place, numbered from one. */
  function ToOneBased(p: Position): (r: Position)
    ensures r.base == OneBased
    ensures p.base == OneBased ==> r == p
    ensures p.base == ZeroBased ==> r.lineNumber == p.lineNumber + 1 && r.columnNumber == p.columnNumber + 1
  {
    if p.base == OneBased then p else Position(p.lineNumber + 1, p.columnNumber + 1, OneBased)
  }

  /** Two native positions denote the same place, whatever their bases. */
  predicate SamePlace(p: Position, q: Position) {
    ToZeroBased(p) == ToZeroBased(q)
  }

  /** ToZeroBased and ToOneBased are inverse shifts that keep the place. */
  lemma BaseShiftsInverse(p: Position)
    ensures ToOneBased(ToZeroBased(p)) == ToOneBased(p)
    ensures ToZeroBased(ToOneBased(p)) == ToZeroBased(p)
    ensures SamePlace(p, ToZeroBased(p)) && SamePlace(p, ToOneBased(p))
  {
  }

  /** Position to protocol position (null stays null). */
  function PositionToLsp(position: Option<Position>): (r: Option<LspPosition>)
    ensures r.None? <==> position.None?
    ensures r.Some? ==> SamePlace(Position(r.value.line, r.value.character, ZeroBased), position.value)
  {
    if position.None? then None
    else
      var p := ToZeroBased(position.value);  // the protocol is zero-based
      Some(LspPosition(p.lineNumber, p.columnNumber))
  }

  /** Protocol position to a one-based native position (null stays null). */
  function LspPositionToNative(position: Option<LspPosition>): (r: Option<Position>)
    ensures r.None? <==> position.None?
    ensures r.Some? ==> r.value.base == OneBased
    ensures r.Some? ==> PositionToLsp(r) == position
  {
    if position.None? then None
    else Some(ToOneBased(Position(position.value.line, position.value.character, ZeroBased)))
  }

  /** Native to protocol and back yields the one-based form of the same place. */
  lemma PositionRoundTrip(p: Position)
    ensures LspPositionToNative(PositionToLsp(Some(p))) == Some(ToOneBased(p))
    ensures p.base == OneBased ==> LspPositionToNative(PositionToLsp(Some(p))) == Some(p)
  {
  }

  /** MSBuild element location to native position (null stays null; line 0 is Invalid). */
  function LocationToNative(location: Option<ElementLocation>): (r: Option<Position>)
    ensures r.None? <==> location.None?
    ensures location.Some? && location.value.line == 0 ==> r == Some(Invalid)
    ensures location.Some? && location.value.line != 0 ==>
              r == Some(Position(location.value.line, location.value.column, OneBased))
  {
    if location.None? then None
    else if location.value.line == 0 then Some(Invalid)
    else Some(Position(location.value.line, location.value.column, OneBased))
  }

  /** Native range to protocol range, position by position (null stays null). */
  function RangeToLsp(range: Option<Range>): (r: Option<LspRange>)
    ensures r.None? <==> range.None?
    ensures r.Some? ==> Some(r.value.start) == PositionToLsp(Some(range.value.start))
    ensures r.Some? ==> Some(r.value.end) == PositionToLsp(Some(range.value.end))
  {
    if range.None? then None
    else Some(LspRange(PositionToLsp(Some(range.value.start)).value, PositionToLsp(Some(range.value.end)).value))
  }

  /** Protocol range to native range, position by position (null stays null). */
  function LspRangeToNative(range: Option<LspRange>): (r: Option<Range>)
    ensures r.None? <==> range.None?
    ensures r.Some? ==> Some(r.value.start) == LspPositionToNative(Some(range.value.start))
    ensures r.Some? ==> Some(r.value.end) == LspPositionToNative(Some(range.value.end))
    ensures r.Some? ==> RangeToLsp(r) == range
  {
    if range.None? then None
    else Some(Range(LspPositionToNative(Some(range.value.start)).value, LspPositionToNative(Some(range.value.end)).value))
  }

  /** Native to protocol and back yields the one-based form of both ends. */
  lemma RangeRoundTrip(range: Range)
    ensures LspRangeToNative(RangeToLsp(Some(range))) == Some(Range(ToOneBased(range.start), ToOneBased(range.end)))
  {
    PositionRoundTrip(range.start);
    PositionRoundTrip(range.end);
  }

  /**
   * A text span to a native range, looking both ends up in `textPositions`.
   * Throws when there is no lookup, or when the end lands in column 0.
   */
  function SpanToNative(span: TextSpan, textPositions: Option<TextPositions>): (r: Result<Range>)
    ensures r == Err(ArgumentNull) <==> textPositions.None?
    ensures r == Err(InvalidOperation) <==>
              textPositions.Some? && textPositions.value.getPosition(span.end).columnNumber == 0
    ensures r.Ok? ==> && r.value.start == textPositions.value.getPosition(span.start)
                      && r.value.end == textPositions.value.getPosition(span.end)
                      && r.value.end.columnNumber != 0
  {
    if textPositions.None? then Err(ArgumentNull)
    else
      var startPosition := textPositions.value.getPosition(span.start);
      var endPosition := textPositions.value.getPosition(span.end);
      if endPosition.columnNumber == 0 then Err(InvalidOperation)
      else Ok(Range(startPosition, endPosition))
  }
}
