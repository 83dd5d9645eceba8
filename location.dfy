/**
 * Source locations: a position is a location of length 0, a range is a
 * position plus the number of characters it covers.  All coordinates are
 * `usize` in the original and are modelled as `nat`; a subtraction that would
 * underflow there is excluded by a precondition here.
 */
module Locations {

  datatype Location = Location(unit: nat, index: nat, line: nat, column: nat, length: nat)
  {
    /** A position is a location that covers no characters. */
    predicate IsPosition() { length == 0 }

    /** The character index just past the last character covered. */
    function EndIndex(): nat { index + length }
  }

  function NewPosition(unit: nat, index: nat, line: nat, column: nat): (r: Location)
    ensures r.IsPosition()
    ensures r.unit == unit && r.index == index && r.line == line && r.column == column
  {
    Location(unit, index, line, column, 0)
  }

  function NewRange(unit: nat, index: nat, line: nat, column: nat, length: nat): (r: Location)
    ensures r.unit == unit && r.index == index && r.line == line && r.column == column
    ensures r.EndIndex() == index + length
  {
    Location(unit, index, line, column, length)
  }

  /** A range that starts at `position` and covers `length` characters. */
  function FromPositionAndLength(position: Location, length: nat): (r: Location)
    ensures FromRangeStart(r) == FromRangeStart(position)
    ensures r.EndIndex() == position.index + length
  {
    NewRange(position.unit, position.index, position.line, position.column, length)
  }

  /** The range from `positionStart` up to, not including, `positionEnd`. */
  function FromPositionPair(positionStart: Location, positionEnd: Location): (r: Location)
    requires positionStart.index <= positionEnd.index
    ensures FromRangeStart(r) == FromRangeStart(positionStart)
    ensures r.EndIndex() == positionEnd.index
  {
    NewRange(positionStart.unit, positionStart.index, positionStart.line, positionStart.column,
             positionEnd.index - positionStart.index)
  }

  /** The range from `positionStart` up to and including `positionEndIncluded`. */
  function FromPositionPairWithEndIncluded(positionStart: Location, positionEndIncluded: Location): (r: Location)
    requires positionStart.index <= positionEndIncluded.index
    ensures FromRangeStart(r) == FromRangeStart(positionStart)
    ensures r.EndIndex() == positionEndIncluded.index + 1
  {
    NewRange(positionStart.unit, positionStart.index, positionStart.line, positionStart.column,
             positionEndIncluded.index - positionStart.index + 1)
  }

  /** The smallest range that starts where `rangeStart` starts and ends where `rangeEnd` ends. */
  function FromRangePair(rangeStart: Location, rangeEnd: Location): (r: Location)
    requires rangeStart.index <= rangeEnd.index
    ensures FromRangeStart(r) == FromRangeStart(rangeStart)
    ensures r.EndIndex() == rangeEnd.EndIndex()
  {
    NewRange(rangeStart.unit, rangeStart.index, rangeStart.line, rangeStart.column,
             rangeEnd.index - rangeStart.index + rangeEnd.length)
  }

  /** The position where a range starts. */
  function FromRangeStart(range: Location): (r: Location)
    ensures r.IsPosition()
    ensures r.unit == range.unit && r.index == range.index && r.line == range.line && r.column == range.column
  {
    NewPosition(range.unit, range.index, range.line, range.column)
  }

  /**
   * The position just past a range, assuming the range does not cross a
   * line break (the column moves by the length as well).
   */
  function FromRangeEnd(range: Location): (r: Location)
    ensures r.IsPosition()
    ensures r.index == range.EndIndex() && r.column == range.column + range.length
    ensures r.unit == range.unit && r.line == range.line
  {
    NewPosition(range.unit, range.index + range.length, range.line, range.column + range.length)
  }

  /** The next position on the same line. */
  function MovePositionForward(position: Location): (r: Location)
    ensures r.index == position.index + 1 && r.column == position.column + 1
    ensures r.unit == position.unit && r.line == position.line && r.length == position.length
  {
    position.(index := position.index + 1, column := position.column + 1)
  }

  /** `n` steps of `MovePositionForward`. */
  function MoveForwardBy(position: Location, n: nat): Location
  {
    if n == 0 then position else MovePositionForward(MoveForwardBy(position, n - 1))
  }

  /** Combining a range with itself gives the range back. */
  lemma RangePairWithItself(range: Location)
    ensures FromRangePair(range, range) == range
  {
  }

  /**
   * The two range builders agree: the end-included variant is the plain
   * variant with the end position moved one character forward.
   */
  lemma EndIncludedIsPairWithNextPosition(positionStart: Location, positionEndIncluded: Location)
    requires positionStart.index <= positionEndIncluded.index
    ensures FromPositionPairWithEndIncluded(positionStart, positionEndIncluded)
         == FromPositionPair(positionStart, MovePositionForward(positionEndIncluded))
  {
  }

  /**
   * Round trip: a range built from a position and a length, read back through
   * its end position, gives the same range.
   */
  lemma PositionPairOfRangeEnds(position: Location, length: nat)
    ensures FromPositionPair(position, FromRangeEnd(FromPositionAndLength(position, length)))
         == FromPositionAndLength(position, length)
  {
  }

  /**
   * The end of a one-line range is its start moved forward once per covered
   * character.
   */
  lemma {:induction false} RangeEndIsRepeatedMove(position: Location, length: nat)
    requires position.IsPosition()
    ensures FromRangeEnd(FromPositionAndLength(position, length)) == MoveForwardBy(position, length)
  {
    if length > 0 {
      RangeEndIsRepeatedMove(position, length - 1);
    }
  }

  /** Combining ranges is associative when they are in order. */
  lemma RangePairAssociative(a: Location, b: Location, c: Location)
    requires a.index <= b.index <= c.index
    ensures FromRangePair(FromRangePair(a, b), c) == FromRangePair(a, FromRangePair(b, c))
  {
  }
}
