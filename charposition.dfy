/**
 * An iterator adapter that pairs every character of a text with the
 * position it was read at, counting lines and columns as it goes.
 */
module CharPosition {
  import opened Locations
  import opened Errors

  datatype CharWithPosition = CharWithPosition(character: char, position: Location)

  function CountNewLines(s: seq<char>): nat
  {
    if s == [] then 0 else CountNewLines(s[..|s| - 1]) + (if s[|s| - 1] == '\n' then 1 else 0)
  }

  /** The number of characters after the last line break of `s` (all of them if there is none). */
  function ColumnAfter(s: seq<char>): nat
  {
    if s == [] then 0 else if s[|s| - 1] == '\n' then 0 else ColumnAfter(s[..|s| - 1]) + 1
  }

  /** Advances a position over one character. */
  function Advance(position: Location, c: char): Location
  {
    if c == '\n' then position.(index := position.index + 1, line := position.line + 1, column := 0)
    else position.(index := position.index + 1, column := position.column + 1)
  }

  /** The position reached after reading `consumed` from the start of a text in `unit`. */
  function PositionAfter(unit: nat, consumed: seq<char>): Location
  {
    if consumed == [] then NewPosition(unit, 0, 0, 0)
    else Advance(PositionAfter(unit, consumed[..|consumed| - 1]), consumed[|consumed| - 1])
  }

  /**
   * After reading any text, the index is the number of characters read, the
   * line is the number of line breaks read, the column counts the characters
   * since the last line break, and the unit and the length never change.
   */
  lemma {:induction false} PositionAfterCounts(unit: nat, consumed: seq<char>)
    ensures PositionAfter(unit, consumed)
         == Location(unit, |consumed|, CountNewLines(consumed), ColumnAfter(consumed), 0)
  {
    if consumed != [] {
      PositionAfterCounts(unit, consumed[..|consumed| - 1]);
    }
  }

  /** A carriage return is an ordinary character: it moves the column, not the line. */
  lemma CarriageReturnIsOrdinary(unit: nat, consumed: seq<char>)
    ensures PositionAfter(unit, consumed + ['\r']).line == PositionAfter(unit, consumed).line
    ensures PositionAfter(unit, consumed + ['\r']).column == PositionAfter(unit, consumed).column + 1
  {
    assert (consumed + ['\r'])[..|consumed|] == consumed;
  }

  class CharsWithPositionIter {
    /** The characters not yet read. */
    var upstream: seq<char>
    var currentPosition: Location
    /** The characters already read. */
    ghost var consumed: seq<char>
    ghost const unit: nat

    ghost predicate Valid()
      reads this
    {
      currentPosition == PositionAfter(unit, consumed)
    }

    constructor (unit: nat, upstream: seq<char>)
      ensures Valid()
      ensures this.unit == unit && this.upstream == upstream && consumed == []
      ensures currentPosition == NewPosition(unit, 0, 0, 0)
    {
      this.unit := unit;
      this.upstream := upstream;
      currentPosition := NewPosition(unit, 0, 0, 0);
      consumed := [];
    }

    /**
     * Reads the next character together with the position held before the
     * call; `None` exactly when the upstream is exhausted.
     */
    method Next() returns (r: Option<CharWithPosition>)
      requires Valid()
      modifies this
      ensures Valid()
      ensures r.None? <==> old(upstream) == []
      ensures r.None? ==> upstream == old(upstream) && consumed == old(consumed)
      ensures r.Some? ==> (r.value == CharWithPosition(old(upstream)[0], old(currentPosition))
                           && upstream == old(upstream)[1..]
                           && consumed == old(consumed) + [old(upstream)[0]])
    {
      if upstream == [] {
        return None;
      }
      var c := upstream[0];
      upstream := upstream[1..];
      var lastPosition := currentPosition;
      currentPosition := currentPosition.(index := currentPosition.index + 1);
      if c == '\n' {
        currentPosition := currentPosition.(line := currentPosition.line + 1, column := 0);
      } else {
        currentPosition := currentPosition.(column := currentPosition.column + 1);
      }
      consumed := consumed + [c];
      assert consumed[..|consumed| - 1] == old(consumed);
      r := Some(CharWithPosition(c, lastPosition));
    }
  }

  /** Every character of `text` paired with the position it is read at. */
  function WithPositions(unit: nat, text: seq<char>): (r: seq<CharWithPosition>)
    ensures |r| == |text|
  {
    seq(|text|, i requires 0 <= i < |text| => CharWithPosition(text[i], PositionAfter(unit, text[..i])))
  }

  /** The character at index `i` is read at index `i`. */
  lemma WithPositionsIndexed(unit: nat, text: seq<char>, i: nat)
    requires i < |text|
    ensures WithPositions(unit, text)[i] == CharWithPosition(text[i], PositionAfter(unit, text[..i]))
    ensures WithPositions(unit, text)[i].position.index == i
  {
    PositionAfterCounts(unit, text[..i]);
  }

  lemma WithPositionsSnoc(unit: nat, text: seq<char>, c: char)
    ensures WithPositions(unit, text + [c])
         == WithPositions(unit, text) + [CharWithPosition(c, PositionAfter(unit, text))]
  {
    var t := text + [c];
    assert forall i :: 0 <= i < |text| ==> t[..i] == text[..i];
    assert t[..|text|] == text;
  }

  /** Drains the iterator over `text`, as the lexer does through its look-ahead buffer. */
  method ReadAll(unit: nat, text: seq<char>) returns (r: seq<CharWithPosition>)
    ensures r == WithPositions(unit, text)
  {
    var iter := new CharsWithPositionIter(unit, text);
    r := [];
    while true
      invariant iter.Valid() && iter.unit == unit
      invariant iter.consumed + iter.upstream == text
      invariant r == WithPositions(unit, iter.consumed)
      decreases |iter.upstream|
    {
      ghost var before := iter.consumed;
      var next := iter.Next();
      if next.None? {
        assert iter.upstream == [] && iter.consumed + [] == iter.consumed;
        break;
      }
      WithPositionsSnoc(unit, before, next.value.character);
      r := r + [next.value];
    }
  }
}
