/**
 * The normaliser: the pass after comment removal that collapses each run
 * of new lines into one, lets a comma absorb the new lines around it, and
 * drops a new line at either end of the document.
 *
 * The pass runs twice: on the lexer's output with comments removed, and
 * again on the macro expander's output.  A collapsed run's range is
 * combined from the first and the last new line of the run with
 * `from_range_pair`, whose length is an unsigned subtraction in the
 * original.  After expansion the last new line of a run can start before
 * the first (a definition body's trailing new line followed by the new line
 * that came after the name it replaced), and the subtraction underflows.
 * `StepAsWritten` models that outcome; `Step`, used everywhere else, starts
 * the collapsed range at whichever of the two new lines comes first.
 */
module Normalizer {
  import opened Locations
  import opened Errors
  import opened Tokens

  predicate IsNewLine(t: TokenWithRange) { t.token.NewLine? }

  predicate IsComma(t: TokenWithRange) { t.token.Comma? }

  /**
   * Every new line directly followed by another new line starts no later
   * than it: true of the lexer's output, not always of the expander's.
   */
  predicate NewLinesInOrder(ts: seq<TokenWithRange>)
  {
    forall m :: 0 <= m < |ts| - 1 && IsNewLine(ts[m]) && IsNewLine(ts[m + 1])
      ==> ts[m].range.index <= ts[m + 1].range.index
  }

  /** The first index at or after `i` that does not hold a new line. */
  function RunEnd(ts: seq<TokenWithRange>, i: nat): (r: nat)
    requires i <= |ts|
    ensures i <= r <= |ts|
    ensures forall m :: i <= m < r ==> IsNewLine(ts[m])
    ensures r < |ts| ==> !IsNewLine(ts[r])
    decreases |ts| - i
  {
    if i < |ts| && IsNewLine(ts[i]) then RunEnd(ts, i + 1) else i
  }

  /** In a run of new lines, the first starts no later than any other. */
  lemma {:induction false} RunInOrder(ts: seq<TokenWithRange>, i: nat, k: nat)
    requires NewLinesInOrder(ts) && i <= k < |ts|
    requires forall m :: i <= m <= k ==> IsNewLine(ts[m])
    ensures ts[i].range.index <= ts[k].range.index
  {
    if i < k {
      RunInOrder(ts, i, k - 1);
    }
  }

  /**
   * The range of a collapsed run whose first new line is at `first` and
   * whose last is at `last`: from the start of the one that comes first in
   * the text to the end of the other.  Where `last` does not start before
   * `first` this is the original's `from_range_pair(first, last)`.
   */
  function RunRange(first: Location, last: Location): (r: Location)
    ensures r.index == if first.index <= last.index then first.index else last.index
    ensures r.EndIndex() == if first.index <= last.index then last.EndIndex() else first.EndIndex()
    ensures first.index <= last.index ==> r == FromRangePair(first, last)
  {
    if first.index <= last.index then FromRangePair(first, last) else FromRangePair(last, first)
  }

  /**
   * One step of the outer loop at index `i`: the token it pushes and the
   * index it resumes at.  A new line takes the whole run; if a comma follows
   * the run, the comma is pushed instead, with the new lines after it
   * consumed too.  A comma consumes the new lines after it.  Any other
   * token is pushed as it is.
   */
  function Step(ts: seq<TokenWithRange>, i: nat): (r: (TokenWithRange, nat))
    requires i < |ts|
    ensures i < r.1 <= |ts|
  {
    var current := ts[i];
    match current.token
    case NewLine =>
      var j := RunEnd(ts, i + 1);
      if j < |ts| && IsComma(ts[j]) then
        (TokenWithRange(Comma, FromRangePair(ts[j].range, ts[j].range)), RunEnd(ts, j + 1))
      else
        (TokenWithRange(NewLine, RunRange(current.range, ts[j - 1].range)), j)
    case Comma =>
      (TokenWithRange(Comma, FromRangePair(current.range, current.range)), RunEnd(ts, i + 1))
    case _ => (current, i + 1)
  }

  /**
   * One step of the outer loop as written: `None` where `from_range_pair`
   * subtracts the start of the run's first new line from the start of an
   * earlier last one, which panics in a debug build and wraps in a release
   * build.  Otherwise the step of `Step`.
   */
  function StepAsWritten(ts: seq<TokenWithRange>, i: nat): (r: Option<(TokenWithRange, nat)>)
    requires i < |ts|
    ensures r.None? <==>
              IsNewLine(ts[i]) && !(RunEnd(ts, i + 1) < |ts| && IsComma(ts[RunEnd(ts, i + 1)]))
              && ts[RunEnd(ts, i + 1) - 1].range.index < ts[i].range.index
    ensures r.Some? ==> r.value == Step(ts, i)
  {
    var current := ts[i];
    match current.token
    case NewLine =>
      var j := RunEnd(ts, i + 1);
      if j < |ts| && IsComma(ts[j]) then Some(Step(ts, i))
      else if ts[j - 1].range.index < current.range.index then None
      else Some((TokenWithRange(NewLine, FromRangePair(current.range, ts[j - 1].range)), j))
    case _ => Some(Step(ts, i))
  }

  /** On a stream whose consecutive new lines are in text order, the step as written never underflows. */
  lemma InOrderNeverUnderflows(ts: seq<TokenWithRange>, i: nat)
    requires NewLinesInOrder(ts) && i < |ts|
    ensures StepAsWritten(ts, i) == Some(Step(ts, i))
  {
    if IsNewLine(ts[i]) {
      RunInOrder(ts, i, RunEnd(ts, i + 1) - 1);
    }
  }

  /** The tokens the outer loop pushes from index `i` on. */
  function Compact(ts: seq<TokenWithRange>, i: nat): seq<TokenWithRange>
    requires i <= |ts|
    decreases |ts| - i
  {
    if i == |ts| then []
    else [Step(ts, i).0] + Compact(ts, Step(ts, i).1)
  }

  lemma CompactUnfold(ts: seq<TokenWithRange>, i: nat)
    requires i < |ts|
    ensures Compact(ts, i) == [Step(ts, i).0] + Compact(ts, Step(ts, i).1)
  {
  }

  /** Drops a new line at the start, then a new line at the end. */
  function TrimEnds(ts: seq<TokenWithRange>): (r: seq<TokenWithRange>)
  {
    var front := if |ts| > 0 && IsNewLine(ts[0]) then ts[1..] else ts;
    if |front| > 0 && IsNewLine(front[|front| - 1]) then front[..|front| - 1] else front
  }

  function Normalized(ts: seq<TokenWithRange>): seq<TokenWithRange>
  {
    TrimEnds(Compact(ts, 0))
  }

  /** The new lines after index `i`, consumed; returns where they end. */
  method SkipNewLines(tokens: seq<TokenWithRange>, i: nat) returns (next: nat)
    requires i <= |tokens|
    ensures next == RunEnd(tokens, i)
  {
    next := i;
    while next < |tokens| && tokens[next].token.NewLine?
      invariant i <= next <= |tokens|
      invariant RunEnd(tokens, next) == RunEnd(tokens, i)
      decreases |tokens| - next
    {
      next := next + 1;
    }
  }

  /** The body of the outer loop: reads one token, or one run, at `i`. */
  method CompactOne(tokens: seq<TokenWithRange>, i: nat) returns (compact: TokenWithRange, next: nat)
    requires i < |tokens|
    ensures (compact, next) == Step(tokens, i)
  {
    var tokenWithRange := tokens[i];
    next := i + 1;
    var startRange := tokenWithRange.range;
    var endRange := startRange;
    match tokenWithRange.token {
      case NewLine =>
        while next < |tokens| && tokens[next].token.NewLine?
          invariant i < next <= |tokens|
          invariant RunEnd(tokens, next) == RunEnd(tokens, i + 1)
          invariant forall m :: i <= m < next ==> IsNewLine(tokens[m])
          invariant endRange == tokens[next - 1].range
          decreases |tokens| - next
        {
          endRange := tokens[next].range;
          next := next + 1;
        }
        if next < |tokens| && tokens[next].token.Comma? {
          startRange := tokens[next].range;
          endRange := startRange;
          next := SkipNewLines(tokens, next + 1);
          compact := TokenWithRange(Comma, FromRangePair(startRange, endRange));
        } else {
          compact := TokenWithRange(NewLine, RunRange(startRange, endRange));
        }
      case Comma =>
        next := SkipNewLines(tokens, next);
        compact := TokenWithRange(Comma, FromRangePair(startRange, endRange));
      case _ =>
        compact := tokenWithRange;
    }
  }

  method Normalize(tokens: seq<TokenWithRange>) returns (normalizedTokens: seq<TokenWithRange>)
    ensures normalizedTokens == Normalized(tokens)
  {
    normalizedTokens := [];
    var i := 0;
    while i < |tokens|
      invariant i <= |tokens|
      invariant Compact(tokens, 0) == normalizedTokens + Compact(tokens, i)
      decreases |tokens| - i
    {
      var compact, next := CompactOne(tokens, i);
      CompactUnfold(tokens, i);
      assert normalizedTokens + Compact(tokens, i) == (normalizedTokens + [compact]) + Compact(tokens, next);
      normalizedTokens := normalizedTokens + [compact];
      i := next;
    }
    assert Compact(tokens, i) == [];
    assert normalizedTokens == Compact(tokens, 0) by {
      assert normalizedTokens + [] == normalizedTokens;
    }
    normalizedTokens := RemoveEndNewLines(normalizedTokens);
  }

  /** Removes the document's leading and trailing new lines, in place. */
  method RemoveEndNewLines(ts: seq<TokenWithRange>) returns (r: seq<TokenWithRange>)
    ensures r == TrimEnds(ts)
  {
    r := ts;
    if |r| > 0 && r[0].token.NewLine? {
      r := r[1..];
    }
    if |r| > 0 && r[|r| - 1].token.NewLine? {
      r := r[..|r| - 1];
    }
  }

  /**
   * The shape the outer loop leaves: no new line next to another new line,
   * and no new line on either side of a comma.
   */
  predicate Compacted(ts: seq<TokenWithRange>)
  {
    forall k :: 0 <= k < |ts| - 1 ==>
      !(IsNewLine(ts[k]) && IsNewLine(ts[k + 1])) &&
      !(IsNewLine(ts[k]) && IsComma(ts[k + 1])) &&
      !(IsComma(ts[k]) && IsNewLine(ts[k + 1]))
  }

  /** The tokens of `ts` that are neither new lines nor commas, in order. */
  function Others(ts: seq<TokenWithRange>): seq<TokenWithRange>
  {
    if ts == [] then []
    else (if IsNewLine(ts[0]) || IsComma(ts[0]) then [] else [ts[0]]) + Others(ts[1..])
  }

  /**
   * What one step pushes: a new line only for a run of new lines that no
   * comma follows, resuming at a token that is neither; a comma resuming
   * after the new lines that follow it; any other token unchanged.
   */
  lemma StepShape(ts: seq<TokenWithRange>, i: nat)
    requires i < |ts|
    ensures IsNewLine(Step(ts, i).0) ==>
              IsNewLine(ts[i]) && (Step(ts, i).1 < |ts| ==> !IsNewLine(ts[Step(ts, i).1]) && !IsComma(ts[Step(ts, i).1]))
    ensures IsComma(Step(ts, i).0) ==> Step(ts, i).1 < |ts| ==> !IsNewLine(ts[Step(ts, i).1])
    ensures !IsNewLine(ts[i]) && !IsComma(ts[i]) ==> Step(ts, i) == (ts[i], i + 1)
  {
  }

  /**
   * The output of the outer loop has no two new lines in a row and no new
   * line before or after a comma; its first token is the first step's.
   */
  lemma {:induction false} CompactShape(ts: seq<TokenWithRange>, i: nat)
    requires i <= |ts|
    ensures Compacted(Compact(ts, i))
    ensures |Compact(ts, i)| > 0 ==> i < |ts| && Compact(ts, i)[0] == Step(ts, i).0
    decreases |ts| - i
  {
    if i < |ts| {
      var (s, n) := Step(ts, i);
      CompactShape(ts, n);
      StepShape(ts, i);
      var rest := Compact(ts, n);
      if |rest| > 0 {
        StepShape(ts, n);
      }
      var c := Compact(ts, i);
      assert c == [s] + rest;
      forall k | 0 <= k < |c| - 1
        ensures !(IsNewLine(c[k]) && IsNewLine(c[k + 1]))
        ensures !(IsNewLine(c[k]) && IsComma(c[k + 1]))
        ensures !(IsComma(c[k]) && IsNewLine(c[k + 1]))
      {
        if k > 0 {
          assert c[k] == rest[k - 1] && c[k + 1] == rest[k];
        }
      }
    }
  }

  /** Trimming keeps the compacted shape and leaves no new line at either end. */
  lemma TrimShape(u: seq<TokenWithRange>)
    requires Compacted(u)
    ensures Compacted(TrimEnds(u))
    ensures |TrimEnds(u)| > 0 ==> !IsNewLine(TrimEnds(u)[0]) && !IsNewLine(TrimEnds(u)[|TrimEnds(u)| - 1])
  {
    var front := if |u| > 0 && IsNewLine(u[0]) then u[1..] else u;
    assert Compacted(front) by {
      forall k | 0 <= k < |front| - 1
        ensures !(IsNewLine(front[k]) && IsNewLine(front[k + 1]))
        ensures !(IsNewLine(front[k]) && IsComma(front[k + 1]))
        ensures !(IsComma(front[k]) && IsNewLine(front[k + 1]))
      {
        if front != u {
          assert front[k] == u[k + 1] && front[k + 1] == u[k + 2];
        }
      }
    }
    if |front| > 1 && front != u {
      assert front[0] == u[1];
    }
  }

  /**
   * The normalised stream has no two new lines in a row, no new line next to
   * a comma, and no new line at either end.
   */
  lemma NormalizedShape(ts: seq<TokenWithRange>)
    ensures Compacted(Normalized(ts))
    ensures |Normalized(ts)| > 0 ==>
              !IsNewLine(Normalized(ts)[0]) && !IsNewLine(Normalized(ts)[|Normalized(ts)| - 1])
  {
    CompactShape(ts, 0);
    TrimShape(Compact(ts, 0));
  }

  lemma {:induction false} OthersAppend(a: seq<TokenWithRange>, b: seq<TokenWithRange>)
    ensures Others(a + b) == Others(a) + Others(b)
  {
    if a == [] {
      assert a + b == b;
    } else {
      assert (a + b)[0] == a[0] && (a + b)[1..] == a[1..] + b;
      OthersAppend(a[1..], b);
    }
  }

  /** New lines and commas between `i` and `n` contribute nothing. */
  lemma {:induction false} SkipSeparators(ts: seq<TokenWithRange>, i: nat, n: nat)
    requires i <= n <= |ts|
    requires forall m :: i <= m < n ==> IsNewLine(ts[m]) || IsComma(ts[m])
    ensures Others(ts[i..]) == Others(ts[n..])
    decreases n - i
  {
    if i < n {
      assert ts[i..][1..] == ts[i + 1..];
      SkipSeparators(ts, i + 1, n);
    }
  }

  /** One step reads only new lines and commas, or one other token. */
  lemma StepReads(ts: seq<TokenWithRange>, i: nat)
    requires i < |ts|
    ensures Others([Step(ts, i).0]) + Others(ts[Step(ts, i).1..]) == Others(ts[i..])
  {
    var (s, n) := Step(ts, i);
    if IsNewLine(ts[i]) || IsComma(ts[i]) {
      SkipSeparators(ts, i, n);
    } else {
      assert ts[i..][1..] == ts[i + 1..];
    }
  }

  /** Every token other than a new line or a comma passes through the outer loop unchanged and in order. */
  lemma {:induction false} CompactKeepsOthers(ts: seq<TokenWithRange>, i: nat)
    requires i <= |ts|
    ensures Others(Compact(ts, i)) == Others(ts[i..])
    decreases |ts| - i
  {
    if i < |ts| {
      CompactUnfold(ts, i);
      CompactKeepsOthers(ts, Step(ts, i).1);
      OthersAppend([Step(ts, i).0], Compact(ts, Step(ts, i).1));
      StepReads(ts, i);
    }
  }

  /** Normalising keeps every token other than a new line or a comma, unchanged and in order. */
  lemma NormalizeKeepsOthers(ts: seq<TokenWithRange>)
    ensures Others(Normalized(ts)) == Others(ts)
  {
    var c := Compact(ts, 0);
    CompactKeepsOthers(ts, 0);
    assert ts[0..] == ts;
    var front := if |c| > 0 && IsNewLine(c[0]) then c[1..] else c;
    if front != c {
      OthersAppend([c[0]], front);
      assert c == [c[0]] + front;
    }
    if |front| > 0 && IsNewLine(front[|front| - 1]) {
      var last := front[|front| - 1];
      OthersAppend(front[..|front| - 1], [last]);
      assert front == front[..|front| - 1] + [last];
    }
  }

  /**
   * The ranges of what one step pushes: a collapsed run of new lines spans
   * from the start of its first new line to the end of its last, or, where
   * the last starts before the first, from the start of the last to the end
   * of the first; a comma, whether it absorbed new lines before it or not,
   * keeps its own range.
   */
  lemma StepRanges(ts: seq<TokenWithRange>, i: nat)
    requires i < |ts|
    ensures IsNewLine(Step(ts, i).0) ==>
              var j := Step(ts, i).1;
              var first, last := ts[i].range, ts[j - 1].range;
              (forall m :: i <= m < j ==> IsNewLine(ts[m])) &&
              (first.index <= last.index ==>
                 FromRangeStart(Step(ts, i).0.range) == FromRangeStart(first) &&
                 Step(ts, i).0.range.EndIndex() == last.EndIndex()) &&
              (last.index < first.index ==>
                 FromRangeStart(Step(ts, i).0.range) == FromRangeStart(last) &&
                 Step(ts, i).0.range.EndIndex() == first.EndIndex())
    ensures IsComma(Step(ts, i).0) ==>
              exists j :: i <= j < Step(ts, i).1 && Step(ts, i).0 == ts[j] && IsComma(ts[j]) &&
                (forall m :: i <= m < j ==> IsNewLine(ts[m])) &&
                (forall m :: j < m < Step(ts, i).1 ==> IsNewLine(ts[m]))
  {
    var j := RunEnd(ts, i + 1);
    if IsNewLine(ts[i]) && j < |ts| && IsComma(ts[j]) {
      RangePairWithItself(ts[j].range);
      assert Step(ts, i).0 == ts[j];
    } else if IsComma(ts[i]) {
      RangePairWithItself(ts[i].range);
      assert Step(ts, i).0 == ts[i];
    }
  }

  /** On a compacted stream, the outer loop changes nothing. */
  lemma {:induction false} CompactOfCompacted(u: seq<TokenWithRange>, i: nat)
    requires Compacted(u) && i <= |u|
    ensures Compact(u, i) == u[i..]
    decreases |u| - i
  {
    if i < |u| {
      CompactUnfold(u, i);
      if IsNewLine(u[i]) || IsComma(u[i]) {
        RangePairWithItself(u[i].range);
        assert RunEnd(u, i + 1) == i + 1;
      }
      assert Step(u, i) == (u[i], i + 1);
      CompactOfCompacted(u, i + 1);
      assert u[i..] == [u[i]] + u[i + 1..];
    }
  }

  /** Normalising a normalised stream changes nothing. */
  lemma NormalizeIdempotent(ts: seq<TokenWithRange>)
    ensures NewLinesInOrder(Normalized(ts))
    ensures Normalized(Normalized(ts)) == Normalized(ts)
  {
    var u := Normalized(ts);
    NormalizedShape(ts);
    CompactOfCompacted(u, 0);
    assert u[0..] == u;
  }
}
