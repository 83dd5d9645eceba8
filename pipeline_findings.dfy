/**
 * The second normalising pass, on the macro expander's output, as the
 * parser's entry point runs it after `expand`.  A definition whose body
 * ends with a new line keeps that new line (the statement's closing
 * parenthesis is dropped, not what precedes it), and where the body
 * replaces a name that a new line follows, the run of two new lines has
 * its last new line earlier in the text than its first.
 */
module PipelineFindings {
  import opened Locations
  import opened Errors
  import opened Tokens
  import opened MacroExpander
  import opened Normalizer
  import CommentCleaner

  /** A range on the second line of `a\ndefine(a, 'x'\n)`, which starts at index 2. */
  function At2(index: nat, length: nat): Location
    requires index >= 2
  {
    NewRange(0, index, 1, index - 2, length)
  }

  /**
   * `a\ndefine(a, 'x'\n)`: the lexer's tokens pass the first normalising
   * pass unchanged; the expander turns them into `'x'`, the body's new line
   * (index 15) and the program's new line (index 1); and the as-written
   * step at that run underflows, where the corrected step collapses the two
   * new lines into one range from index 1 to the end of the new line at 15.
   */
  lemma SecondNormalizeUnderflows()
    ensures var a := TokenWithRange(Identifier("a"), NewRange(0, 0, 0, 0, 1));
            var nl1 := TokenWithRange(NewLine, NewRange(0, 1, 0, 1, 1));
            var def := TokenWithRange(Identifier("define"), At2(2, 6));
            var open := TokenWithRange(LeftParen, At2(8, 1));
            var name := TokenWithRange(Identifier("a"), At2(9, 1));
            var comma := TokenWithRange(Comma, At2(10, 1));
            var x := TokenWithRange(Char('x'), At2(12, 3));
            var nl15 := TokenWithRange(NewLine, At2(15, 1));
            var close := TokenWithRange(RightParen, NewRange(0, 16, 2, 0, 1));
            var lexed := [a, nl1, def, open, name, comma, x, nl15, close];
            var expanded := [x, nl15, nl1];
            && NewLinesInOrder(lexed)
            && Normalized(lexed) == lexed
            && Expanded(lexed) == Ok(expanded)
            && !NewLinesInOrder(expanded)
            && StepAsWritten(expanded, 1) == None
            && Step(expanded, 1) == (TokenWithRange(NewLine, NewRange(0, 1, 0, 1, 15)), 3)
  {
    var a := TokenWithRange(Identifier("a"), NewRange(0, 0, 0, 0, 1));
    var nl1 := TokenWithRange(NewLine, NewRange(0, 1, 0, 1, 1));
    var def := TokenWithRange(Identifier("define"), At2(2, 6));
    var open := TokenWithRange(LeftParen, At2(8, 1));
    var name := TokenWithRange(Identifier("a"), At2(9, 1));
    var comma := TokenWithRange(Comma, At2(10, 1));
    var x := TokenWithRange(Char('x'), At2(12, 3));
    var nl15 := TokenWithRange(NewLine, At2(15, 1));
    var close := TokenWithRange(RightParen, NewRange(0, 16, 2, 0, 1));
    ExampleFirstPass(a, nl1, def, open, name, comma, x, nl15, close);
    ExampleExtracts(a, nl1, def, open, name, comma, x, nl15, close);
    ExampleSubstitutes(a, nl1, x, nl15);
    ExampleSecondPass(x, nl15, nl1);
  }

  /** The lexer's tokens of the example are already in normal form. */
  lemma ExampleFirstPass(a: TokenWithRange, nl1: TokenWithRange, def: TokenWithRange, open: TokenWithRange,
                         name: TokenWithRange, comma: TokenWithRange, x: TokenWithRange, nl15: TokenWithRange,
                         close: TokenWithRange)
    requires a.token == Identifier("a") && nl1.token == NewLine && def.token == Identifier("define")
    requires open.token == LeftParen && name.token == Identifier("a") && comma.token == Comma
    requires x.token == Char('x') && nl15.token == NewLine && close.token == RightParen
    ensures var lexed := [a, nl1, def, open, name, comma, x, nl15, close];
            NewLinesInOrder(lexed) && Normalized(lexed) == lexed
  {
    var lexed := [a, nl1, def, open, name, comma, x, nl15, close];
    assert Compacted(lexed);
    CompactOfCompacted(lexed, 0);
    assert lexed[0..] == lexed;
  }

  /** Extraction cuts out the statement and reads the definition `a` of `'x'` and the new line before `)`. */
  lemma ExampleExtracts(a: TokenWithRange, nl1: TokenWithRange, def: TokenWithRange, open: TokenWithRange,
                        name: TokenWithRange, comma: TokenWithRange, x: TokenWithRange, nl15: TokenWithRange,
                        close: TokenWithRange)
    requires a.token == Identifier("a") && nl1.token == NewLine && def.token == Identifier("define")
    requires open.token == LeftParen && name.token == Identifier("a") && comma.token == Comma
    requires x.token == Char('x') && nl15.token == NewLine && close.token == RightParen
    ensures var lexed := [a, nl1, def, open, name, comma, x, nl15, close];
            ExtractedDefinitions(RemoveComments(lexed)) == Ok(([a, nl1], [Definition("a", [x, nl15])]))
  {
    var lexed := [a, nl1, def, open, name, comma, x, nl15, close];
    CommentCleaner.NoCommentsUnchanged(lexed);
    assert FirstDefineFrom(lexed, 2) == Some(2);
    assert FirstDefineFrom(lexed, 1) == Some(2);
    ExampleStatementEnd(lexed);
    var d := Definition("a", [x, nl15]);
    ExampleStatementReads(def, open, name, comma, x, nl15, close);
    assert lexed[2..9] == [def, open, name, comma, x, nl15, close];
    var program := lexed[..2] + lexed[9..];
    assert program == [a, nl1];
    assert FirstDefineFrom(program, 2) == None;
    assert FirstDefineFrom(program, 1) == None;
    assert ExtractFrom(program, [d]) == Ok((program, [d]));
    assert [] + [d] == [d];
    assert ExtractFrom(lexed, []) == ExtractFrom(program, [] + [d]);
  }

  /** The statement that starts at the `define` at index 2 closes at index 8. */
  lemma ExampleStatementEnd(ts: seq<TokenWithRange>)
    requires |ts| == 9 && ts[3].token == LeftParen && ts[8].token == RightParen
    requires forall k :: 4 <= k < 8 ==> !IsLeftParen(ts[k]) && !IsRightParen(ts[k])
    ensures DefinitionEnd(ts, 2) == Some(8)
  {
    assert DefinitionEndFrom(ts, 8, 1) == Some(8);
    assert DefinitionEndFrom(ts, 7, 1) == Some(8);
    assert DefinitionEndFrom(ts, 6, 1) == Some(8);
    assert DefinitionEndFrom(ts, 5, 1) == Some(8);
    assert DefinitionEndFrom(ts, 4, 1) == Some(8);
  }

  /** The statement reads as `a` defined by `'x'` and the new line before `)`. */
  lemma ExampleStatementReads(def: TokenWithRange, open: TokenWithRange, name: TokenWithRange, comma: TokenWithRange,
                              x: TokenWithRange, nl15: TokenWithRange, close: TokenWithRange)
    requires def.token == Identifier("define") && open.token == LeftParen && name.token == Identifier("a")
    requires comma.token == Comma
    ensures ExtractDefinition([def, open, name, comma, x, nl15, close]) == Ok(Definition("a", [x, nl15]))
  {
    var statement := [def, open, name, comma, x, nl15, close];
    assert statement[4..6] == [x, nl15];
  }

  /** Substituting the definition into the program `a`, new line. */
  lemma ExampleSubstitutes(a: TokenWithRange, nl1: TokenWithRange, x: TokenWithRange, nl15: TokenWithRange)
    requires a.token == Identifier("a") && nl1.token == NewLine
    ensures ReplaceIdentifiersSpec([a, nl1], [Definition("a", [x, nl15])]) == [x, nl15, nl1]
  {
    var d := Definition("a", [x, nl15]);
    assert ReplaceAll([], "a", [x, nl15]) == [];
    assert [nl1][1..] == [];
    assert ReplaceAll([nl1], "a", [x, nl15]) == [nl1];
    assert [a, nl1][1..] == [nl1];
    assert ReplaceAll([a, nl1], "a", [x, nl15]) == [x, nl15] + [nl1];
    assert [d][1..] == [];
    assert ReplaceIdentifiersSpec([a, nl1], [d]) == ReplaceIdentifiersSpec([x, nl15, nl1], SubstituteInto([], d));
  }

  /** On the expander's output the run `nl15`, `nl1` ends before it starts. */
  lemma ExampleSecondPass(x: TokenWithRange, nl15: TokenWithRange, nl1: TokenWithRange)
    requires x.token == Char('x') && nl15.token == NewLine && nl1.token == NewLine
    requires nl1.range.index < nl15.range.index
    ensures !NewLinesInOrder([x, nl15, nl1])
    ensures StepAsWritten([x, nl15, nl1], 1) == None
    ensures Step([x, nl15, nl1], 1) == (TokenWithRange(NewLine, RunRange(nl15.range, nl1.range)), 3)
  {
    var ts := [x, nl15, nl1];
    assert IsNewLine(ts[1]) && IsNewLine(ts[2]) && ts[1].range.index > ts[2].range.index;
    assert RunEnd(ts, 3) == 3;
    assert RunEnd(ts, 2) == 3;
  }
}
