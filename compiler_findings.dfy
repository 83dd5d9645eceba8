/**
 * A quantifier call without its count.  The parser does not check how many
 * arguments a call has, so `repeat('a')` parses; the compiler then reads
 * the count by indexing the argument list, which panics on an empty list.
 * The model's compiler refuses such a call with an error instead.
 */
module CompilerFindings {
  import opened Errors
  import opened Locations
  import opened Tokens
  import Ast
  import opened Parser
  import opened Fragments

  function At(t: Token): TokenWithRange
  {
    TokenWithRange(t, Location(0, 0, 0, 0, 0))
  }

  /** The tokens of `repeat('a')`. */
  function RepeatWithoutCount(): seq<TokenWithRange>
  {
    [At(Identifier("repeat")), At(LeftParen), At(Token.Char('a')), At(RightParen)]
  }

  /** The call the parser builds from those tokens: `repeat` with no argument. */
  function RepeatCall(): Ast.Expression
  {
    Ast.Expression.FunctionCall(Ast.FunctionCall.FunctionCall(
      Ast.FunctionName.Repeat, Ast.Expression.Literal(Ast.Literal.Char('a')), []))
  }

  /** The literal `'a'` before `)` parses alone and stops at the `)`. */
  lemma CharArgParses(l: Location)
    ensures var ts := RepeatWithoutCount();
      Expression(Cursor(ts[2..], l)) == Ok(Parsed(RepeatCall().call.expression, Cursor(ts[3..], ts[2].range)))
  {
    var ts := RepeatWithoutCount();
    var a := Ast.Expression.Literal(Ast.Literal.Char('a'));
    var c3 := Cursor(ts[3..], ts[2].range);
    assert BaseExpression(Cursor(ts[2..], l)) == Ok(Parsed(a, c3));
    assert NotationTail(a, c3) == Ok(Parsed(a, c3));
    assert SimpleExpression(Cursor(ts[2..], l)) == Ok(Parsed(a, c3));
  }

  /** A `)` straight away closes an empty argument list. */
  lemma NoArgsParse(l: Location)
    ensures var ts := RepeatWithoutCount();
      CallArgs(Cursor(ts[3..], l)) == Ok(Parsed([], Cursor([], ts[3].range)))
  {
    var ts := RepeatWithoutCount();
    assert ArgsLoop([], Cursor(ts[3..], l)) == Ok(Parsed([], Cursor(ts[3..], l)));
  }

  /** The whole call, before what follows it is looked at. */
  lemma RepeatCallParses(l: Location)
    ensures FunctionCall(Cursor(RepeatWithoutCount(), l))
            == Ok(Parsed(RepeatCall(), Cursor([], Location(0, 0, 0, 0, 0))))
  {
    var ts := RepeatWithoutCount();
    CharArgParses(ts[1].range);
    NoArgsParse(ts[2].range);
    assert Cursor(ts[1..], ts[0].range).Next().SkipNewLine() == Cursor(ts[2..], ts[1].range);
    assert Cursor(ts[3..], ts[2].range).SkipSeparator() == Cursor(ts[3..], ts[2].range);
  }

  /**
   * As written: `repeat('a')` parses to a call with no arguments, and
   * reading its count the way the original does finds nothing (a panic).
   */
  lemma RepeatWithoutCountPanics()
    ensures Expression(Cursor(RepeatWithoutCount(), Location(0, 0, 0, 0, 0)))
            == Ok(Parsed(RepeatCall(), Cursor([], Location(0, 0, 0, 0, 0))))
    ensures ArgNumberAsWritten(RepeatCall().call.args, 0).None?
  {
    var l := Location(0, 0, 0, 0, 0);
    var c := Cursor([], l);
    RepeatCallParses(l);
    assert BaseExpression(Cursor(RepeatWithoutCount(), l)) == Ok(Parsed(RepeatCall(), c));
    assert NotationTail(RepeatCall(), c) == Ok(Parsed(RepeatCall(), c));
    assert SimpleExpression(Cursor(RepeatWithoutCount(), l)) == Ok(Parsed(RepeatCall(), c));
  }

  /** Corrected: a count-taking call that lacks its count is refused. */
  lemma MissingCountRefused(name: Ast.FunctionName, e: Ast.Expression, s: Building)
    requires s.Valid()
    requires name in {Ast.FunctionName.Repeat, Ast.FunctionName.RepeatRange, Ast.FunctionName.RepeatRangeLazy,
                      Ast.FunctionName.AtLeast, Ast.FunctionName.AtLeastLazy}
    ensures Emit(Ast.Expression.FunctionCall(Ast.FunctionCall.FunctionCall(name, e, [])), s) == Err(Message)
  {
    assert Emit(Ast.Expression.FunctionCall(Ast.FunctionCall.FunctionCall(name, e, [])), s)
        == EmitFunctionCall(Ast.FunctionCall.FunctionCall(name, e, []), s);
  }
}
