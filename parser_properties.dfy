/**
 * Properties of the parser's grammar: the name maps are exact, `||` groups
 * to the right, the postfix notations and `{...}` quantifiers wrap the
 * expression before them, a rear call is the prefix call written the other
 * way round, and lists stop at the first missing separator.
 */
module ParserProperties {
  import opened Locations
  import opened Errors
  import opened Tokens
  import Ast
  import opened Parser

  // ---------------------------------------------------------------------
  // Names

  /** A name is accepted exactly when it is how the program writes `n`; every other name is an error at `range`. */
  lemma AssertionNameExact(name: string, range: Location, n: Ast.AssertionName)
    ensures AssertionNameFromStr(name, range) == Ok(n) <==> AssertionNameText(n) == name
    ensures (forall m :: AssertionNameText(m) != name) ==> AssertionNameFromStr(name, range) == Err(MessageWithLocation(range))
  {
    match n
    case Start =>
    case End =>
    case IsBound =>
    case IsNotBound =>
  }

  lemma SpecialCharNameExact(name: string, range: Location, n: Ast.SpecialCharName)
    ensures SpecialCharNameFromStr(name, range) == Ok(n) <==> SpecialCharNameText(n) == name
    ensures name != "char_any" ==> SpecialCharNameFromStr(name, range) == Err(MessageWithLocation(range))
  {
  }

  lemma PresetCharSetNameExact(name: string, range: Location, n: Ast.PresetCharSetName)
    ensures PresetCharSetNameFromStr(name, range) == Ok(n) <==> PresetCharSetNameText(n) == name
    ensures (forall m :: PresetCharSetNameText(m) != name) ==> PresetCharSetNameFromStr(name, range) == Err(MessageWithLocation(range))
  {
    match n
    case CharWord =>
    case CharNotWord =>
    case CharSpace =>
    case CharNotSpace =>
    case CharDigit =>
    case CharNotDigit =>
  }

  lemma FunctionNameExact(name: string, range: Location, n: Ast.FunctionName)
    ensures FunctionNameFromStr(name, range) == Ok(n) <==> FunctionNameText(n) == name
    ensures (forall m :: FunctionNameText(m) != name) ==> FunctionNameFromStr(name, range) == Err(MessageWithLocation(range))
  {
    match n
    case Optional =>
    case OneOrMore =>
    case ZeroOrMore =>
    case Repeat =>
    case RepeatRange =>
    case AtLeast =>
    case OptionalLazy =>
    case OneOrMoreLazy =>
    case ZeroOrMoreLazy =>
    case RepeatRangeLazy =>
    case AtLeastLazy =>
    case IsBefore =>
    case IsAfter =>
    case IsNotBefore =>
    case IsNotAfter =>
    case Name =>
    case Index =>
  }

  // ---------------------------------------------------------------------
  // Logic or

  /** The `||` loop only stops where no `||` comes next. */
  lemma {:induction false} LogicOrTailStopsBeforeOr(left: Ast.Expression, c: Cursor)
    ensures LogicOrTail(left, c).Ok? ==> !LogicOrTail(left, c).value.cursor.PeekIs(0, LogicOr)
    decreases |c.rest|
  {
    if c.PeekIs(0, LogicOr) {
      match Expression(c.Next().SkipNewLine())
      case Err(_) =>
      case Ok(Parsed(right, c1)) =>
        LogicOrTailStopsBeforeOr(Ast.Or(left, right), c1);
    }
  }

  /** An expression swallows every `||` that follows it. */
  lemma ExpressionStopsBeforeOr(c: Cursor)
    ensures Expression(c).Ok? ==> !Expression(c).value.cursor.PeekIs(0, LogicOr)
  {
    match SimpleExpression(c)
    case Err(_) =>
    case Ok(Parsed(left, c1)) => LogicOrTailStopsBeforeOr(left, c1);
  }

  /**
   * `a || rest` is `Or(a, r)` where `r` is the whole expression `rest`: so
   * `a || b || c` is `Or(a, Or(b, c))`.
   */
  lemma OrIsRightAssociative(c: Cursor, a: Ast.Expression, c1: Cursor)
    requires SimpleExpression(c) == Ok(Parsed(a, c1))
    requires c1.PeekIs(0, LogicOr)
    ensures Expression(c1.Next().SkipNewLine()).Err? ==> Expression(c) == Err(Expression(c1.Next().SkipNewLine()).error)
    ensures Expression(c1.Next().SkipNewLine()).Ok? ==>
              var Parsed(b, c2) := Expression(c1.Next().SkipNewLine()).value;
              Expression(c) == Ok(Parsed(Ast.Or(a, b), c2))
  {
    ExpressionStopsBeforeOr(c1.Next().SkipNewLine());
    assert Expression(c) == LogicOrTail(a, c1);
    match Expression(c1.Next().SkipNewLine())
    case Err(_) =>
    case Ok(Parsed(b, c2)) =>
      assert LogicOrTail(Ast.Or(a, b), c2) == Ok(Parsed(Ast.Or(a, b), c2));
  }

  /** A token with a fixed range, for the worked examples. */
  function At(t: Token): TokenWithRange
  {
    TokenWithRange(t, Location(0, 0, 0, 0, 0))
  }

  /** The tokens of `x || y || z` parse as `Or(x, Or(y, z))`. */
  lemma OrChain(x: string, y: string, z: string)
    ensures
      var ts := [At(Identifier(x)), At(LogicOr), At(Identifier(y)), At(LogicOr), At(Identifier(z))];
      var c := Cursor(ts, Location(0, 0, 0, 0, 0));
      Expression(c) == Ok(Parsed(
        Ast.Or(Ast.Expression.Identifier(x), Ast.Or(Ast.Expression.Identifier(y), Ast.Expression.Identifier(z))),
        Cursor([], Location(0, 0, 0, 0, 0))))
  {
    var ts := [At(Identifier(x)), At(LogicOr), At(Identifier(y)), At(LogicOr), At(Identifier(z))];
    var end := Cursor([], Location(0, 0, 0, 0, 0));
    IdentifierAlone(z, Location(0, 0, 0, 0, 0));
    assert ts[4..] == [At(Identifier(z))];
    IdentifierOrExpression(y, ts[3..], Location(0, 0, 0, 0, 0), Ast.Expression.Identifier(z), end);
    assert ts[2..] == [At(Identifier(y))] + ts[3..];
    IdentifierOrExpression(x, ts[1..], Location(0, 0, 0, 0, 0),
                           Ast.Or(Ast.Expression.Identifier(y), Ast.Expression.Identifier(z)), end);
    assert ts == [At(Identifier(x))] + ts[1..];
  }

  /** An identifier, `||`, and then an expression `b`: the whole parses as `Or(identifier, b)`. */
  lemma IdentifierOrExpression(name: string, rest: seq<TokenWithRange>, last: Location, b: Ast.Expression, c2: Cursor)
    requires |rest| >= 2 && rest[0] == At(LogicOr) && !rest[1].token.NewLine?
    requires Expression(Cursor(rest[1..], Location(0, 0, 0, 0, 0))) == Ok(Parsed(b, c2))
    ensures Expression(Cursor([At(Identifier(name))] + rest, last)) == Ok(Parsed(Ast.Or(Ast.Expression.Identifier(name), b), c2))
  {
    var c1 := Cursor(rest, Location(0, 0, 0, 0, 0));
    IdentifierThenOr(name, rest, last);
    assert c1.Next().SkipNewLine() == Cursor(rest[1..], Location(0, 0, 0, 0, 0));
    OrIsRightAssociative(Cursor([At(Identifier(name))] + rest, last), Ast.Expression.Identifier(name), c1);
  }

  /** A lone identifier is a whole expression. */
  lemma IdentifierAlone(name: string, last: Location)
    ensures Expression(Cursor([At(Identifier(name))], last))
         == Ok(Parsed(Ast.Expression.Identifier(name), Cursor([], Location(0, 0, 0, 0, 0))))
  {
    var c := Cursor([At(Identifier(name))], last);
    var c1 := Cursor([], Location(0, 0, 0, 0, 0));
    assert SimpleExpression(c) == Ok(Parsed(Ast.Expression.Identifier(name), c1)) by {
      assert BaseExpression(c) == Ok(Parsed(Ast.Expression.Identifier(name), c1));
    }
  }

  /** An identifier followed by `||` is a whole simple expression. */
  lemma IdentifierThenOr(name: string, rest: seq<TokenWithRange>, last: Location)
    requires |rest| >= 1 && rest[0] == At(LogicOr)
    ensures SimpleExpression(Cursor([At(Identifier(name))] + rest, last))
         == Ok(Parsed(Ast.Expression.Identifier(name), Cursor(rest, Location(0, 0, 0, 0, 0))))
  {
    var c := Cursor([At(Identifier(name))] + rest, last);
    assert BaseExpression(c) == Ok(Parsed(Ast.Expression.Identifier(name), Cursor(rest, Location(0, 0, 0, 0, 0))));
  }

  // ---------------------------------------------------------------------
  // Notations and quantifiers

  /** The postfix loop only stops where no notation, `{` or rear call comes next. */
  lemma {:induction false} NotationTailStops(left: Ast.Expression, c: Cursor)
    ensures NotationTail(left, c).Ok? ==> PostfixStopped(NotationTail(left, c).value.cursor)
    decreases |c.rest|, 1
  {
    if c.rest != [] && IsNotation(c.rest[0].token) {
      var left' := Ast.Expression.FunctionCall(Ast.FunctionCall.FunctionCall(NotationName(c.rest[0].token), left, []));
      assert NotationTail(left, c) == NotationTail(left', c.Next());
      NotationTailStops(left', c.Next());
    } else if c.PeekIs(0, LeftBrace) {
      QuantifierTailStops(left, c);
    } else if AtRearCall(c) {
      RearCallTailStops(left, c);
    }
  }

  /** The postfix loop after a `{`: one quantifier, then the loop again. */
  lemma {:induction false} QuantifierTailStops(left: Ast.Expression, c: Cursor)
    requires !(c.rest != [] && IsNotation(c.rest[0].token)) && c.PeekIs(0, LeftBrace)
    ensures NotationTail(left, c).Ok? ==> PostfixStopped(NotationTail(left, c).value.cursor)
    decreases |c.rest|, 0
  {
    match Quantifier(c)
    case Err(_) =>
      assert NotationTail(left, c).Err?;
    case Ok(Parsed((q, lazy), c1)) =>
      match QuantifierCall(q, lazy, c1.last)
      case Err(_) =>
        assert NotationTail(left, c).Err?;
      case Ok((name, args)) =>
        var left' := Ast.Expression.FunctionCall(Ast.FunctionCall.FunctionCall(name, left, args));
        QuantifierStep(left, c, c1, name, args);
        NotationTailStops(left', c1);
  }

  /** A quantifier that reads to `c1` and names a call continues the postfix loop at `c1` with that call. */
  lemma {:induction false} QuantifierStep(left: Ast.Expression, c: Cursor, c1: Cursor, name: Ast.FunctionName, args: seq<Ast.FunctionCallArg>)
    requires !(c.rest != [] && IsNotation(c.rest[0].token)) && c.PeekIs(0, LeftBrace)
    requires Quantifier(c).Ok? && Quantifier(c).value.cursor == c1
    requires QuantifierCall(Quantifier(c).value.value.0, Quantifier(c).value.value.1, c1.last) == Ok((name, args))
    ensures NotationTail(left, c) == NotationTail(Ast.Expression.FunctionCall(Ast.FunctionCall.FunctionCall(name, left, args)), c1)
  {
  }

  /** The postfix loop at a rear call: the call, then the loop again. */
  lemma {:induction false} RearCallTailStops(left: Ast.Expression, c: Cursor)
    requires !(c.rest != [] && IsNotation(c.rest[0].token)) && !c.PeekIs(0, LeftBrace) && AtRearCall(c)
    ensures NotationTail(left, c).Ok? ==> PostfixStopped(NotationTail(left, c).value.cursor)
    decreases |c.rest|, 0
  {
    match RearFunctionCall(left, c)
    case Err(_) =>
    case Ok(Parsed(call, c1)) =>
      assert NotationTail(left, c) == NotationTail(Ast.Expression.FunctionCall(call), c1);
      NotationTailStops(Ast.Expression.FunctionCall(call), c1);
  }

  /** Nothing that continues a postfix chain comes next: no notation, no `{`, no rear call. */
  predicate PostfixStopped(c: Cursor)
  {
    !(c.rest != [] && IsNotation(c.rest[0].token)) && !c.PeekIs(0, LeftBrace) && !AtRearCall(c)
  }

  /**
   * A notation token after an expression wraps it in the quantifier the token
   * names, with no arguments; the wrapped expression is then open to further
   * notations, so in `a?*` the `*` wraps `a?`.
   */
  lemma NotationWraps(c: Cursor, a: Ast.Expression, c1: Cursor)
    requires BaseExpression(c) == Ok(Parsed(a, c1))
    requires c1.rest != [] && IsNotation(c1.rest[0].token)
    ensures SimpleExpression(c) ==
              NotationTail(Ast.Expression.FunctionCall(Ast.FunctionCall.FunctionCall(NotationName(c1.rest[0].token), a, [])), c1.Next())
  {
  }

  /** A single notation after a base expression, with nothing after it to continue the loop. */
  lemma SingleNotation(c: Cursor, a: Ast.Expression, c1: Cursor)
    requires BaseExpression(c) == Ok(Parsed(a, c1))
    requires c1.rest != [] && IsNotation(c1.rest[0].token)
    requires var c2 := c1.Next(); !(c2.rest != [] && IsNotation(c2.rest[0].token)) && !c2.PeekIs(0, LeftBrace) && !AtRearCall(c2)
    ensures SimpleExpression(c) ==
              Ok(Parsed(Ast.Expression.FunctionCall(Ast.FunctionCall.FunctionCall(NotationName(c1.rest[0].token), a, [])), c1.Next()))
  {
    NotationWraps(c, a, c1);
  }

  /** The cursor after three tokens. */
  function Skip3(c: Cursor): Cursor { c.Next().Next().Next() }

  /** Whether a `?` follows, and the cursor after it. */
  function LazyTail(c: Cursor): (bool, Cursor)
  {
    if c.PeekIs(0, Question) then (true, c.Next()) else (false, c)
  }

  /** `{m}` is `Repeat(m)`, lazy exactly when a `?` follows. */
  lemma QuantifierExact(c: Cursor, m: u32)
    requires |c.rest| >= 3
    requires c.rest[0].token == LeftBrace && c.rest[1].token == Number(m) && c.rest[2].token == RightBrace
    ensures Quantifier(c) == Ok(Parsed((NotationQuantifier.Repeat(m), LazyTail(Skip3(c)).0), LazyTail(Skip3(c)).1))
  {
  }

  /** `{m,}` is `AtLeast(m)`, lazy exactly when a `?` follows. */
  lemma QuantifierAtLeast(c: Cursor, m: u32)
    requires |c.rest| >= 4
    requires c.rest[0].token == LeftBrace && c.rest[1].token == Number(m) && c.rest[2].token == Comma
    requires c.rest[3].token == RightBrace
    ensures Quantifier(c) == Ok(Parsed((NotationQuantifier.AtLeast(m), LazyTail(Skip3(c).Next()).0), LazyTail(Skip3(c).Next()).1))
  {
  }

  /** `{m,n}` is `RepeatRange(m, n)`, lazy exactly when a `?` follows. */
  lemma QuantifierRange(c: Cursor, m: u32, n: u32)
    requires |c.rest| >= 5
    requires c.rest[0].token == LeftBrace && c.rest[1].token == Number(m) && c.rest[2].token == Comma
    requires c.rest[3].token == Number(n) && c.rest[4].token == RightBrace
    ensures var c5 := Skip3(c).Next().Next();
            Quantifier(c) == Ok(Parsed((NotationQuantifier.RepeatRange(m, n), LazyTail(c5).0), LazyTail(c5).1))
  {
  }

  /** `{m}?` after an expression is refused, at the range of the `?`. */
  lemma LazyExactRepeatRefused(left: Ast.Expression, c: Cursor, m: u32)
    requires |c.rest| >= 4
    requires c.rest[0].token == LeftBrace && c.rest[1].token == Number(m) && c.rest[2].token == RightBrace
    requires c.rest[3].token == Question
    ensures NotationTail(left, c) == Err(MessageWithLocation(c.rest[3].range))
  {
    QuantifierExact(c, m);
  }

  /** `{m,m}?` after an expression is refused, at the range of the `?`; `{m,n}?` with `m != n` is the lazy range. */
  lemma LazyEqualRangeRefused(left: Ast.Expression, c: Cursor, m: u32, n: u32)
    requires |c.rest| >= 6
    requires c.rest[0].token == LeftBrace && c.rest[1].token == Number(m) && c.rest[2].token == Comma
    requires c.rest[3].token == Number(n) && c.rest[4].token == RightBrace && c.rest[5].token == Question
    ensures m == n ==> NotationTail(left, c) == Err(MessageWithLocation(c.rest[5].range))
    ensures m != n ==>
              var c6 := Skip3(Skip3(c));
              NotationTail(left, c) ==
                NotationTail(Ast.Expression.FunctionCall(Ast.FunctionCall.FunctionCall(
                  Ast.FunctionName.RepeatRangeLazy, left, [Ast.FunctionCallArg.Number(m), Ast.FunctionCallArg.Number(n)])), c6)
  {
    QuantifierRange(c, m, n);
  }

  // ---------------------------------------------------------------------
  // Rear function calls

  /**
   * `e.name(args)` gives the same call as `name(e, args)`, errors included,
   * when the two share the name token and the tokens after the `(` and after
   * the separator respectively.
   */
  lemma {:induction false} RearCallIsPrefixCall(e: Ast.Expression, c: Cursor, d: Cursor)
    requires AtRearCall(c)
    requires d.rest != [] && d.rest[0] == c.rest[1] && d.PeekIs(1, LeftParen)
    requires Expression(d.Next().Next().SkipNewLine()).Ok?
    requires Expression(d.Next().Next().SkipNewLine()).value.value == e
    requires Expression(d.Next().Next().SkipNewLine()).value.cursor.SkipSeparator() == c.Next().Next().Next().SkipNewLine()
    ensures RearFunctionCall(e, c).Ok? <==> FunctionCall(d).Ok?
    ensures RearFunctionCall(e, c).Ok? ==>
              FunctionCall(d).value == Parsed(Ast.Expression.FunctionCall(RearFunctionCall(e, c).value.value), RearFunctionCall(e, c).value.cursor)
    ensures RearFunctionCall(e, c).Err? ==> FunctionCall(d).error == RearFunctionCall(e, c).error
  {
    var name := c.rest[1].token.name;
    var c1, d1 := c.Next().Next(), d.Next();
    assert c.Next().rest[0] == c.rest[1];
    assert ExpectedIdentifier(c.Next()) == Ok(Parsed(name, c1));
    assert ExpectedIdentifier(d) == Ok(Parsed(name, d1));
    assert c1.last == d1.last;
  }

  // ---------------------------------------------------------------------
  // Separators

  /** A program stops only at the end of the tokens or where no separator follows an expression. */
  lemma {:induction false} ProgramItemsStop(es: seq<Ast.Expression>, c: Cursor)
    ensures ProgramItems(es, c).Ok? ==> !ProgramItems(es, c).value.cursor.AtSeparator()
    ensures ProgramItems(es, c).Ok? ==> es <= ProgramItems(es, c).value.value
    decreases |c.rest|
  {
    if c.rest != [] {
      match Expression(c)
      case Err(_) =>
      case Ok(Parsed(e, c1)) =>
        if c1.AtSeparator() {
          ProgramItemsStop(es + [e], c1.Next());
        }
    }
  }

  /** So a parsed program is never followed by a separator; any tokens left after it are ignored. */
  lemma ProgramStopsAtMissingSeparator(c: Cursor)
    ensures Program(c).Ok? ==> !Program(c).value.cursor.AtSeparator()
  {
    ProgramItemsStop([], c);
  }

  /** The group loop stops at the end of the tokens, at `)`, or where no separator follows an expression. */
  lemma {:induction false} GroupItemsStop(es: seq<Ast.Expression>, c: Cursor)
    ensures GroupItems(es, c).Ok? ==> !GroupItems(es, c).value.cursor.AtSeparator()
    decreases |c.rest|
  {
    if c.rest != [] && !c.PeekIs(0, RightParen) {
      match Expression(c)
      case Err(_) =>
      case Ok(Parsed(e, c1)) =>
        if c1.AtSeparator() {
          GroupItemsStop(es + [e], c1.Next());
        }
    }
  }

  /** An expression followed by `)` or by a separator and `)` closes the group the same way. */
  lemma TrailingSeparatorInGroup(es: seq<Ast.Expression>, c: Cursor, e: Ast.Expression, c1: Cursor)
    requires c.rest != [] && !c.PeekIs(0, RightParen)
    requires Expression(c) == Ok(Parsed(e, c1))
    requires c1.PeekIs(0, RightParen) || (c1.AtSeparator() && c1.Next().PeekIs(0, RightParen))
    ensures GroupItems(es, c) == Ok(Parsed(es + [e], c1.SkipSeparator()))
    ensures ExpectedToken(c1.SkipSeparator(), RightParen).Ok?
  {
  }

  /** The charset loop stops at the end of the tokens, at `]`, or where no separator follows an element. */
  lemma {:induction false} CharsetItemsStop(elements: seq<Ast.CharSetElement>, c: Cursor)
    ensures CharsetItems(elements, c).Ok? ==> !CharsetItems(elements, c).value.cursor.AtSeparator()
    decreases |c.rest|
  {
    if c.rest != [] && !c.PeekIs(0, RightBracket) {
      match CharsetElement(c)
      case Err(_) =>
      case Ok(Parsed(element, c1)) =>
        if c1.AtSeparator() {
          CharsetItemsStop(elements + [element], c1.Next());
        }
    }
  }

  /** An element followed by `]` or by a separator and `]` closes the charset the same way. */
  lemma TrailingSeparatorInCharset(elements: seq<Ast.CharSetElement>, c: Cursor, element: Ast.CharSetElement, c1: Cursor)
    requires c.rest != [] && !c.PeekIs(0, RightBracket)
    requires CharsetElement(c) == Ok(Parsed(element, c1))
    requires c1.PeekIs(0, RightBracket) || (c1.AtSeparator() && c1.Next().PeekIs(0, RightBracket))
    ensures CharsetItems(elements, c) == Ok(Parsed(elements + [element], c1.SkipSeparator()))
    ensures ExpectedToken(c1.SkipSeparator(), RightBracket).Ok?
  {
  }

  // ---------------------------------------------------------------------
  // Arguments, groups, literals and charsets

  /** A number or an identifier is an argument on its own; any other token starts an expression argument. */
  lemma {:induction false} ArgReads(c: Cursor)
    requires c.rest != []
    ensures c.rest[0].token.Number? ==> Arg(c) == Ok(Parsed(Ast.FunctionCallArg.Number(c.rest[0].token.value), c.Next()))
    ensures c.rest[0].token.Identifier? ==> Arg(c) == Ok(Parsed(Ast.FunctionCallArg.Identifier(c.rest[0].token.name), c.Next()))
    ensures !c.rest[0].token.Number? && !c.rest[0].token.Identifier? ==>
              && (Arg(c).Ok? <==> Expression(c).Ok?)
              && (Arg(c).Ok? ==> Arg(c).value == Parsed(Ast.FunctionCallArg.Expression(Expression(c).value.value), Expression(c).value.cursor))
              && (Arg(c).Err? ==> Arg(c).error == Expression(c).error)
  {
  }

  /** `(` and `)`, with or without a new line between them, is the empty group. */
  lemma {:induction false} EmptyGroup(c: Cursor)
    requires |c.rest| >= 2 && c.rest[0].token == LeftParen
    requires c.rest[1].token == RightParen || (|c.rest| >= 3 && c.rest[1].token == NewLine && c.rest[2].token == RightParen)
    ensures var k := if c.rest[1].token == RightParen then 1 else 2;
            BaseExpression(c) == Ok(Parsed(Ast.Group([]), Cursor(c.rest[k + 1..], c.rest[k].range)))
  {
    var k := if c.rest[1].token == RightParen then 1 else 2;
    var c1 := c.Next().SkipNewLine();
    assert c1.rest == c.rest[k..];
    assert GroupItems([], c1) == Ok(Parsed([], c1));
    assert ExpectedToken(c1, RightParen) == Ok(Cursor(c.rest[k + 1..], c.rest[k].range));
    assert Group(c) == Ok(Parsed(Ast.Group([]), Cursor(c.rest[k + 1..], c.rest[k].range)));
  }

  /** A group needs its opening parenthesis, and it fails where the closing one is missing. */
  lemma {:induction false} GroupNeedsParentheses(c: Cursor)
    ensures c.rest == [] ==> Group(c) == Err(UnexpectedEndOfDocument)
    ensures c.rest != [] && c.rest[0].token != LeftParen ==> Group(c) == Err(MessageWithLocation(FromRangeStart(c.rest[0].range)))
    ensures Group(c).Ok? ==> c.rest[0].token == LeftParen
  {
  }

  /** A char token, a comma, a string token and `)` after `(` parse as the group of that char and that string. */
  lemma {:induction false} GroupOfTwo(open: TokenWithRange, a: TokenWithRange, comma: TokenWithRange, b: TokenWithRange,
                   close: TokenWithRange, last: Location)
    requires open.token == LeftParen && a.token.Char? && comma.token == Comma && b.token.String? && close.token == RightParen
    ensures var items := [Ast.Expression.Literal(Ast.Literal.Char(a.token.character)),
                          Ast.Expression.Literal(Ast.Literal.String(b.token.text))];
            BaseExpression(Cursor([open, a, comma, b, close], last)) == Ok(Parsed(Ast.Group(items), Cursor([], close.range)))
  {
    var ts := [open, a, comma, b, close];
    var x := Ast.Expression.Literal(Ast.Literal.Char(a.token.character));
    var y := Ast.Expression.Literal(Ast.Literal.String(b.token.text));
    assert [a, comma] + [b, close] == [a, comma, b, close];
    GroupFirstItem(a, comma, [b, close], open.range);
    GroupSecondItem(x, b, close, comma.range);
    assert Cursor(ts, last).Next().SkipNewLine() == Cursor([a, comma, b, close], open.range);
    assert GroupItems([], Cursor([a, comma, b, close], open.range)) == Ok(Parsed([x, y], Cursor([close], b.range)));
  }

  /** A char token and a comma at the start of a group: the loop reads the char and goes on after the comma. */
  lemma {:induction false} GroupFirstItem(a: TokenWithRange, comma: TokenWithRange, rest: seq<TokenWithRange>, last: Location)
    requires a.token.Char? && comma.token == Comma && rest != [] && !rest[0].token.NewLine?
    ensures GroupItems([], Cursor([a, comma] + rest, last))
         == GroupItems([Ast.Expression.Literal(Ast.Literal.Char(a.token.character))], Cursor(rest, comma.range))
  {
    var x := Ast.Expression.Literal(Ast.Literal.Char(a.token.character));
    var ts := [a, comma] + rest;
    LiteralAlone(ts, last);
    assert Cursor(ts[1..], a.range).Next() == Cursor(rest, comma.range);
    GroupItemsStep([], Cursor(ts, last), x, Cursor(ts[1..], a.range));
    assert [] + [x] == [x];
  }

  /** A string token and `)` after the item `x`: the loop reads the string and stops before the `)`. */
  lemma {:induction false} GroupSecondItem(x: Ast.Expression, b: TokenWithRange, close: TokenWithRange, last: Location)
    requires b.token.String? && close.token == RightParen
    ensures var y := Ast.Expression.Literal(Ast.Literal.String(b.token.text));
            GroupItems([x], Cursor([b, close], last)) == Ok(Parsed([x, y], Cursor([close], b.range)))
  {
    var y := Ast.Expression.Literal(Ast.Literal.String(b.token.text));
    LiteralAlone([b, close], last);
    GroupItemsStep([x], Cursor([b, close], last), y, Cursor([close], b.range));
    assert [x] + [y] == [x, y];
  }

  /** One round of the group loop, given what the expression at `c` parses to. */
  lemma {:induction false} GroupItemsStep(es: seq<Ast.Expression>, c: Cursor, e: Ast.Expression, c1: Cursor)
    requires c.rest != [] && !c.PeekIs(0, RightParen) && Expression(c) == Ok(Parsed(e, c1))
    ensures c1.AtSeparator() ==> GroupItems(es, c) == GroupItems(es + [e], c1.Next())
    ensures !c1.AtSeparator() ==> GroupItems(es, c) == Ok(Parsed(es + [e], c1))
  {
  }

  /** A char or string token followed by `,` or `)` is a whole expression: that literal. */
  lemma {:induction false} LiteralAlone(ts: seq<TokenWithRange>, last: Location)
    requires |ts| >= 2 && (ts[0].token.Char? || ts[0].token.String?)
    requires ts[1].token == Comma || ts[1].token == RightParen
    ensures var l := if ts[0].token.Char? then Ast.Literal.Char(ts[0].token.character) else Ast.Literal.String(ts[0].token.text);
            Expression(Cursor(ts, last)) == Ok(Parsed(Ast.Expression.Literal(l), Cursor(ts[1..], ts[0].range)))
  {
    var l := if ts[0].token.Char? then Ast.Literal.Char(ts[0].token.character) else Ast.Literal.String(ts[0].token.text);
    var c := Cursor(ts, last);
    var c1 := Cursor(ts[1..], ts[0].range);
    assert SimpleExpression(c) == Ok(Parsed(Ast.Expression.Literal(l), c1)) by {
      assert Literal(c) == Ok(Parsed(l, c1));
      assert BaseExpression(c) == Ok(Parsed(Ast.Expression.Literal(l), c1));
    }
  }

  /**
   * A token other than `[` (or `!` before `[`) is a literal on its own: a char or a
   * string is read as it is, a preset charset or special name through its table,
   * and any other token is refused at the last range.
   */
  lemma {:induction false} LiteralToken(c: Cursor)
    requires c.rest != [] && c.rest[0].token != LeftBracket
    requires !(c.rest[0].token == Exclamation && c.PeekIs(1, LeftBracket))
    ensures c.rest[0].token.Char? ==> Literal(c) == Ok(Parsed(Ast.Literal.Char(c.rest[0].token.character), c.Next()))
    ensures c.rest[0].token.String? ==> Literal(c) == Ok(Parsed(Ast.Literal.String(c.rest[0].token.text), c.Next()))
    ensures c.rest[0].token.PresetCharSet? ==>
              forall n :: PresetCharSetNameText(n) == c.rest[0].token.name ==>
                Literal(c) == Ok(Parsed(Ast.Literal.PresetCharSet(n), c.Next()))
    ensures c.rest[0].token.PresetCharSet? && (forall n :: PresetCharSetNameText(n) != c.rest[0].token.name) ==>
              Literal(c) == Err(MessageWithLocation(c.last))
    ensures c.rest[0].token.Special? ==>
              Literal(c) == if c.rest[0].token.name == "char_any" then Ok(Parsed(Ast.Literal.Special(Ast.SpecialCharName.CharAny), c.Next()))
                            else Err(MessageWithLocation(c.last))
    ensures !c.rest[0].token.Char? && !c.rest[0].token.String? && !c.rest[0].token.PresetCharSet? && !c.rest[0].token.Special? ==>
              Literal(c) == Err(MessageWithLocation(c.last))
  {
    if c.rest[0].token.PresetCharSet? {
      forall n | PresetCharSetNameText(n) == c.rest[0].token.name
        ensures Literal(c) == Ok(Parsed(Ast.Literal.PresetCharSet(n), c.Next()))
      {
        PresetCharSetNameExact(c.rest[0].token.name, c.last, n);
      }
      PresetCharSetNameExact(c.rest[0].token.name, c.last, Ast.PresetCharSetName.CharWord);
    }
  }

  /** `[` starts a charset literal and `!` before `[` a negative one, both with the elements Parser.Charset reads. */
  lemma {:induction false} LiteralCharset(c: Cursor)
    requires c.PeekIs(0, LeftBracket) || (c.PeekIs(0, Exclamation) && c.PeekIs(1, LeftBracket))
    ensures var negative := c.rest[0].token == Exclamation;
            var open := if negative then c.Next() else c;
            && open.PeekIs(0, LeftBracket)
            && (Literal(c).Ok? <==> Charset(open).Ok?)
            && (Literal(c).Ok? ==> Literal(c).value == Parsed(
                  Ast.Literal.CharSet(Ast.CharSet.CharSet(negative, Charset(open).value.value)), Charset(open).value.cursor))
  {
  }

  /**
   * `a [nl] .. [nl] b` reads as the range from `a` to `b`: `i` is where `..` stands and
   * `j` where `b` must stand.  The token at `i` is consumed without being checked,
   * and the range fails where no char stands at `j`.
   */
  lemma {:induction false} CharRangeReads(c: Cursor, i: nat, j: nat)
    requires c.rest != [] && c.rest[0].token.Char?
    requires i == (if c.PeekIs(1, NewLine) then 2 else 1) && i < |c.rest|
    requires j == (if c.PeekIs(i + 1, NewLine) then i + 2 else i + 1)
    ensures CharRange(c).Ok? <==> j < |c.rest| && c.rest[j].token.Char?
    ensures CharRange(c).Ok? ==>
              CharRange(c).value == Parsed(Ast.CharRange.CharRange(c.rest[0].token.character, c.rest[j].token.character),
                                          Cursor(c.rest[j + 1..], c.rest[j].range))
  {
    var c1 := c.Next().SkipNewLine();
    assert c1.rest == c.rest[i..];
    var c2 := c1.Next().SkipNewLine();
    assert c2.rest == c.rest[(if j <= |c.rest| then j else |c.rest|)..];
  }

  /**
   * A char with `..` next (or after one new line) is a range element; a lone char is a
   * char element; a preset is read through its table; `[` nests a positive charset;
   * anything else is refused at the last range.
   */
  lemma {:induction false} CharsetElementReads(c: Cursor, i: nat, j: nat)
    requires c.rest != []
    requires i == (if c.PeekIs(1, NewLine) then 2 else 1)
    requires j == (if c.PeekIs(i + 1, NewLine) then i + 2 else i + 1)
    ensures c.rest[0].token.Char? && c.PeekIs(i, Interval) ==>
              && (CharsetElement(c).Ok? <==> j < |c.rest| && c.rest[j].token.Char?)
              && (CharsetElement(c).Ok? ==> CharsetElement(c).value == Parsed(
                    Ast.CharSetElement.CharRange(Ast.CharRange.CharRange(c.rest[0].token.character, c.rest[j].token.character)),
                    Cursor(c.rest[j + 1..], c.rest[j].range)))
    ensures c.rest[0].token.Char? && !c.PeekIs(i, Interval) ==>
              CharsetElement(c) == Ok(Parsed(Ast.CharSetElement.Char(c.rest[0].token.character), c.Next()))
    ensures c.rest[0].token.PresetCharSet? ==>
              forall n :: PresetCharSetNameText(n) == c.rest[0].token.name ==>
                CharsetElement(c) == Ok(Parsed(Ast.CharSetElement.PresetCharSet(n), c.Next()))
    ensures c.rest[0].token.PresetCharSet? && (forall n :: PresetCharSetNameText(n) != c.rest[0].token.name) ==>
              CharsetElement(c) == Err(MessageWithLocation(c.last))
    ensures c.rest[0].token == LeftBracket ==>
              && (CharsetElement(c).Ok? <==> Charset(c).Ok?)
              && (CharsetElement(c).Ok? ==> CharsetElement(c).value == Parsed(
                    Ast.CharSetElement.CharSet(Ast.CharSet.CharSet(false, Charset(c).value.value)), Charset(c).value.cursor))
    ensures !c.rest[0].token.Char? && !c.rest[0].token.PresetCharSet? && c.rest[0].token != LeftBracket ==>
              CharsetElement(c) == Err(MessageWithLocation(c.last))
  {
    if c.rest[0].token.Char? && c.PeekIs(i, Interval) {
      RangeElement(c, i, j);
    } else if c.rest[0].token.Char? {
      CharElement(c);
    } else if c.rest[0].token.PresetCharSet? {
      PresetElement(c);
    } else if c.rest[0].token == LeftBracket {
      NestedElement(c);
    } else {
      OtherElement(c);
    }
  }

  /** A char not followed by `..` (directly or after one new line) is a char element. */
  lemma {:induction false} CharElement(c: Cursor)
    requires c.rest != [] && c.rest[0].token.Char?
    requires !(c.PeekIs(1, Interval) || (c.PeekIs(1, NewLine) && c.PeekIs(2, Interval)))
    ensures CharsetElement(c) == Ok(Parsed(Ast.CharSetElement.Char(c.rest[0].token.character), c.Next()))
  {
  }

  /** `[` inside a charset nests a positive charset. */
  lemma {:induction false} NestedElement(c: Cursor)
    requires c.PeekIs(0, LeftBracket)
    ensures CharsetElement(c).Ok? <==> Charset(c).Ok?
    ensures CharsetElement(c).Ok? ==> CharsetElement(c).value == Parsed(
              Ast.CharSetElement.CharSet(Ast.CharSet.CharSet(false, Charset(c).value.value)), Charset(c).value.cursor)
  {
  }

  /** Any other token is not a charset element. */
  lemma {:induction false} OtherElement(c: Cursor)
    requires c.rest != [] && !c.rest[0].token.Char? && !c.rest[0].token.PresetCharSet? && c.rest[0].token != LeftBracket
    ensures CharsetElement(c) == Err(MessageWithLocation(c.last))
  {
  }


  /** A char with `..` next, or after one new line, is read by Parser.CharRange. */
  lemma {:induction false} RangeElement(c: Cursor, i: nat, j: nat)
    requires c.rest != [] && c.rest[0].token.Char?
    requires i == (if c.PeekIs(1, NewLine) then 2 else 1) && c.PeekIs(i, Interval)
    requires j == (if c.PeekIs(i + 1, NewLine) then i + 2 else i + 1)
    ensures CharsetElement(c).Ok? <==> j < |c.rest| && c.rest[j].token.Char?
    ensures CharsetElement(c).Ok? ==> CharsetElement(c).value == Parsed(
              Ast.CharSetElement.CharRange(Ast.CharRange.CharRange(c.rest[0].token.character, c.rest[j].token.character)),
              Cursor(c.rest[j + 1..], c.rest[j].range))
  {
    CharRangeReads(c, i, j);
  }

  /** A preset charset element is the set its name spells, or an error at the last range. */
  lemma {:induction false} PresetElement(c: Cursor)
    requires c.rest != [] && c.rest[0].token.PresetCharSet?
    ensures forall n :: PresetCharSetNameText(n) == c.rest[0].token.name ==>
              CharsetElement(c) == Ok(Parsed(Ast.CharSetElement.PresetCharSet(n), c.Next()))
    ensures (forall n :: PresetCharSetNameText(n) != c.rest[0].token.name) ==> CharsetElement(c) == Err(MessageWithLocation(c.last))
  {
    forall n | PresetCharSetNameText(n) == c.rest[0].token.name
      ensures CharsetElement(c) == Ok(Parsed(Ast.CharSetElement.PresetCharSet(n), c.Next()))
    {
      PresetCharSetNameExact(c.rest[0].token.name, c.last, n);
    }
    PresetCharSetNameExact(c.rest[0].token.name, c.last, Ast.PresetCharSetName.CharWord);
  }

  /**
   * `[`, a char, `..`, a char, a comma, a preset token and `]` parse as the charset of
   * that range and that preset, as in `['a'..'z', char_digit]`.
   */
  lemma {:induction false} CharsetOfRangeAndPreset(open: TokenWithRange, a: TokenWithRange, interval: TokenWithRange, z: TokenWithRange,
                                comma: TokenWithRange, preset: TokenWithRange, close: TokenWithRange,
                                last: Location, n: Ast.PresetCharSetName)
    requires open.token == LeftBracket && a.token.Char? && interval.token == Interval && z.token.Char?
    requires comma.token == Comma && preset.token == PresetCharSet(PresetCharSetNameText(n)) && close.token == RightBracket
    ensures var elements := [Ast.CharSetElement.CharRange(Ast.CharRange.CharRange(a.token.character, z.token.character)),
                             Ast.CharSetElement.PresetCharSet(n)];
            Literal(Cursor([open, a, interval, z, comma, preset, close], last))
              == Ok(Parsed(Ast.Literal.CharSet(Ast.CharSet.CharSet(false, elements)), Cursor([], close.range)))
  {
    var ts := [open, a, interval, z, comma, preset, close];
    var range := Ast.CharSetElement.CharRange(Ast.CharRange.CharRange(a.token.character, z.token.character));
    var presetElement := Ast.CharSetElement.PresetCharSet(n);
    RangeThenPreset(a, interval, z, comma, preset, close, open.range, n);
    assert Cursor(ts, last).Next().SkipNewLine() == Cursor([a, interval, z, comma, preset, close], open.range);
    assert Charset(Cursor(ts, last)) == Ok(Parsed([range, presetElement], Cursor([], close.range)));
  }

  /** The charset loop over a range, a comma and a preset stops before the `]`. */
  lemma RangeThenPreset(a: TokenWithRange, interval: TokenWithRange, z: TokenWithRange, comma: TokenWithRange,
                        preset: TokenWithRange, close: TokenWithRange, last: Location, n: Ast.PresetCharSetName)
    requires a.token.Char? && interval.token == Interval && z.token.Char?
    requires comma.token == Comma && preset.token == PresetCharSet(PresetCharSetNameText(n)) && close.token == RightBracket
    ensures var range := Ast.CharSetElement.CharRange(Ast.CharRange.CharRange(a.token.character, z.token.character));
            CharsetItems([], Cursor([a, interval, z, comma, preset, close], last))
              == Ok(Parsed([range, Ast.CharSetElement.PresetCharSet(n)], Cursor([close], preset.range)))
  {
    var range := Ast.CharSetElement.CharRange(Ast.CharRange.CharRange(a.token.character, z.token.character));
    assert [a, interval, z] + [comma, preset, close] == [a, interval, z, comma, preset, close];
    FirstRangeElement(a, interval, z, [comma, preset, close], last);
    PresetThenClose(range, preset, close, comma.range, n);
    assert Cursor([comma, preset, close], z.range).AtSeparator();
    assert Cursor([comma, preset, close], z.range).Next() == Cursor([preset, close], comma.range);
    CharsetItemsStep([], Cursor([a, interval, z, comma, preset, close], last), range, Cursor([comma, preset, close], z.range));
    assert [] + [range] == [range];
  }

  /** A char, `..` and a char are a range element. */
  lemma {:induction false} FirstRangeElement(a: TokenWithRange, interval: TokenWithRange, z: TokenWithRange, rest: seq<TokenWithRange>, last: Location)
    requires a.token.Char? && interval.token == Interval && z.token.Char?
    ensures CharsetElement(Cursor([a, interval, z] + rest, last))
         == Ok(Parsed(Ast.CharSetElement.CharRange(Ast.CharRange.CharRange(a.token.character, z.token.character)), Cursor(rest, z.range)))
  {
    var ts := [a, interval, z] + rest;
    RangeElement(Cursor(ts, last), 1, 2);
    assert ts[3..] == rest;
  }

  /** A preset token and `]` after the element `range`: the loop reads the preset and stops before the `]`. */
  lemma {:induction false} PresetThenClose(range: Ast.CharSetElement, preset: TokenWithRange, close: TokenWithRange, last: Location, n: Ast.PresetCharSetName)
    requires preset.token == PresetCharSet(PresetCharSetNameText(n)) && close.token == RightBracket
    ensures CharsetItems([range], Cursor([preset, close], last))
         == Ok(Parsed([range, Ast.CharSetElement.PresetCharSet(n)], Cursor([close], preset.range)))
  {
    var c := Cursor([preset, close], last);
    PresetElement(c);
    CharsetItemsStep([range], c, Ast.CharSetElement.PresetCharSet(n), Cursor([close], preset.range));
    assert [range] + [Ast.CharSetElement.PresetCharSet(n)] == [range, Ast.CharSetElement.PresetCharSet(n)];
  }

  /** One round of the charset loop, given what the element at `c` parses to. */
  lemma {:induction false} CharsetItemsStep(elements: seq<Ast.CharSetElement>, c: Cursor, element: Ast.CharSetElement, c1: Cursor)
    requires c.rest != [] && !c.PeekIs(0, RightBracket) && CharsetElement(c) == Ok(Parsed(element, c1))
    ensures c1.AtSeparator() ==> CharsetItems(elements, c) == CharsetItems(elements + [element], c1.Next())
    ensures !c1.AtSeparator() ==> CharsetItems(elements, c) == Ok(Parsed(elements + [element], c1))
  {
  }
}
