/**
 * The recursive-descent parser.  It reads the normalised, macro-expanded
 * token stream and builds the program's syntax tree.
 *
 * The parser's state is the rest of the token stream and the range of the
 * token consumed last, which is where most errors are reported.  Each
 * parsing routine is specified by a function from that state (a `Cursor`) to
 * the value read and the state after it; the `Parser` class runs the same
 * routines over its two fields, with the same loops as the original, and is
 * proved to agree with the functions.
 */
module Parser {
  import opened Locations
  import opened Errors
  import opened Tokens
  import Ast

  /** The tokens not yet consumed and the range of the token consumed last. */
  datatype Cursor = Cursor(rest: seq<TokenWithRange>, last: Location)
  {
    function Peek(offset: nat): (r: Option<Token>)
      ensures r.Some? <==> offset < |rest|
    {
      if offset < |rest| then Some(rest[offset].token) else None
    }

    predicate PeekIs(offset: nat, t: Token)
    {
      offset < |rest| && rest[offset].token == t
    }

    /** Consumes one token, if there is one, and remembers its range. */
    function Next(): (c: Cursor)
      ensures rest != [] ==> c.rest == rest[1..] && c.last == rest[0].range
      ensures rest == [] ==> c == this
    {
      if rest == [] then this else Cursor(rest[1..], rest[0].range)
    }

    /** Consumes a new-line token if one comes next. */
    function SkipNewLine(): (c: Cursor)
      ensures |c.rest| <= |rest|
      ensures !PeekIs(0, NewLine) ==> c == this
    {
      if PeekIs(0, NewLine) then Next() else this
    }

    /** A comma or a new-line comes next. */
    predicate AtSeparator()
    {
      PeekIs(0, NewLine) || PeekIs(0, Comma)
    }

    function SkipSeparator(): (c: Cursor)
      ensures |c.rest| <= |rest|
    {
      if AtSeparator() then Next() else this
    }
  }

  /** A value read and the cursor just after it. */
  datatype Parsed<T> = Parsed(value: T, cursor: Cursor)

  /** The three shapes of a `{...}` quantifier. */
  datatype NotationQuantifier = Repeat(n: u32) | RepeatRange(m: u32, n: u32) | AtLeast(n: u32)

  // ---------------------------------------------------------------------
  // Names

  /** How a program writes each assertion name. */
  function AssertionNameText(n: Ast.AssertionName): string
  {
    match n
    case Start => "start"
    case End => "end"
    case IsBound => "is_bound"
    case IsNotBound => "is_not_bound"
  }

  function AssertionNameFromStr(name: string, range: Location): (r: Result<Ast.AssertionName>)
    ensures r.Ok? ==> AssertionNameText(r.value) == name
    ensures r.Err? ==> r.error == MessageWithLocation(range)
  {
    match name
    case "start" => Ok(Ast.AssertionName.Start)
    case "end" => Ok(Ast.AssertionName.End)
    case "is_bound" => Ok(Ast.AssertionName.IsBound)
    case "is_not_bound" => Ok(Ast.AssertionName.IsNotBound)
    case _ => Err(MessageWithLocation(range))
  }

  /** How a program writes the special character name. */
  function SpecialCharNameText(n: Ast.SpecialCharName): string
  {
    "char_any"
  }

  function SpecialCharNameFromStr(name: string, range: Location): (r: Result<Ast.SpecialCharName>)
    ensures r.Ok? ==> SpecialCharNameText(r.value) == name
    ensures r.Err? ==> r.error == MessageWithLocation(range)
  {
    match name
    case "char_any" => Ok(Ast.SpecialCharName.CharAny)
    case _ => Err(MessageWithLocation(range))
  }

  /** How a program writes each preset charset name. */
  function PresetCharSetNameText(n: Ast.PresetCharSetName): string
  {
    match n
    case CharWord => "char_word"
    case CharNotWord => "char_not_word"
    case CharSpace => "char_space"
    case CharNotSpace => "char_not_space"
    case CharDigit => "char_digit"
    case CharNotDigit => "char_not_digit"
  }

  function PresetCharSetNameFromStr(name: string, range: Location): (r: Result<Ast.PresetCharSetName>)
    ensures r.Ok? ==> PresetCharSetNameText(r.value) == name
    ensures r.Err? ==> r.error == MessageWithLocation(range)
  {
    match name
    case "char_word" => Ok(Ast.PresetCharSetName.CharWord)
    case "char_not_word" => Ok(Ast.PresetCharSetName.CharNotWord)
    case "char_space" => Ok(Ast.PresetCharSetName.CharSpace)
    case "char_not_space" => Ok(Ast.PresetCharSetName.CharNotSpace)
    case "char_digit" => Ok(Ast.PresetCharSetName.CharDigit)
    case "char_not_digit" => Ok(Ast.PresetCharSetName.CharNotDigit)
    case _ => Err(MessageWithLocation(range))
  }

  /** How a program writes each function name. */
  function FunctionNameText(n: Ast.FunctionName): string
  {
    match n
    case Optional => "optional"
    case OneOrMore => "one_or_more"
    case ZeroOrMore => "zero_or_more"
    case Repeat => "repeat"
    case RepeatRange => "repeat_range"
    case AtLeast => "at_least"
    case OptionalLazy => "optional_lazy"
    case OneOrMoreLazy => "one_or_more_lazy"
    case ZeroOrMoreLazy => "zero_or_more_lazy"
    case RepeatRangeLazy => "repeat_range_lazy"
    case AtLeastLazy => "at_least_lazy"
    case IsBefore => "is_before"
    case IsAfter => "is_after"
    case IsNotBefore => "is_not_before"
    case IsNotAfter => "is_not_after"
    case Name => "name"
    case Index => "index"
  }

  function FunctionNameFromStr(name: string, range: Location): (r: Result<Ast.FunctionName>)
    ensures r.Ok? ==> FunctionNameText(r.value) == name
    ensures r.Err? ==> r.error == MessageWithLocation(range)
  {
    match name
    case "optional" => Ok(Ast.FunctionName.Optional)
    case "one_or_more" => Ok(Ast.FunctionName.OneOrMore)
    case "zero_or_more" => Ok(Ast.FunctionName.ZeroOrMore)
    case "repeat" => Ok(Ast.FunctionName.Repeat)
    case "repeat_range" => Ok(Ast.FunctionName.RepeatRange)
    case "at_least" => Ok(Ast.FunctionName.AtLeast)
    case "optional_lazy" => Ok(Ast.FunctionName.OptionalLazy)
    case "one_or_more_lazy" => Ok(Ast.FunctionName.OneOrMoreLazy)
    case "zero_or_more_lazy" => Ok(Ast.FunctionName.ZeroOrMoreLazy)
    case "repeat_range_lazy" => Ok(Ast.FunctionName.RepeatRangeLazy)
    case "at_least_lazy" => Ok(Ast.FunctionName.AtLeastLazy)
    case "is_before" => Ok(Ast.FunctionName.IsBefore)
    case "is_after" => Ok(Ast.FunctionName.IsAfter)
    case "is_not_before" => Ok(Ast.FunctionName.IsNotBefore)
    case "is_not_after" => Ok(Ast.FunctionName.IsNotAfter)
    case "name" => Ok(Ast.FunctionName.Name)
    case "index" => Ok(Ast.FunctionName.Index)
    case _ => Err(MessageWithLocation(range))
  }

  /** Each notation token and the quantifier it stands for. */
  predicate IsNotation(t: Token)
  {
    t.Question? || t.Plus? || t.Asterisk? || t.QuestionLazy? || t.PlusLazy? || t.AsteriskLazy?
  }

  function NotationName(t: Token): (r: Ast.FunctionName)
    requires IsNotation(t)
    ensures (t.Question? || t.QuestionLazy?) <==> (r == Ast.FunctionName.Optional || r == Ast.FunctionName.OptionalLazy)
    ensures (t.Plus? || t.PlusLazy?) <==> (r == Ast.FunctionName.OneOrMore || r == Ast.FunctionName.OneOrMoreLazy)
    ensures (t.QuestionLazy? || t.PlusLazy? || t.AsteriskLazy?) <==>
            (r == Ast.FunctionName.OptionalLazy || r == Ast.FunctionName.OneOrMoreLazy || r == Ast.FunctionName.ZeroOrMoreLazy)
    ensures r in {Ast.FunctionName.Optional, Ast.FunctionName.OneOrMore, Ast.FunctionName.ZeroOrMore,
                  Ast.FunctionName.OptionalLazy, Ast.FunctionName.OneOrMoreLazy, Ast.FunctionName.ZeroOrMoreLazy}
  {
    match t
    case Question => Ast.FunctionName.Optional
    case Plus => Ast.FunctionName.OneOrMore
    case Asterisk => Ast.FunctionName.ZeroOrMore
    case QuestionLazy => Ast.FunctionName.OptionalLazy
    case PlusLazy => Ast.FunctionName.OneOrMoreLazy
    case AsteriskLazy => Ast.FunctionName.ZeroOrMoreLazy
  }

  /**
   * The function name and arguments for a `{...}` quantifier; a lazy `{m}`
   * or `{m,m}` is refused at `range`, the range of the trailing `?`.
   */
  function QuantifierCall(q: NotationQuantifier, lazy: bool, range: Location): (r: Result<(Ast.FunctionName, seq<Ast.FunctionCallArg>)>)
    ensures r.Err? <==> lazy && (q.Repeat? || (q.RepeatRange? && q.m == q.n))
    ensures r.Err? ==> r.error == MessageWithLocation(range)
    ensures r.Ok? && q.Repeat? ==> r.value == (Ast.FunctionName.Repeat, [Ast.FunctionCallArg.Number(q.n)])
    ensures r.Ok? && q.RepeatRange? ==>
              r.value.0 == (if lazy then Ast.FunctionName.RepeatRangeLazy else Ast.FunctionName.RepeatRange) &&
              r.value.1 == [Ast.FunctionCallArg.Number(q.m), Ast.FunctionCallArg.Number(q.n)]
    ensures r.Ok? && q.AtLeast? ==>
              r.value == (if lazy then Ast.FunctionName.AtLeastLazy else Ast.FunctionName.AtLeast, [Ast.FunctionCallArg.Number(q.n)])
  {
    match q
    case Repeat(n) =>
      if lazy then Err(MessageWithLocation(range))
      else Ok((Ast.FunctionName.Repeat, [Ast.FunctionCallArg.Number(n)]))
    case RepeatRange(m, n) =>
      if lazy && m == n then Err(MessageWithLocation(range))
      else Ok((if lazy then Ast.FunctionName.RepeatRangeLazy else Ast.FunctionName.RepeatRange,
               [Ast.FunctionCallArg.Number(m), Ast.FunctionCallArg.Number(n)]))
    case AtLeast(n) =>
      Ok((if lazy then Ast.FunctionName.AtLeastLazy else Ast.FunctionName.AtLeast, [Ast.FunctionCallArg.Number(n)]))
  }

  // ---------------------------------------------------------------------
  // Expecting single tokens

  /** Consumes the next token, which must be `expected`; otherwise the error is at its start. */
  function ExpectedToken(c: Cursor, expected: Token): (r: Result<Cursor>)
    ensures r.Ok? <==> c.PeekIs(0, expected)
    ensures r.Ok? ==> r.value == c.Next()
    ensures c.rest == [] ==> r == Err(UnexpectedEndOfDocument)
    ensures c.rest != [] && !r.Ok? ==> r == Err(MessageWithLocation(FromRangeStart(c.rest[0].range)))
  {
    if c.rest == [] then Err(UnexpectedEndOfDocument)
    else if c.rest[0].token == expected then Ok(c.Next())
    else Err(MessageWithLocation(FromRangeStart(c.Next().last)))
  }

  function ExpectedIdentifier(c: Cursor): (r: Result<Parsed<string>>)
    ensures r.Ok? <==> c.rest != [] && c.rest[0].token.Identifier?
    ensures r.Ok? ==> r.value == Parsed(c.rest[0].token.name, c.Next())
    ensures !r.Ok? ==> r.error == (if c.rest == [] then UnexpectedEndOfDocument else MessageWithLocation(FromRangeStart(c.last)))
  {
    match c.Peek(0)
    case Some(Identifier(s)) => Ok(Parsed(s, c.Next()))
    case Some(_) => Err(MessageWithLocation(FromRangeStart(c.last)))
    case None => Err(UnexpectedEndOfDocument)
  }

  function ExpectedNumber(c: Cursor): (r: Result<Parsed<u32>>)
    ensures r.Ok? <==> c.rest != [] && c.rest[0].token.Number?
    ensures r.Ok? ==> r.value == Parsed(c.rest[0].token.value, c.Next())
    ensures !r.Ok? ==> r.error == (if c.rest == [] then UnexpectedEndOfDocument else MessageWithLocation(FromRangeStart(c.last)))
  {
    match c.Peek(0)
    case Some(Number(n)) => Ok(Parsed(n, c.Next()))
    case Some(_) => Err(MessageWithLocation(FromRangeStart(c.last)))
    case None => Err(UnexpectedEndOfDocument)
  }

  function ExpectedChar(c: Cursor): (r: Result<Parsed<char>>)
    ensures r.Ok? <==> c.rest != [] && c.rest[0].token.Char?
    ensures r.Ok? ==> r.value == Parsed(c.rest[0].token.character, c.Next())
    ensures !r.Ok? ==> r.error == (if c.rest == [] then UnexpectedEndOfDocument else MessageWithLocation(FromRangeStart(c.last)))
  {
    match c.Peek(0)
    case Some(Char(ch)) => Ok(Parsed(ch, c.Next()))
    case Some(_) => Err(MessageWithLocation(FromRangeStart(c.last)))
    case None => Err(UnexpectedEndOfDocument)
  }

  // ---------------------------------------------------------------------
  // The grammar.  Each routine is measured by the number of tokens left and,
  // for routines that call one another without consuming a token, by its
  // place in the call order.

  /** `program := expression {separator expression} [separator]`; parsing stops at the first missing separator. */
  function Program(c: Cursor): Result<Parsed<Ast.Program>>
  {
    match ProgramItems([], c)
    case Err(e) => Err(e)
    case Ok(Parsed(es, c1)) => Ok(Parsed(Ast.Program(es), c1))
  }

  function ProgramItems(es: seq<Ast.Expression>, c: Cursor): (r: Result<Parsed<seq<Ast.Expression>>>)
    ensures r.Ok? ==> |r.value.cursor.rest| <= |c.rest|
    decreases |c.rest|
  {
    if c.rest == [] then Ok(Parsed(es, c))
    else
      match Expression(c)
      case Err(e) => Err(e)
      case Ok(Parsed(e, c1)) =>
        if c1.AtSeparator() then ProgramItems(es + [e], c1.Next())
        else Ok(Parsed(es + [e], c1))
  }

  /** `expression := simple ["||" [new-line] expression]`: the right operand is a whole expression. */
  function Expression(c: Cursor): (r: Result<Parsed<Ast.Expression>>)
    ensures r.Ok? ==> |r.value.cursor.rest| < |c.rest|
    decreases |c.rest|, 6
  {
    match SimpleExpression(c)
    case Err(e) => Err(e)
    case Ok(Parsed(left, c1)) => LogicOrTail(left, c1)
  }

  function LogicOrTail(left: Ast.Expression, c: Cursor): (r: Result<Parsed<Ast.Expression>>)
    ensures r.Ok? ==> |r.value.cursor.rest| <= |c.rest|
    decreases |c.rest|, 7
  {
    if c.PeekIs(0, LogicOr) then
      match Expression(c.Next().SkipNewLine())
      case Err(e) => Err(e)
      case Ok(Parsed(right, c1)) => LogicOrTail(Ast.Or(left, right), c1)
    else Ok(Parsed(left, c))
  }

  /** A base expression followed by any number of notations and rear function calls. */
  function SimpleExpression(c: Cursor): (r: Result<Parsed<Ast.Expression>>)
    ensures r.Ok? ==> |r.value.cursor.rest| < |c.rest|
    decreases |c.rest|, 5
  {
    match BaseExpression(c)
    case Err(e) => Err(e)
    case Ok(Parsed(left, c1)) => NotationTail(left, c1)
  }

  /** The dot of a rear function call `.name(` comes next. */
  predicate AtRearCall(c: Cursor)
  {
    c.PeekIs(0, Dot) && c.Peek(1).Some? && c.Peek(1).value.Identifier? && c.PeekIs(2, LeftParen)
  }

  function NotationTail(left: Ast.Expression, c: Cursor): (r: Result<Parsed<Ast.Expression>>)
    ensures r.Ok? ==> |r.value.cursor.rest| <= |c.rest|
    decreases |c.rest|, 11
  {
    if c.rest != [] && IsNotation(c.rest[0].token) then
      NotationTail(Ast.Expression.FunctionCall(Ast.FunctionCall.FunctionCall(NotationName(c.rest[0].token), left, [])), c.Next())
    else if c.PeekIs(0, LeftBrace) then
      match Quantifier(c)
      case Err(e) => Err(e)
      case Ok(Parsed((q, lazy), c1)) =>
        match QuantifierCall(q, lazy, c1.last)
        case Err(e) => Err(e)
        case Ok((name, args)) => NotationTail(Ast.Expression.FunctionCall(Ast.FunctionCall.FunctionCall(name, left, args)), c1)
    else if AtRearCall(c) then
      match RearFunctionCall(left, c)
      case Err(e) => Err(e)
      case Ok(Parsed(call, c1)) => NotationTail(Ast.Expression.FunctionCall(call), c1)
    else Ok(Parsed(left, c))
  }

  /**
   * `{ [nl] m ( "," [n] | nl n | ) [nl] } [?]`.  The comma after the first
   * number is not a separator: it marks a second number, or its absence.
   */
  function Quantifier(c: Cursor): (r: Result<Parsed<(NotationQuantifier, bool)>>)
    ensures r.Ok? ==> |r.value.cursor.rest| < |c.rest|
  {
    var c1 := c.Next().SkipNewLine();
    match ExpectedNumber(c1)
    case Err(e) => Err(e)
    case Ok(Parsed(from, c2)) =>
      var (dual, to, c3) := QuantifierUpperBound(c2);
      match ExpectedToken(c3.SkipNewLine(), RightBrace)
      case Err(e) => Err(e)
      case Ok(c4) =>
        var lazy := c4.PeekIs(0, Question);
        var quantifier :=
          if !dual then Repeat(from)
          else if to.Some? then RepeatRange(from, to.value)
          else AtLeast(from);
        Ok(Parsed((quantifier, lazy), if lazy then c4.Next() else c4))
  }

  /** A quantifier whose number and closing brace are read: its kind and laziness, and where it stops. */
  lemma QuantifierFromParts(c: Cursor, from: u32, c2: Cursor, c4: Cursor)
    requires ExpectedNumber(c.Next().SkipNewLine()) == Ok(Parsed(from, c2))
    requires ExpectedToken(QuantifierUpperBound(c2).2.SkipNewLine(), RightBrace) == Ok(c4)
    ensures var (dual, to, _) := QuantifierUpperBound(c2);
            var lazy := c4.PeekIs(0, Question);
            && (!dual ==> Quantifier(c) == Ok(Parsed((Repeat(from), lazy), if lazy then c4.Next() else c4)))
            && (dual && to.Some? ==> Quantifier(c) == Ok(Parsed((RepeatRange(from, to.value), lazy), if lazy then c4.Next() else c4)))
            && (dual && to.None? ==> Quantifier(c) == Ok(Parsed((AtLeast(from), lazy), if lazy then c4.Next() else c4)))
  {
  }

  /** What follows the first number of a quantifier: whether it is dual, and its upper bound if any. */
  function QuantifierUpperBound(c: Cursor): (r: (bool, Option<u32>, Cursor))
    ensures |r.2.rest| <= |c.rest|
    ensures r.1.Some? ==> r.0
  {
    if c.PeekIs(0, Comma) then
      var c1 := c.Next();
      (match c1.Peek(0)
       case Some(Number(n)) => (true, Some(n), c1.Next())
       case _ => (true, None, c1))
    else if c.PeekIs(0, NewLine) && c.Peek(1).Some? && c.Peek(1).value.Number? then
      (true, Some(c.rest[1].token.value), c.Next().Next())
    else (false, None, c)
  }

  /** `. name ( [nl] args )`, applied to the expression before the dot. */
  function RearFunctionCall(expression: Ast.Expression, c: Cursor): (r: Result<Parsed<Ast.FunctionCall>>)
    ensures r.Ok? ==> |r.value.cursor.rest| < |c.rest|
    decreases |c.rest|, 10
  {
    match ExpectedIdentifier(c.Next())
    case Err(e) => Err(e)
    case Ok(Parsed(nameString, c1)) =>
      match FunctionNameFromStr(nameString, c1.last)
      case Err(e) => Err(e)
      case Ok(name) =>
        match CallArgs(c1.Next().SkipNewLine())
        case Err(e) => Err(e)
        case Ok(Parsed(args, c2)) => Ok(Parsed(Ast.FunctionCall.FunctionCall(name, expression, args), c2))
  }

  /** The arguments of a call and its closing parenthesis. */
  function CallArgs(c: Cursor): (r: Result<Parsed<seq<Ast.FunctionCallArg>>>)
    ensures r.Ok? ==> |r.value.cursor.rest| < |c.rest|
    decreases |c.rest|, 9
  {
    match ArgsLoop([], c)
    case Err(e) => Err(e)
    case Ok(Parsed(args, c1)) =>
      match ExpectedToken(c1, RightParen)
      case Err(e) => Err(e)
      case Ok(c2) => Ok(Parsed(args, c2))
  }

  /** Reads arguments until a `)`, the end of the tokens, or a missing separator. */
  function ArgsLoop(args: seq<Ast.FunctionCallArg>, c: Cursor): (r: Result<Parsed<seq<Ast.FunctionCallArg>>>)
    ensures r.Ok? ==> |r.value.cursor.rest| <= |c.rest|
    decreases |c.rest|, 8
  {
    if c.rest == [] || c.PeekIs(0, RightParen) then Ok(Parsed(args, c))
    else
      match Arg(c)
      case Err(e) => Err(e)
      case Ok(Parsed(arg, c1)) =>
        if c1.AtSeparator() then ArgsLoop(args + [arg], c1.Next())
        else Ok(Parsed(args + [arg], c1))
  }

  /** One round of the argument loop, given what the argument at `c` parses to. */
  lemma ArgsLoopStep(args: seq<Ast.FunctionCallArg>, c: Cursor, arg: Result<Parsed<Ast.FunctionCallArg>>)
    requires c.rest != [] && !c.PeekIs(0, RightParen) && Arg(c) == arg
    ensures arg.Err? ==> ArgsLoop(args, c) == Err(arg.error)
    ensures arg.Ok? && arg.value.cursor.AtSeparator() ==>
              ArgsLoop(args, c) == ArgsLoop(args + [arg.value.value], arg.value.cursor.Next())
    ensures arg.Ok? && !arg.value.cursor.AtSeparator() ==>
              ArgsLoop(args, c) == Ok(Parsed(args + [arg.value.value], arg.value.cursor))
  {
  }

  /** A number, an identifier, or else an expression. */
  function Arg(c: Cursor): (r: Result<Parsed<Ast.FunctionCallArg>>)
    requires c.rest != []
    ensures r.Ok? ==> |r.value.cursor.rest| < |c.rest|
    decreases |c.rest|, 7
  {
    match c.rest[0].token
    case Number(n) => Ok(Parsed(Ast.FunctionCallArg.Number(n), c.Next()))
    case Identifier(id) => Ok(Parsed(Ast.FunctionCallArg.Identifier(id), c.Next()))
    case _ =>
      match Expression(c)
      case Err(e) => Err(e)
      case Ok(Parsed(e, c1)) => Ok(Parsed(Ast.FunctionCallArg.Expression(e), c1))
  }

  /** A group, a function call, an identifier, an assertion, or a literal. */
  function BaseExpression(c: Cursor): (r: Result<Parsed<Ast.Expression>>)
    ensures r.Ok? ==> |r.value.cursor.rest| < |c.rest|
    decreases |c.rest|, 4
  {
    if c.rest == [] then Err(UnexpectedEndOfDocument)
    else if c.rest[0].token == LeftParen then Group(c)
    else if c.rest[0].token.Identifier? && c.PeekIs(1, LeftParen) then FunctionCall(c)
    else
      match c.rest[0].token
      case Identifier(id) => Ok(Parsed(Ast.Expression.Identifier(id), c.Next()))
      case Assertion(name) =>
        (match AssertionNameFromStr(name, c.last)
         case Err(e) => Err(e)
         case Ok(n) => Ok(Parsed(Ast.Expression.Assertion(n), c.Next())))
      case _ =>
        match Literal(c)
        case Err(e) => Err(e)
        case Ok(Parsed(literal, c1)) => Ok(Parsed(Ast.Expression.Literal(literal), c1))
  }

  /** `( [nl] {expression separator} )`. */
  function Group(c: Cursor): (r: Result<Parsed<Ast.Expression>>)
    ensures r.Ok? ==> |r.value.cursor.rest| < |c.rest|
    decreases |c.rest|, 3
  {
    match ExpectedToken(c, LeftParen)
    case Err(e) => Err(e)
    case Ok(c1) =>
      match GroupItems([], c1.SkipNewLine())
      case Err(e) => Err(e)
      case Ok(Parsed(es, c2)) =>
        match ExpectedToken(c2, RightParen)
        case Err(e) => Err(e)
        case Ok(c3) => Ok(Parsed(Ast.Group(es), c3))
  }

  /** Reads expressions until a `)`, the end of the tokens, or a missing separator. */
  function GroupItems(es: seq<Ast.Expression>, c: Cursor): (r: Result<Parsed<seq<Ast.Expression>>>)
    ensures r.Ok? ==> |r.value.cursor.rest| <= |c.rest|
    decreases |c.rest|, 7
  {
    if c.rest == [] || c.PeekIs(0, RightParen) then Ok(Parsed(es, c))
    else
      match Expression(c)
      case Err(e) => Err(e)
      case Ok(Parsed(e, c1)) =>
        if c1.AtSeparator() then GroupItems(es + [e], c1.Next())
        else Ok(Parsed(es + [e], c1))
  }

  /** `name ( [nl] expression [separator] args )`. */
  function FunctionCall(c: Cursor): (r: Result<Parsed<Ast.Expression>>)
    ensures r.Ok? ==> |r.value.cursor.rest| < |c.rest|
    decreases |c.rest|, 3
  {
    match ExpectedIdentifier(c)
    case Err(e) => Err(e)
    case Ok(Parsed(nameString, c1)) =>
      match FunctionNameFromStr(nameString, c1.last)
      case Err(e) => Err(e)
      case Ok(name) =>
        match Expression(c1.Next().SkipNewLine())
        case Err(e) => Err(e)
        case Ok(Parsed(expression, c2)) =>
          match CallArgs(c2.SkipSeparator())
          case Err(e) => Err(e)
          case Ok(Parsed(args, c3)) =>
            Ok(Parsed(Ast.Expression.FunctionCall(Ast.FunctionCall.FunctionCall(name, expression, args)), c3))
  }

  /** A charset, a negative charset, a char, a string, a preset charset or a special char. */
  function Literal(c: Cursor): (r: Result<Parsed<Ast.Literal>>)
    requires c.rest != []
    ensures r.Ok? ==> |r.value.cursor.rest| < |c.rest|
    decreases |c.rest|, 3
  {
    if c.rest[0].token == LeftBracket then
      match Charset(c)
      case Err(e) => Err(e)
      case Ok(Parsed(elements, c1)) => Ok(Parsed(Ast.Literal.CharSet(Ast.CharSet.CharSet(false, elements)), c1))
    else if c.rest[0].token == Exclamation && c.PeekIs(1, LeftBracket) then
      match Charset(c.Next())
      case Err(e) => Err(e)
      case Ok(Parsed(elements, c1)) => Ok(Parsed(Ast.Literal.CharSet(Ast.CharSet.CharSet(true, elements)), c1))
    else
      match c.rest[0].token
      case Char(ch) => Ok(Parsed(Ast.Literal.Char(ch), c.Next()))
      case String(s) => Ok(Parsed(Ast.Literal.String(s), c.Next()))
      case PresetCharSet(name) =>
        (match PresetCharSetNameFromStr(name, c.last)
         case Err(e) => Err(e)
         case Ok(n) => Ok(Parsed(Ast.Literal.PresetCharSet(n), c.Next())))
      case Special(name) =>
        (match SpecialCharNameFromStr(name, c.last)
         case Err(e) => Err(e)
         case Ok(n) => Ok(Parsed(Ast.Literal.Special(n), c.Next())))
      case _ => Err(MessageWithLocation(c.last))
  }

  /** `[ [nl] {element separator} ]`, called with the `[` next. */
  function Charset(c: Cursor): (r: Result<Parsed<seq<Ast.CharSetElement>>>)
    requires c.PeekIs(0, LeftBracket)
    ensures r.Ok? ==> |r.value.cursor.rest| < |c.rest|
    decreases |c.rest|, 1
  {
    match CharsetItems([], c.Next().SkipNewLine())
    case Err(e) => Err(e)
    case Ok(Parsed(elements, c1)) =>
      match ExpectedToken(c1, RightBracket)
      case Err(e) => Err(e)
      case Ok(c2) => Ok(Parsed(elements, c2))
  }

  /** Reads charset elements until a `]`, the end of the tokens, or a missing separator. */
  function CharsetItems(elements: seq<Ast.CharSetElement>, c: Cursor): (r: Result<Parsed<seq<Ast.CharSetElement>>>)
    ensures r.Ok? ==> |r.value.cursor.rest| <= |c.rest|
    decreases |c.rest|, 3
  {
    if c.rest == [] || c.PeekIs(0, RightBracket) then Ok(Parsed(elements, c))
    else
      match CharsetElement(c)
      case Err(e) => Err(e)
      case Ok(Parsed(element, c1)) =>
        if c1.AtSeparator() then CharsetItems(elements + [element], c1.Next())
        else Ok(Parsed(elements + [element], c1))
  }

  /** A char range, a char, a preset charset, or a nested (positive) charset. */
  function CharsetElement(c: Cursor): (r: Result<Parsed<Ast.CharSetElement>>)
    requires c.rest != []
    ensures r.Ok? ==> |r.value.cursor.rest| < |c.rest|
    decreases |c.rest|, 2
  {
    if c.rest[0].token.Char? && (c.PeekIs(1, Interval) || (c.PeekIs(1, NewLine) && c.PeekIs(2, Interval))) then
      match CharRange(c)
      case Err(e) => Err(e)
      case Ok(Parsed(range, c1)) => Ok(Parsed(Ast.CharSetElement.CharRange(range), c1))
    else
      match c.rest[0].token
      case Char(ch) => Ok(Parsed(Ast.CharSetElement.Char(ch), c.Next()))
      case PresetCharSet(name) =>
        (match PresetCharSetNameFromStr(name, c.last)
         case Err(e) => Err(e)
         case Ok(n) => Ok(Parsed(Ast.CharSetElement.PresetCharSet(n), c.Next())))
      case LeftBracket =>
        (match Charset(c)
         case Err(e) => Err(e)
         case Ok(Parsed(elements, c1)) =>
           Ok(Parsed(Ast.CharSetElement.CharSet(Ast.CharSet.CharSet(false, elements)), c1)))
      case _ => Err(MessageWithLocation(c.last))
  }

  /** `char [nl] .. [nl] char`; the interval token is consumed unchecked. */
  function CharRange(c: Cursor): (r: Result<Parsed<Ast.CharRange>>)
    ensures r.Ok? ==> |r.value.cursor.rest| < |c.rest|
  {
    match ExpectedChar(c)
    case Err(e) => Err(e)
    case Ok(Parsed(start, c1)) =>
      match ExpectedChar(c1.SkipNewLine().Next().SkipNewLine())
      case Err(e) => Err(e)
      case Ok(Parsed(end, c2)) => Ok(Parsed(Ast.CharRange.CharRange(start, end), c2))
  }

  // ---------------------------------------------------------------------
  // The parser object

  /** A parsing method's result and final state are those its specification gives. */
  predicate Agrees<T(==)>(r: Result<T>, spec: Result<Parsed<T>>, now: Cursor)
  {
    match spec
    case Ok(p) => r == Ok(p.value) && now == p.cursor
    case Err(e) => r == Err(e)
  }

  class Parser {
    /** The tokens not yet consumed. */
    var upstream: seq<TokenWithRange>
    /** The range of the token consumed last. */
    var lastRange: Location

    constructor (tokens: seq<TokenWithRange>)
      ensures upstream == tokens && lastRange == Location(0, 0, 0, 0, 0)
    {
      upstream := tokens;
      lastRange := Location(0, 0, 0, 0, 0);
    }

    function At(): Cursor
      reads this
    {
      Cursor(upstream, lastRange)
    }

    function PeekToken(offset: nat): Option<Token>
      reads this
    {
      At().Peek(offset)
    }

    method NextToken() returns (t: Option<Token>)
      modifies this
      ensures t == old(At()).Peek(0) && At() == old(At()).Next()
    {
      if upstream == [] {
        t := None;
      } else {
        t := Some(upstream[0].token);
        lastRange := upstream[0].range;
        upstream := upstream[1..];
      }
    }

    method ConsumeNewLineIfExist() returns (found: bool)
      modifies this
      ensures found == old(At()).PeekIs(0, NewLine) && At() == old(At()).SkipNewLine()
    {
      found := PeekToken(0) == Some(NewLine);
      if found {
        var _ := NextToken();
      }
    }

    method ConsumeNewLineOrCommaIfExist() returns (found: bool)
      modifies this
      ensures found == old(At()).AtSeparator() && At() == old(At()).SkipSeparator()
    {
      found := PeekToken(0) == Some(NewLine) || PeekToken(0) == Some(Comma);
      if found {
        var _ := NextToken();
      }
    }

    method ExpectToken(expected: Token) returns (r: Result<()>)
      modifies this
      ensures ExpectedToken(old(At()), expected).Ok? ==> r == Ok(()) && At() == ExpectedToken(old(At()), expected).value
      ensures ExpectedToken(old(At()), expected).Err? ==> r == Err(ExpectedToken(old(At()), expected).error)
    {
      var t := NextToken();
      if t == None {
        r := Err(UnexpectedEndOfDocument);
      } else if t.value == expected {
        r := Ok(());
      } else {
        r := Err(MessageWithLocation(FromRangeStart(lastRange)));
      }
    }

    method ExpectIdentifier() returns (r: Result<string>)
      modifies this
      ensures Agrees(r, ExpectedIdentifier(old(At())), At())
    {
      if upstream == [] {
        r := Err(UnexpectedEndOfDocument);
      } else if upstream[0].token.Identifier? {
        var id := upstream[0].token.name;
        var _ := NextToken();
        r := Ok(id);
      } else {
        r := Err(MessageWithLocation(FromRangeStart(lastRange)));
      }
    }

    method ExpectNumber() returns (r: Result<u32>)
      modifies this
      ensures Agrees(r, ExpectedNumber(old(At())), At())
    {
      if upstream == [] {
        r := Err(UnexpectedEndOfDocument);
      } else if upstream[0].token.Number? {
        var num := upstream[0].token.value;
        var _ := NextToken();
        r := Ok(num);
      } else {
        r := Err(MessageWithLocation(FromRangeStart(lastRange)));
      }
    }

    method ExpectChar() returns (r: Result<char>)
      modifies this
      ensures Agrees(r, ExpectedChar(old(At())), At())
    {
      if upstream == [] {
        r := Err(UnexpectedEndOfDocument);
      } else if upstream[0].token.Char? {
        var ch := upstream[0].token.character;
        var _ := NextToken();
        r := Ok(ch);
      } else {
        r := Err(MessageWithLocation(FromRangeStart(lastRange)));
      }
    }

    method ParseProgram() returns (r: Result<Ast.Program>)
      modifies this
      ensures Agrees(r, Program(old(At())), At())
    {
      ghost var c0 := At();
      var expressions: seq<Ast.Expression> := [];
      while upstream != []
        invariant ProgramItems(expressions, At()) == ProgramItems([], c0)
        decreases |upstream|
      {
        var expression := ParseExpression();
        if expression.Err? {
          return Err(expression.error);
        }
        expressions := expressions + [expression.value];
        var foundSeparator := ConsumeNewLineOrCommaIfExist();
        if !foundSeparator {
          break;
        }
      }
      r := Ok(Ast.Program(expressions));
    }

    /** Parses an expression: simple expressions joined by `||`, grouped to the right. */
    method ParseExpression() returns (r: Result<Ast.Expression>)
      modifies this
      ensures Agrees(r, Expression(old(At())), At())
      decreases |upstream|, 6
    {
      var simple := ParseSimpleExpression();
      if simple.Err? {
        return simple;
      }
      ghost var c1 := At();
      var left := simple.value;
      while PeekToken(0) == Some(LogicOr)
        invariant LogicOrTail(left, At()) == LogicOrTail(simple.value, c1)
        invariant |upstream| < |old(upstream)|
        decreases |upstream|
      {
        var _ := NextToken();
        var _ := ConsumeNewLineIfExist();
        var right := ParseExpression();
        if right.Err? {
          return right;
        }
        left := Ast.Or(left, right.value);
      }
      r := Ok(left);
    }

    /** Parses a base expression and the notations and rear calls that follow it. */
    method ParseSimpleExpression() returns (r: Result<Ast.Expression>)
      modifies this
      ensures Agrees(r, SimpleExpression(old(At())), At())
      decreases |upstream|, 5
    {
      var base := ParseBaseExpression();
      if base.Err? {
        return base;
      }
      ghost var c1 := At();
      var left := base.value;
      while true
        invariant NotationTail(left, At()) == NotationTail(base.value, c1)
        invariant |upstream| < |old(upstream)|
        decreases |upstream|
      {
        if upstream != [] && IsNotation(upstream[0].token) {
          left := Ast.Expression.FunctionCall(Ast.FunctionCall.FunctionCall(NotationName(upstream[0].token), left, []));
          var _ := NextToken();
        } else if PeekToken(0) == Some(LeftBrace) {
          var quantifier := ContinueParseNotationQuantifier();
          if quantifier.Err? {
            return Err(quantifier.error);
          }
          var (q, lazy) := quantifier.value;
          var name: Ast.FunctionName;
          var args: seq<Ast.FunctionCallArg>;
          match q {
            case Repeat(n) =>
              if lazy {
                return Err(MessageWithLocation(lastRange));
              }
              args := [Ast.FunctionCallArg.Number(n)];
              name := Ast.FunctionName.Repeat;
            case RepeatRange(m, n) =>
              if lazy && m == n {
                return Err(MessageWithLocation(lastRange));
              }
              args := [Ast.FunctionCallArg.Number(m), Ast.FunctionCallArg.Number(n)];
              name := if lazy then Ast.FunctionName.RepeatRangeLazy else Ast.FunctionName.RepeatRange;
            case AtLeast(n) =>
              args := [Ast.FunctionCallArg.Number(n)];
              name := if lazy then Ast.FunctionName.AtLeastLazy else Ast.FunctionName.AtLeast;
          }
          left := Ast.Expression.FunctionCall(Ast.FunctionCall.FunctionCall(name, left, args));
        } else if AtRearCall(At()) {
          var call := ContinueParseRearFunctionCall(left);
          if call.Err? {
            return Err(call.error);
          }
          left := Ast.Expression.FunctionCall(call.value);
        } else {
          break;
        }
      }
      r := Ok(left);
    }

    method ContinueParseNotationQuantifier() returns (r: Result<(NotationQuantifier, bool)>)
      modifies this
      ensures Agrees(r, Quantifier(old(At())), At())
    {
      ghost var c0 := At();
      var _ := NextToken();
      var _ := ConsumeNewLineIfExist();
      var from := ExpectNumber();
      if from.Err? {
        return Err(from.error);
      }
      ghost var c2 := At();
      var dual, toOption := ContinueParseUpperBound();
      var _ := ConsumeNewLineIfExist();
      var close := ExpectToken(RightBrace);
      if close.Err? {
        return Err(close.error);
      }
      QuantifierFromParts(c0, from.value, c2, At());
      var lazy := PeekToken(0) == Some(Question);
      if lazy {
        var _ := NextToken();
      }
      var quantifier :=
        if dual then (if toOption.Some? then RepeatRange(from.value, toOption.value) else AtLeast(from.value))
        else Repeat(from.value);
      r := Ok((quantifier, lazy));
    }

    /** The part of a quantifier after its first number: a comma and an optional number, or a new-line and a number. */
    method ContinueParseUpperBound() returns (dual: bool, toOption: Option<u32>)
      modifies this
      ensures (dual, toOption, At()) == QuantifierUpperBound(old(At()))
    {
      if PeekToken(0) == Some(Comma) {
        var _ := NextToken();
        if upstream != [] && upstream[0].token.Number? {
          toOption := Some(upstream[0].token.value);
          var _ := NextToken();
        } else {
          toOption := None;
        }
        dual := true;
      } else if PeekToken(0) == Some(NewLine) && |upstream| > 1 && upstream[1].token.Number? {
        var _ := NextToken();
        var t := NextToken();
        toOption := Some(t.value.value);
        dual := true;
      } else {
        dual := false;
        toOption := None;
      }
    }

    method ContinueParseRearFunctionCall(expression: Ast.Expression) returns (r: Result<Ast.FunctionCall>)
      modifies this
      ensures Agrees(r, RearFunctionCall(expression, old(At())), At())
      decreases |upstream|, 10
    {
      var _ := NextToken();
      var nameString := ExpectIdentifier();
      if nameString.Err? {
        return Err(nameString.error);
      }
      var name := FunctionNameFromStr(nameString.value, lastRange);
      if name.Err? {
        return Err(name.error);
      }
      var _ := NextToken();
      var _ := ConsumeNewLineIfExist();
      var args := ParseCallArgs();
      if args.Err? {
        return Err(args.error);
      }
      r := Ok(Ast.FunctionCall.FunctionCall(name.value, expression, args.value));
    }

    /**
     * The argument list shared by both call forms: numbers, identifiers or
     * expressions, up to the closing parenthesis.
     */
    method ParseCallArgs() returns (r: Result<seq<Ast.FunctionCallArg>>)
      modifies this
      ensures Agrees(r, CallArgs(old(At())), At())
      decreases |upstream|, 9
    {
      ghost var c0 := At();
      var args: seq<Ast.FunctionCallArg> := [];
      while upstream != [] && upstream[0].token != RightParen
        invariant ArgsLoop(args, At()) == ArgsLoop([], c0)
        invariant |upstream| <= |old(upstream)|
        decreases |upstream|
      {
        ghost var c := At();
        var token := upstream[0].token;
        var arg: Ast.FunctionCallArg;
        if token.Number? {
          var _ := NextToken();
          arg := Ast.FunctionCallArg.Number(token.value);
        } else if token.Identifier? {
          var _ := NextToken();
          arg := Ast.FunctionCallArg.Identifier(token.name);
        } else {
          var expression := ParseExpression();
          if expression.Err? {
            ArgsLoopStep(args, c, Err(expression.error));
            return Err(expression.error);
          }
          arg := Ast.FunctionCallArg.Expression(expression.value);
        }
        ArgsLoopStep(args, c, Ok(Parsed(arg, At())));
        args := args + [arg];
        var foundSeparator := ConsumeNewLineOrCommaIfExist();
        if !foundSeparator {
          break;
        }
      }
      var close := ExpectToken(RightParen);
      if close.Err? {
        return Err(close.error);
      }
      r := Ok(args);
    }

    method ParseBaseExpression() returns (r: Result<Ast.Expression>)
      modifies this
      ensures Agrees(r, BaseExpression(old(At())), At())
      decreases |upstream|, 4
    {
      if upstream == [] {
        return Err(UnexpectedEndOfDocument);
      }
      var token := upstream[0].token;
      if token == LeftParen {
        r := ParseGroup();
      } else if token.Identifier? && PeekToken(1) == Some(LeftParen) {
        r := ParseFunctionCall();
      } else if token.Identifier? {
        var _ := NextToken();
        r := Ok(Ast.Expression.Identifier(token.name));
      } else if token.Assertion? {
        var name := AssertionNameFromStr(token.name, lastRange);
        if name.Err? {
          return Err(name.error);
        }
        var _ := NextToken();
        r := Ok(Ast.Expression.Assertion(name.value));
      } else {
        var literal := ParseLiteral();
        if literal.Err? {
          return Err(literal.error);
        }
        r := Ok(Ast.Expression.Literal(literal.value));
      }
    }

    method ParseGroup() returns (r: Result<Ast.Expression>)
      modifies this
      ensures Agrees(r, Group(old(At())), At())
      decreases |upstream|, 3
    {
      var open := ExpectToken(LeftParen);
      if open.Err? {
        return Err(open.error);
      }
      var _ := ConsumeNewLineIfExist();
      ghost var c1 := At();
      var expressions: seq<Ast.Expression> := [];
      while upstream != [] && upstream[0].token != RightParen
        invariant GroupItems(expressions, At()) == GroupItems([], c1)
        invariant |upstream| < |old(upstream)|
        decreases |upstream|
      {
        var expression := ParseExpression();
        if expression.Err? {
          return Err(expression.error);
        }
        expressions := expressions + [expression.value];
        var foundSeparator := ConsumeNewLineOrCommaIfExist();
        if !foundSeparator {
          break;
        }
      }
      var close := ExpectToken(RightParen);
      if close.Err? {
        return Err(close.error);
      }
      r := Ok(Ast.Group(expressions));
    }

    method ParseFunctionCall() returns (r: Result<Ast.Expression>)
      modifies this
      ensures Agrees(r, FunctionCall(old(At())), At())
      decreases |upstream|, 3
    {
      var nameString := ExpectIdentifier();
      if nameString.Err? {
        return Err(nameString.error);
      }
      var name := FunctionNameFromStr(nameString.value, lastRange);
      if name.Err? {
        return Err(name.error);
      }
      var _ := NextToken();
      var _ := ConsumeNewLineIfExist();
      var expression := ParseExpression();
      if expression.Err? {
        return expression;
      }
      var _ := ConsumeNewLineOrCommaIfExist();
      var args := ParseCallArgs();
      if args.Err? {
        return Err(args.error);
      }
      r := Ok(Ast.Expression.FunctionCall(Ast.FunctionCall.FunctionCall(name.value, expression.value, args.value)));
    }

    method ParseLiteral() returns (r: Result<Ast.Literal>)
      requires upstream != []
      modifies this
      ensures Agrees(r, Literal(old(At())), At())
      decreases |upstream|, 3
    {
      var token := upstream[0].token;
      if token == LeftBracket {
        var elements := ParseCharset();
        if elements.Err? {
          return Err(elements.error);
        }
        r := Ok(Ast.Literal.CharSet(Ast.CharSet.CharSet(false, elements.value)));
      } else if token == Exclamation && PeekToken(1) == Some(LeftBracket) {
        var _ := NextToken();
        var elements := ParseCharset();
        if elements.Err? {
          return Err(elements.error);
        }
        r := Ok(Ast.Literal.CharSet(Ast.CharSet.CharSet(true, elements.value)));
      } else if token.Char? {
        var _ := NextToken();
        r := Ok(Ast.Literal.Char(token.character));
      } else if token.String? {
        var _ := NextToken();
        r := Ok(Ast.Literal.String(token.text));
      } else if token.PresetCharSet? {
        var name := PresetCharSetNameFromStr(token.name, lastRange);
        if name.Err? {
          return Err(name.error);
        }
        var _ := NextToken();
        r := Ok(Ast.Literal.PresetCharSet(name.value));
      } else if token.Special? {
        var name := SpecialCharNameFromStr(token.name, lastRange);
        if name.Err? {
          return Err(name.error);
        }
        var _ := NextToken();
        r := Ok(Ast.Literal.Special(name.value));
      } else {
        r := Err(MessageWithLocation(lastRange));
      }
    }

    method ParseCharset() returns (r: Result<seq<Ast.CharSetElement>>)
      requires At().PeekIs(0, LeftBracket)
      modifies this
      ensures Agrees(r, Charset(old(At())), At())
      decreases |upstream|, 1
    {
      var _ := NextToken();
      var _ := ConsumeNewLineIfExist();
      ghost var c1 := At();
      var elements: seq<Ast.CharSetElement> := [];
      while upstream != [] && upstream[0].token != RightBracket
        invariant CharsetItems(elements, At()) == CharsetItems([], c1)
        invariant |upstream| < |old(upstream)|
        decreases |upstream|
      {
        var element := ParseCharsetElement();
        if element.Err? {
          return Err(element.error);
        }
        elements := elements + [element.value];
        var foundSeparator := ConsumeNewLineOrCommaIfExist();
        if !foundSeparator {
          break;
        }
      }
      var close := ExpectToken(RightBracket);
      if close.Err? {
        return Err(close.error);
      }
      r := Ok(elements);
    }

    /** One element of a charset: a char range, a char, a preset charset or a nested charset. */
    method ParseCharsetElement() returns (r: Result<Ast.CharSetElement>)
      requires upstream != []
      modifies this
      ensures Agrees(r, CharsetElement(old(At())), At())
      decreases |upstream|, 2
    {
      var token := upstream[0].token;
      if token.Char? && (PeekToken(1) == Some(Interval) || (PeekToken(1) == Some(NewLine) && PeekToken(2) == Some(Interval))) {
        var range := ParseCharRange();
        if range.Err? {
          return Err(range.error);
        }
        r := Ok(Ast.CharSetElement.CharRange(range.value));
      } else if token.Char? {
        var _ := NextToken();
        r := Ok(Ast.CharSetElement.Char(token.character));
      } else if token.PresetCharSet? {
        var name := PresetCharSetNameFromStr(token.name, lastRange);
        if name.Err? {
          return Err(name.error);
        }
        var _ := NextToken();
        r := Ok(Ast.CharSetElement.PresetCharSet(name.value));
      } else if token == LeftBracket {
        var inner := ParseCharset();
        if inner.Err? {
          return Err(inner.error);
        }
        r := Ok(Ast.CharSetElement.CharSet(Ast.CharSet.CharSet(false, inner.value)));
      } else {
        r := Err(MessageWithLocation(lastRange));
      }
    }

    method ParseCharRange() returns (r: Result<Ast.CharRange>)
      modifies this
      ensures Agrees(r, CharRange(old(At())), At())
    {
      var start := ExpectChar();
      if start.Err? {
        return Err(start.error);
      }
      var _ := ConsumeNewLineIfExist();
      var _ := NextToken();
      var _ := ConsumeNewLineIfExist();
      var end := ExpectChar();
      if end.Err? {
        return Err(end.error);
      }
      r := Ok(Ast.CharRange.CharRange(start.value, end.value));
    }
  }
}
