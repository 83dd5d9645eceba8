/**
 * The tokeniser.  It reads characters paired with their positions and
 * produces tokens with ranges, or the first error it meets.
 *
 * The scanning functions below (`Scan…`, `NextToken`, `LexFrom`) state, in
 * terms of the input and an index into it, what each part of the lexer
 * produces and where it stops; the `Lexer` class is the imperative lexer
 * (a cursor, the last consumed position and a stack of saved positions),
 * and each of its methods is proved to compute the matching function.
 * Properties of the functions are in module `LexerProperties`.
 */
module Lexer {
  import opened Locations
  import opened Errors
  import opened Tokens
  import opened CharPosition
  import Utf8Reader

  type Input = seq<CharWithPosition>

  /** The outcome of scanning from an index: a value and the index after it, or an error. */
  datatype Scan<T> = Scanned(value: T, next: nat) | Failed(error: Error)

  /** Every character is paired with a position whose index is the character's own index. */
  predicate Numbered(input: Input)
  {
    forall i :: 0 <= i < |input| ==> input[i].position.index == i
  }

  function TextOf(input: Input): (r: seq<char>)
    ensures |r| == |input|
    ensures forall i :: 0 <= i < |input| ==> r[i] == input[i].character
  {
    seq(|input|, i requires 0 <= i < |input| => input[i].character)
  }

  function Ch(input: Input, i: nat): char
    requires i < |input|
  {
    input[i].character
  }

  /** The characters from index `i` to index `j`, excluded. */
  function Chars(input: Input, i: nat, j: nat): (r: seq<char>)
    requires i <= j <= |input|
    ensures |r| == j - i
    ensures forall m :: 0 <= m < |r| ==> r[m] == Ch(input, i + m)
  {
    TextOf(input)[i..j]
  }

  function Pos(input: Input, i: nat): Location
    requires i < |input|
  {
    input[i].position
  }

  /** Whether the character at index `i` exists and equals `c`. */
  predicate At(input: Input, i: nat, c: char)
  {
    i < |input| && input[i].character == c
  }

  /** The range from the character at `i` to the character at `j`, both included. */
  function Span(input: Input, i: nat, j: nat): (r: Location)
    requires Numbered(input) && i <= j < |input|
    ensures r.index == i && r.EndIndex() == j + 1
    ensures FromRangeStart(r) == FromRangeStart(Pos(input, i))
  {
    FromPositionPairWithEndIncluded(Pos(input, i), Pos(input, j))
  }

  // Character classes

  predicate IsBlank(c: char) { c == ' ' || c == '\t' }

  predicate IsDigit(c: char) { '0' <= c <= '9' }

  predicate IsHexDigit(c: char) { '0' <= c <= '9' || 'a' <= c <= 'f' || 'A' <= c <= 'F' }

  /** The characters that may start an identifier, a keyword or a preset name. */
  predicate IsIdentifierStart(c: char)
  {
    'a' <= c <= 'z' || 'A' <= c <= 'Z' || c == '_'
    || '\U{A0}' <= c <= '\U{D7FF}' || '\U{E000}' <= c
  }

  predicate IsIdentifierChar(c: char) { IsDigit(c) || IsIdentifierStart(c) }

  /** The characters that end a number or a word. */
  predicate IsTerminator(c: char)
  {
    c in {' ', '\t', '\r', '\n', ',', '|', '!', '[', ']', '(', ')', '/', '\'', '"', '.', '?', '+', '*', '{', '}'}
  }

  // Numbers

  function DigitValue(c: char): nat
    requires IsDigit(c)
  {
    c as int - '0' as int
  }

  function HexDigitValue(c: char): nat
    requires IsHexDigit(c)
  {
    if '0' <= c <= '9' then c as int - '0' as int
    else if 'a' <= c <= 'f' then c as int - 'a' as int + 10
    else c as int - 'A' as int + 10
  }

  /** The value of a string of decimal digits. */
  function DecimalValue(ds: seq<char>): nat
    requires forall i :: 0 <= i < |ds| ==> IsDigit(ds[i])
  {
    if ds == [] then 0 else DecimalValue(ds[..|ds| - 1]) * 10 + DigitValue(ds[|ds| - 1])
  }

  /** The value of a string of hexadecimal digits. */
  function HexValue(ds: seq<char>): nat
    requires forall i :: 0 <= i < |ds| ==> IsHexDigit(ds[i])
  {
    if ds == [] then 0 else HexValue(ds[..|ds| - 1]) * 16 + HexDigitValue(ds[|ds| - 1])
  }

  /**
   * The rest of a number from index `i`, with `digits` read so far: digits
   * are kept, `_` is skipped, and a terminator or the end of the text ends
   * the number; any other character is an error located at it.
   */
  function NumberDigitsFrom(input: Input, i: nat, digits: string): (r: Scan<string>)
    requires i <= |input|
    requires forall m :: 0 <= m < |digits| ==> IsDigit(digits[m])
    ensures r.Scanned? ==> i <= r.next <= |input| && |r.value| >= |digits|
    ensures r.Scanned? ==> forall m :: 0 <= m < |r.value| ==> IsDigit(r.value[m])
    decreases |input| - i
  {
    if i == |input| then Scanned(digits, i)
    else if IsDigit(Ch(input, i)) then NumberDigitsFrom(input, i + 1, digits + [Ch(input, i)])
    else if Ch(input, i) == '_' then NumberDigitsFrom(input, i + 1, digits)
    else if IsTerminator(Ch(input, i)) then Scanned(digits, i)
    else Failed(MessageWithLocation(Pos(input, i)))
  }

  /**
   * A number whose first digit is at `i`: decimal digits with `_` ignored,
   * ended by a terminator or the end of the text; its value must fit in 32
   * unsigned bits, otherwise it is an error over the number's range.
   */
  function ScanNumber(input: Input, i: nat): (r: Scan<TokenWithRange>)
    requires Numbered(input) && i < |input| && IsDigit(Ch(input, i))
    ensures r.Scanned? ==> i < r.next <= |input|
  {
    match NumberDigitsFrom(input, i + 1, [Ch(input, i)])
    case Failed(e) => Failed(e)
    case Scanned(digits, j) =>
      var range := Span(input, i, j - 1);
      match ParseU32(digits)
      case None => Failed(MessageWithLocation(range))
      case Some(value) => Scanned(TokenWithRange(Number(value), range), j)
  }

  // Words

  predicate IsSymbolWord(name: string)
  {
    name in {"start", "end", "bound", "not_bound"}
  }

  predicate IsPresetCharSetWord(name: string)
  {
    name in {"char_space", "char_not_space", "char_word", "char_not_word", "char_digit", "char_not_digit"}
  }

  /** The token for a word: an assertion symbol, a preset character set or an identifier. */
  function WordToken(name: string): (r: Token)
    ensures r.Symbol? || r.PresetCharSet? || r.Identifier?
    ensures r.name == name
    ensures r.Symbol? <==> IsSymbolWord(name)
    ensures r.PresetCharSet? <==> IsPresetCharSetWord(name)
  {
    if IsSymbolWord(name) then Symbol(name)
    else if IsPresetCharSetWord(name) then PresetCharSet(name)
    else Identifier(name)
  }

  /**
   * The rest of a word from index `i`, with `name` read so far: identifier
   * characters, ended by a terminator or the end of the text; any other
   * character is an error located at it.
   */
  function WordFrom(input: Input, i: nat, name: string): (r: Scan<string>)
    requires i <= |input|
    ensures r.Scanned? ==> i <= r.next <= |input|
    decreases |input| - i
  {
    if i == |input| then Scanned(name, i)
    else if IsIdentifierChar(Ch(input, i)) then WordFrom(input, i + 1, name + [Ch(input, i)])
    else if IsTerminator(Ch(input, i)) then Scanned(name, i)
    else Failed(MessageWithLocation(Pos(input, i)))
  }

  /** A word whose first character is at `i`, classified by `WordToken`. */
  function ScanIdentifierOrKeyword(input: Input, i: nat): (r: Scan<TokenWithRange>)
    requires Numbered(input) && i < |input| && IsIdentifierStart(Ch(input, i))
    ensures r.Scanned? ==> i < r.next <= |input|
  {
    match WordFrom(input, i + 1, [Ch(input, i)])
    case Failed(e) => Failed(e)
    case Scanned(name, j) => Scanned(TokenWithRange(WordToken(name), Span(input, i, j - 1)), j)
  }

  // Escape sequences

  /** The escapes written with one character after the backslash. */
  function SimpleEscape(c: char): Option<char>
  {
    match c
    case '\\' => Some('\\')
    case '\'' => Some('\'')
    case '"' => Some('"')
    case 't' => Some('\t')
    case 'r' => Some('\r')
    case 'n' => Some('\n')
    case '0' => Some('\0')
    case _ => None
  }

  /**
   * The digits of a Unicode escape from index `i`, with `digits` read so
   * far: hexadecimal digits up to a `}`, which is consumed.  Reading stops
   * early, without a `}`, once there are more than six digits; the end of
   * the text, or a character that is neither, is an error.
   */
  function HexDigitsFrom(input: Input, i: nat, digits: string): (r: Scan<string>)
    requires i <= |input| && |digits| <= 6
    requires forall m :: 0 <= m < |digits| ==> IsHexDigit(digits[m])
    ensures r.Scanned? ==> i < r.next <= |input| && |r.value| <= 7
    ensures r.Scanned? ==> forall m :: 0 <= m < |r.value| ==> IsHexDigit(r.value[m])
    decreases |input| - i
  {
    if i == |input| then Failed(UnexpectedEndOfDocument)
    else if Ch(input, i) == '}' then Scanned(digits, i + 1)
    else if IsHexDigit(Ch(input, i)) then
      if |digits| + 1 > 6 then Scanned(digits + [Ch(input, i)], i + 1)
      else HexDigitsFrom(input, i + 1, digits + [Ch(input, i)])
    else Failed(MessageWithLocation(Pos(input, i)))
  }

  /**
   * A Unicode escape whose `{` is at index `b`.  More than six digits is an
   * error over the `{` and the seven digits read; otherwise the digits must
   * name a Unicode scalar value (see `CodepointFromDigits`), and an error is
   * located over the whole escape from `{` to `}`.
   */
  function ScanUnicodeEscape(input: Input, b: nat): (r: Scan<char>)
    requires Numbered(input) && b < |input| && Ch(input, b) == '{'
    ensures r.Scanned? ==> b < r.next <= |input|
  {
    match HexDigitsFrom(input, b + 1, "")
    case Failed(e) => Failed(e)
    case Scanned(digits, j) =>
      var range := Span(input, b, j - 1);
      if |digits| > 6 then Failed(MessageWithLocation(range))
      else
        match CodepointFromDigits(digits, range)
        case Ok(c) => Scanned(c, j)
        case Err(e) => Failed(e)
  }

  /**
   * The character whose code point is written by the hexadecimal `digits`;
   * no digits, or a value that is not a Unicode scalar value, is an error
   * located at `range`.
   */
  function CodepointFromDigits(digits: seq<char>, range: Location): (r: Result<char>)
    requires forall i :: 0 <= i < |digits| ==> IsHexDigit(digits[i])
    ensures r.Ok? <==> digits != [] && Utf8Reader.IsScalar(HexValue(digits))
    ensures r.Ok? ==> r.value as int == HexValue(digits)
    ensures r.Err? ==> r.error == MessageWithLocation(range)
  {
    if digits == [] then Err(MessageWithLocation(range))
    else
      var value := HexValue(digits);
      if !Utf8Reader.IsScalar(value) then Err(MessageWithLocation(range))
      else Ok(value as char)
  }

  /** The escape sequence whose character after the backslash is at index `i`. */
  function ScanEscape(input: Input, i: nat): (r: Scan<char>)
    requires Numbered(input) && i <= |input|
    ensures r.Scanned? ==> i < r.next <= |input|
  {
    if i == |input| then Failed(UnexpectedEndOfDocument)
    else if SimpleEscape(Ch(input, i)).Some? then Scanned(SimpleEscape(Ch(input, i)).value, i + 1)
    else if Ch(input, i) == 'u' then
      if At(input, i + 1, '{') then ScanUnicodeEscape(input, i + 1)
      else Failed(MessageWithLocation(MovePositionForward(Pos(input, i))))
    else Failed(MessageWithLocation(Pos(input, i)))
  }

  // Character and string literals

  /** The closing quote of a character literal opened at `s`, expected at `j`. */
  function CloseCharLiteral(input: Input, s: nat, c: char, j: nat): (r: Scan<TokenWithRange>)
    requires Numbered(input) && s < j <= |input|
    ensures r.Scanned? ==> r.next == j + 1 <= |input|
  {
    if j == |input| then Failed(UnexpectedEndOfDocument)
    else if Ch(input, j) != '\'' then Failed(MessageWithLocation(Pos(input, j)))
    else Scanned(TokenWithRange(Token.Char(c), Span(input, s, j)), j + 1)
  }

  /** A character literal whose opening quote is at `s`: one character or escape, then a quote. */
  function ScanChar(input: Input, s: nat): (r: Scan<TokenWithRange>)
    requires Numbered(input) && s < |input| && Ch(input, s) == '\''
    ensures r.Scanned? ==> s < r.next <= |input|
  {
    var i := s + 1;
    if i == |input| then Failed(UnexpectedEndOfDocument)
    else if Ch(input, i) == '\\' then
      match ScanEscape(input, i + 1)
      case Failed(e) => Failed(e)
      case Scanned(c, j) => CloseCharLiteral(input, s, c, j)
    else if Ch(input, i) == '\'' then Failed(MessageWithLocation(Span(input, s, i)))
    else CloseCharLiteral(input, s, Ch(input, i), i + 1)
  }

  /** The rest of a string literal opened at `s`, from index `i`, with `acc` decoded so far. */
  function ScanStringFrom(input: Input, s: nat, i: nat, acc: string): (r: Scan<TokenWithRange>)
    requires Numbered(input) && s < i <= |input|
    ensures r.Scanned? ==> i < r.next <= |input|
    decreases |input| - i
  {
    if i == |input| then Failed(UnexpectedEndOfDocument)
    else if Ch(input, i) == '\\' then
      match ScanEscape(input, i + 1)
      case Failed(e) => Failed(e)
      case Scanned(c, j) => ScanStringFrom(input, s, j, acc + [c])
    else if Ch(input, i) == '"' then Scanned(TokenWithRange(Token.String(acc), Span(input, s, i)), i + 1)
    else ScanStringFrom(input, s, i + 1, acc + [Ch(input, i)])
  }

  function ScanString(input: Input, s: nat): (r: Scan<TokenWithRange>)
    requires Numbered(input) && s < |input| && Ch(input, s) == '"'
    ensures r.Scanned? ==> s < r.next <= |input|
  {
    ScanStringFrom(input, s, s + 1, "")
  }

  // Comments

  /**
   * The rest of a line comment whose first `/` is at `s`, from index `i`,
   * with `text` read so far, as written: it stops only at a `\n`.  The test
   * meant to stop it before `\r\n` looks at the `\r` itself instead of the
   * character after it, so that test never succeeds.
   */
  function ScanLineCommentFromAsWritten(input: Input, s: nat, i: nat, text: string): (r: Scan<TokenWithRange>)
    requires Numbered(input) && s + 2 <= i <= |input|
    ensures r.Scanned? && i <= r.next <= |input|
    decreases |input| - i
  {
    if i == |input| || Ch(input, i) == '\n' || (Ch(input, i) == '\r' && At(input, i, '\n')) then
      Scanned(TokenWithRange(Token.Comment(Line(text)), Span(input, s, i - 1)), i)
    else ScanLineCommentFromAsWritten(input, s, i + 1, text + [Ch(input, i)])
  }

  /** A line comment whose first `/` is at `s`, as written. */
  function ScanLineCommentAsWritten(input: Input, s: nat): (r: Scan<TokenWithRange>)
    requires Numbered(input) && s + 1 < |input|
    ensures r.Scanned? && s < r.next <= |input|
  {
    ScanLineCommentFromAsWritten(input, s, s + 2, "")
  }

  /**
   * The rest of a line comment whose first `/` is at `s`, from index `i`,
   * with `text` read so far: it stops before the first `\n` or `\r\n`,
   * which is left for the next token.
   */
  function ScanLineCommentFrom(input: Input, s: nat, i: nat, text: string): (r: Scan<TokenWithRange>)
    requires Numbered(input) && s + 2 <= i <= |input|
    ensures r.Scanned? && i <= r.next <= |input|
    decreases |input| - i
  {
    if i == |input| || Ch(input, i) == '\n' || (Ch(input, i) == '\r' && At(input, i + 1, '\n')) then
      Scanned(TokenWithRange(Token.Comment(Line(text)), Span(input, s, i - 1)), i)
    else ScanLineCommentFrom(input, s, i + 1, text + [Ch(input, i)])
  }

  /** A line comment whose first `/` is at `s`: the text up to the line break, excluded. */
  function ScanLineComment(input: Input, s: nat): (r: Scan<TokenWithRange>)
    requires Numbered(input) && s + 1 < |input|
    ensures r.Scanned? && s < r.next <= |input|
  {
    ScanLineCommentFrom(input, s, s + 2, "")
  }

  /**
   * The rest of a block comment opened at `s`, from index `i`, at nesting
   * `depth`, with `acc` collected so far.  Nested `/*` and `*/` are kept in
   * the text; the outermost pair is not.
   */
  function ScanBlockCommentFrom(input: Input, s: nat, i: nat, depth: nat, acc: string): (r: Scan<TokenWithRange>)
    requires Numbered(input) && s < i <= |input| && depth >= 1
    ensures r.Scanned? ==> i < r.next <= |input|
    decreases |input| - i
  {
    if i == |input| then Failed(UnexpectedEndOfDocument)
    else if Ch(input, i) == '/' && At(input, i + 1, '*') then
      ScanBlockCommentFrom(input, s, i + 2, depth + 1, acc + "/*")
    else if Ch(input, i) == '*' && At(input, i + 1, '/') then
      if depth == 1 then Scanned(TokenWithRange(Token.Comment(Block(acc)), Span(input, s, i + 1)), i + 2)
      else ScanBlockCommentFrom(input, s, i + 2, depth - 1, acc + "*/")
    else ScanBlockCommentFrom(input, s, i + 1, depth, acc + [Ch(input, i)])
  }

  function ScanBlockComment(input: Input, s: nat): (r: Scan<TokenWithRange>)
    requires Numbered(input) && s + 1 < |input|
    ensures r.Scanned? ==> s < r.next <= |input|
  {
    ScanBlockCommentFrom(input, s, s + 2, 1, "")
  }

  // The token loop

  /** A punctuation token of `length` characters starting at `i`. */
  function Punctuation(input: Input, i: nat, token: Token, length: nat): (r: Scan<Option<TokenWithRange>>)
    requires i < |input|
  {
    Scanned(Some(TokenWithRange.FromPositionAndLength(token, Pos(input, i), length)), i + length)
  }

  function Lift(r: Scan<TokenWithRange>): (l: Scan<Option<TokenWithRange>>)
  {
    match r
    case Scanned(t, j) => Scanned(Some(t), j)
    case Failed(e) => Failed(e)
  }

  /** Whether a punctuation token (one or two characters) starts at index `i`. */
  predicate StartsPunctuation(input: Input, i: nat)
    requires i < |input|
  {
    var c := Ch(input, i);
    (c == '\r' && At(input, i + 1, '\n')) || (c == '|' && At(input, i + 1, '|'))
    || c in {'\n', ',', '!', '.', '[', ']', '(', ')', '?', '+', '*', '{', '}'}
  }

  /**
   * The punctuation token at index `i`: the two-character tokens `\r\n`,
   * `||`, `..`, `??`, `+?` and `*?` are preferred to their one-character
   * prefixes.
   */
  function ScanPunctuation(input: Input, i: nat): (r: Scan<Option<TokenWithRange>>)
    requires i < |input| && StartsPunctuation(input, i)
    ensures r.Scanned? && r.value.Some? && i < r.next <= |input|
  {
    var c := Ch(input, i);
    if c == '\r' then Punctuation(input, i, NewLine, 2)
    else if c == '\n' then Punctuation(input, i, NewLine, 1)
    else if c == ',' then Punctuation(input, i, Comma, 1)
    else if c == '|' then Punctuation(input, i, LogicOr, 2)
    else if c == '!' then Punctuation(input, i, Exclamation, 1)
    else if c == '.' then
      if At(input, i + 1, '.') then Punctuation(input, i, Interval, 2) else Punctuation(input, i, Dot, 1)
    else if c == '[' then Punctuation(input, i, LeftBracket, 1)
    else if c == ']' then Punctuation(input, i, RightBracket, 1)
    else if c == '(' then Punctuation(input, i, LeftParen, 1)
    else if c == ')' then Punctuation(input, i, RightParen, 1)
    else if c == '?' then
      if At(input, i + 1, '?') then Punctuation(input, i, QuestionLazy, 2) else Punctuation(input, i, Question, 1)
    else if c == '+' then
      if At(input, i + 1, '?') then Punctuation(input, i, PlusLazy, 2) else Punctuation(input, i, Plus, 1)
    else if c == '*' then
      if At(input, i + 1, '?') then Punctuation(input, i, AsteriskLazy, 2) else Punctuation(input, i, Asterisk, 1)
    else if c == '{' then Punctuation(input, i, LeftBrace, 1)
    else Punctuation(input, i, RightBrace, 1)
  }

  /**
   * One step of the token loop at index `i`: a blank is skipped (no token),
   * anything else starts a token or is an error located at that character.
   */
  function NextToken(input: Input, i: nat): (r: Scan<Option<TokenWithRange>>)
    requires Numbered(input) && i < |input|
    ensures r.Scanned? ==> i < r.next <= |input|
  {
    var c := Ch(input, i);
    if IsBlank(c) then Scanned(None, i + 1)
    else if StartsPunctuation(input, i) then ScanPunctuation(input, i)
    else if IsDigit(c) then Lift(ScanNumber(input, i))
    else if c == '"' then Lift(ScanString(input, i))
    else if c == '\'' then Lift(ScanChar(input, i))
    else if c == '/' && At(input, i + 1, '/') then Lift(ScanLineComment(input, i))
    else if c == '/' && At(input, i + 1, '*') then Lift(ScanBlockComment(input, i))
    else if IsIdentifierStart(c) then Lift(ScanIdentifierOrKeyword(input, i))
    else Failed(MessageWithLocation(Pos(input, i)))
  }

  /** The tokens from index `i` to the end of the input, or the first error. */
  function LexFrom(input: Input, i: nat): Result<seq<TokenWithRange>>
    requires Numbered(input) && i <= |input|
    decreases |input| - i
  {
    if i == |input| then Ok([])
    else
      match NextToken(input, i)
      case Failed(e) => Err(e)
      case Scanned(None, j) => LexFrom(input, j)
      case Scanned(Some(t), j) =>
        match LexFrom(input, j)
        case Ok(ts) => Ok([t] + ts)
        case Err(e) => Err(e)
  }

  /** `acc` followed by the outcome of `r`. */
  function Prepend(acc: seq<TokenWithRange>, r: Result<seq<TokenWithRange>>): Result<seq<TokenWithRange>>
  {
    match r
    case Ok(ts) => Ok(acc + ts)
    case Err(e) => Err(e)
  }

  /** The scan a method's result and final cursor describe. */
  function AsScan<T>(r: Result<T>, cursor: nat): Scan<T>
  {
    match r
    case Ok(v) => Scanned(v, cursor)
    case Err(e) => Failed(e)
  }

  /** The standard library's `parse::<u32>` on a string of decimal digits. */
  function ParseU32(s: string): (r: Option<u32>)
    requires forall i :: 0 <= i < |s| ==> IsDigit(s[i])
    ensures r.Some? <==> s != [] && DecimalValue(s) <= U32Max
    ensures r.Some? ==> r.value == DecimalValue(s)
  {
    if s != [] && DecimalValue(s) <= U32Max then Some(DecimalValue(s)) else None
  }

  class Lexer {
    /** The characters with their positions; the cursor indexes the next one to read. */
    const input: Input
    var cursor: nat
    var lastPosition: Location
    var savedPositions: seq<Location>

    ghost predicate Valid()
      reads this
    {
      cursor <= |input| && (cursor > 0 ==> lastPosition == Pos(input, cursor - 1))
    }

    constructor (input: Input)
      requires Numbered(input)
      ensures Valid()
      ensures this.input == input && cursor == 0 && savedPositions == []
      ensures lastPosition == NewPosition(0, 0, 0, 0)
    {
      this.input := input;
      cursor := 0;
      lastPosition := NewPosition(0, 0, 0, 0);
      savedPositions := [];
    }

    /** Consumes the next character and remembers its position. */
    method NextChar() returns (r: Option<char>)
      requires Valid() && Numbered(input)
      modifies this
      ensures Valid() && savedPositions == old(savedPositions)
      ensures old(cursor) < |input| ==> r == Some(Ch(input, old(cursor))) && cursor == old(cursor) + 1
      ensures old(cursor) == |input| ==> r == None && cursor == old(cursor) && lastPosition == old(lastPosition)
    {
      if cursor == |input| {
        return None;
      }
      lastPosition := input[cursor].position;
      r := Some(input[cursor].character);
      cursor := cursor + 1;
    }

    function PeekChar(offset: nat): (r: Option<char>)
      reads this
      ensures r.Some? <==> cursor + offset < |input|
      ensures r.Some? ==> r.value == Ch(input, cursor + offset)
    {
      if cursor + offset < |input| then Some(input[cursor + offset].character) else None
    }

    predicate PeekCharAndEquals(offset: nat, expected: char)
      reads this
    {
      cursor + offset < |input| && input[cursor + offset].character == expected
    }

    function PeekPosition(offset: nat): (r: Option<Location>)
      reads this
      ensures r.Some? <==> cursor + offset < |input|
      ensures r.Some? ==> r.value == Pos(input, cursor + offset)
    {
      if cursor + offset < |input| then Some(input[cursor + offset].position) else None
    }

    /** Saves the position of the next character; there must be one. */
    method PushPeekPosition()
      requires Valid() && Numbered(input) && cursor < |input|
      modifies this
      ensures Valid() && cursor == old(cursor) && lastPosition == old(lastPosition)
      ensures savedPositions == old(savedPositions) + [Pos(input, cursor)]
    {
      savedPositions := savedPositions + [PeekPosition(0).value];
    }

    method PopSavedPosition() returns (p: Location)
      requires Valid() && Numbered(input) && |savedPositions| > 0
      modifies this
      ensures Valid() && cursor == old(cursor) && lastPosition == old(lastPosition)
      ensures p == old(savedPositions)[|old(savedPositions)| - 1]
      ensures savedPositions == old(savedPositions)[..|old(savedPositions)| - 1]
    {
      p := savedPositions[|savedPositions| - 1];
      savedPositions := savedPositions[..|savedPositions| - 1];
    }

    /** Consumes a one-character punctuation token. */
    method LexSingle(token: Token) returns (t: TokenWithRange)
      requires Valid() && Numbered(input) && cursor < |input|
      modifies this
      ensures Valid() && cursor == old(cursor) + 1 && savedPositions == old(savedPositions)
      ensures t == TokenWithRange.FromPositionAndLength(token, Pos(input, old(cursor)), 1)
    {
      var _ := NextChar();
      t := TokenWithRange.FromPositionAndLength(token, lastPosition, 1);
    }

    /** Consumes a two-character punctuation token. */
    method LexDouble(token: Token) returns (t: TokenWithRange)
      requires Valid() && Numbered(input) && cursor + 1 < |input|
      modifies this
      ensures Valid() && cursor == old(cursor) + 2 && savedPositions == old(savedPositions)
      ensures t == TokenWithRange.FromPositionAndLength(token, Pos(input, old(cursor)), 2)
    {
      PushPeekPosition();
      var _ := NextChar();
      var _ := NextChar();
      var p := PopSavedPosition();
      t := TokenWithRange.FromPositionAndLength(token, p, 2);
    }

    /** Reads a punctuation token. */
    method LexPunctuation() returns (t: TokenWithRange)
      requires Valid() && Numbered(input) && cursor < |input| && StartsPunctuation(input, cursor)
      modifies this
      ensures Valid() && savedPositions == old(savedPositions)
      ensures Scanned(Some(t), cursor) == ScanPunctuation(input, old(cursor))
    {
      var currentChar := PeekChar(0).value;
      if currentChar == '\r' {
        t := LexDouble(NewLine);
      } else if currentChar == '\n' {
        t := LexSingle(NewLine);
      } else if currentChar == ',' {
        t := LexSingle(Comma);
      } else if currentChar == '|' {
        t := LexDouble(LogicOr);
      } else if currentChar == '!' {
        t := LexSingle(Exclamation);
      } else if currentChar == '.' {
        if PeekCharAndEquals(1, '.') {
          t := LexDouble(Interval);
        } else {
          t := LexSingle(Dot);
        }
      } else if currentChar == '[' {
        t := LexSingle(LeftBracket);
      } else if currentChar == ']' {
        t := LexSingle(RightBracket);
      } else if currentChar == '(' {
        t := LexSingle(LeftParen);
      } else if currentChar == ')' {
        t := LexSingle(RightParen);
      } else if currentChar == '?' {
        if PeekCharAndEquals(1, '?') {
          t := LexDouble(QuestionLazy);
        } else {
          t := LexSingle(Question);
        }
      } else if currentChar == '+' {
        if PeekCharAndEquals(1, '?') {
          t := LexDouble(PlusLazy);
        } else {
          t := LexSingle(Plus);
        }
      } else if currentChar == '*' {
        if PeekCharAndEquals(1, '?') {
          t := LexDouble(AsteriskLazy);
        } else {
          t := LexSingle(Asterisk);
        }
      } else if currentChar == '{' {
        t := LexSingle(LeftBrace);
      } else {
        t := LexSingle(RightBrace);
      }
    }

    /** One step of the token loop: skips a blank or reads one token. */
    method LexOne() returns (r: Result<Option<TokenWithRange>>)
      requires Valid() && Numbered(input) && cursor < |input|
      modifies this
      ensures Valid()
      ensures AsScan(r, cursor) == NextToken(input, old(cursor))
    {
      var currentChar := PeekChar(0).value;
      if currentChar == ' ' || currentChar == '\t' {
        var _ := NextChar();
        return Ok(None);
      } else if StartsPunctuation(input, cursor) {
        var t := LexPunctuation();
        return Ok(Some(t));
      }
      var sub: Result<TokenWithRange>;
      if IsDigit(currentChar) {
        sub := LexNumber();
      } else if currentChar == '"' {
        sub := LexString();
      } else if currentChar == '\'' {
        sub := LexChar();
      } else if currentChar == '/' && PeekCharAndEquals(1, '/') {
        var comment := LexLineComment();
        sub := Ok(comment);
      } else if currentChar == '/' && PeekCharAndEquals(1, '*') {
        sub := LexBlockComment();
      } else if IsIdentifierStart(currentChar) {
        sub := LexIdentifierOrKeyword();
      } else {
        return Err(MessageWithLocation(PeekPosition(0).value));
      }
      match sub
      case Err(e) => return Err(e);
      case Ok(token) => return Ok(Some(token));
    }

    /** The whole token loop: every token from the cursor to the end, or the first error. */
    method Lex() returns (r: Result<seq<TokenWithRange>>)
      requires Valid() && Numbered(input)
      modifies this
      ensures r == LexFrom(input, old(cursor))
    {
      var tokenRanges: seq<TokenWithRange> := [];
      PrependNothing(LexFrom(input, cursor));
      while PeekChar(0).Some?
        invariant Valid() && old(cursor) <= cursor
        invariant LexFrom(input, old(cursor)) == Prepend(tokenRanges, LexFrom(input, cursor))
        decreases |input| - cursor
      {
        ghost var before := cursor;
        var step := LexOne();
        match step
        case Err(e) =>
          return Err(e);
        case Ok(None) =>
        case Ok(Some(t)) =>
          assert LexFrom(input, before) == Prepend([t], LexFrom(input, cursor));
          PrependTwice(tokenRanges, [t], LexFrom(input, cursor));
          tokenRanges := tokenRanges + [t];
      }
      assert tokenRanges + [] == tokenRanges;
      return Ok(tokenRanges);
    }

    method LexIdentifierOrKeyword() returns (r: Result<TokenWithRange>)
      requires Valid() && Numbered(input) && cursor < |input| && IsIdentifierStart(Ch(input, cursor))
      modifies this
      ensures Valid()
      ensures AsScan(r, cursor) == ScanIdentifierOrKeyword(input, old(cursor))
      ensures r.Ok? ==> savedPositions == old(savedPositions)
    {
      ghost var start := cursor;
      var nameString := "";
      PushPeekPosition();
      assert nameString + [Ch(input, start)] == [Ch(input, start)];
      while PeekChar(0).Some?
        invariant Valid() && start <= cursor
        invariant savedPositions == old(savedPositions) + [Pos(input, start)]
        invariant cursor == start ==> nameString == ""
        invariant WordFrom(input, cursor, nameString) == WordFrom(input, start + 1, [Ch(input, start)])
        decreases |input| - cursor
      {
        var currentChar := PeekChar(0).value;
        if IsIdentifierChar(currentChar) {
          nameString := nameString + [currentChar];
          var _ := NextChar();
        } else if IsTerminator(currentChar) {
          break;
        } else {
          return Err(MessageWithLocation(PeekPosition(0).value));
        }
      }
      var saved := PopSavedPosition();
      var nameRange := FromPositionPairWithEndIncluded(saved, lastPosition);
      var token := if IsSymbolWord(nameString) then Symbol(nameString)
                   else if IsPresetCharSetWord(nameString) then PresetCharSet(nameString)
                   else Identifier(nameString);
      return Ok(TokenWithRange(token, nameRange));
    }

    method LexNumber() returns (r: Result<TokenWithRange>)
      requires Valid() && Numbered(input) && cursor < |input| && IsDigit(Ch(input, cursor))
      modifies this
      ensures Valid()
      ensures AsScan(r, cursor) == ScanNumber(input, old(cursor))
      ensures r.Ok? ==> savedPositions == old(savedPositions)
    {
      ghost var start := cursor;
      var numString := "";
      PushPeekPosition();
      assert numString + [Ch(input, start)] == [Ch(input, start)];
      while PeekChar(0).Some?
        invariant Valid() && start <= cursor
        invariant savedPositions == old(savedPositions) + [Pos(input, start)]
        invariant cursor == start ==> numString == ""
        invariant forall m :: 0 <= m < |numString| ==> IsDigit(numString[m])
        invariant NumberDigitsFrom(input, cursor, numString) == NumberDigitsFrom(input, start + 1, [Ch(input, start)])
        decreases |input| - cursor
      {
        var currentChar := PeekChar(0).value;
        if IsDigit(currentChar) {
          numString := numString + [currentChar];
          var _ := NextChar();
        } else if currentChar == '_' {
          var _ := NextChar();
        } else if IsTerminator(currentChar) {
          break;
        } else {
          return Err(MessageWithLocation(PeekPosition(0).value));
        }
      }
      var saved := PopSavedPosition();
      var numRange := FromPositionPairWithEndIncluded(saved, lastPosition);
      var num := ParseU32(numString);
      if num.None? {
        return Err(MessageWithLocation(numRange));
      }
      return Ok(TokenWithRange(Number(num.value), numRange));
    }

    /** Reads a Unicode escape from its `{` to its `}`. */
    method UnescapeUnicode() returns (r: Result<char>)
      requires Valid() && Numbered(input) && At(input, cursor, '{')
      modifies this
      ensures Valid()
      ensures AsScan(r, cursor) == ScanUnicodeEscape(input, old(cursor))
      ensures r.Ok? ==> savedPositions == old(savedPositions)
    {
      ghost var b := cursor;
      PushPeekPosition();
      var _ := NextChar();
      var codepointString := "";
      while true
        invariant Valid() && b < cursor
        invariant savedPositions == old(savedPositions) + [Pos(input, b)]
        invariant |codepointString| <= 6
        invariant forall m :: 0 <= m < |codepointString| ==> IsHexDigit(codepointString[m])
        invariant HexDigitsFrom(input, cursor, codepointString) == HexDigitsFrom(input, b + 1, "")
        decreases |input| - cursor
      {
        ghost var c0 := cursor;
        var next := NextChar();
        match next
        case None =>
          return Err(UnexpectedEndOfDocument);
        case Some(previousChar) =>
          if previousChar == '}' {
            break;
          } else if IsHexDigit(previousChar) {
            codepointString := codepointString + [previousChar];
          } else {
            return Err(MessageWithLocation(lastPosition));
          }
        if |codepointString| > 6 {
          break;
        }
      }
      var saved := PopSavedPosition();
      var codepointRange := FromPositionPairWithEndIncluded(saved, lastPosition);
      if |codepointString| > 6 {
        return Err(MessageWithLocation(codepointRange));
      }
      r := CodepointFromDigits(codepointString, codepointRange);
    }

    /**
     * Reads the rest of an escape sequence after its backslash.  The lexer
     * writes this sequence out twice, once for characters and once for
     * strings, with the same cases.
     */
    method LexEscape() returns (r: Result<char>)
      requires Valid() && Numbered(input)
      modifies this
      ensures Valid()
      ensures AsScan(r, cursor) == ScanEscape(input, old(cursor))
      ensures r.Ok? ==> savedPositions == old(savedPositions)
    {
      var next := NextChar();
      match next
      case None =>
        return Err(UnexpectedEndOfDocument);
      case Some(previousChar) =>
        match previousChar
        case '\\' => return Ok('\\');
        case '\'' => return Ok('\'');
        case '"' => return Ok('"');
        case 't' => return Ok('\t');
        case 'r' => return Ok('\r');
        case 'n' => return Ok('\n');
        case '0' => return Ok('\0');
        case 'u' =>
          if PeekCharAndEquals(0, '{') {
            r := UnescapeUnicode();
          } else {
            return Err(MessageWithLocation(MovePositionForward(lastPosition)));
          }
        case _ =>
          return Err(MessageWithLocation(lastPosition));
    }

    method LexChar() returns (r: Result<TokenWithRange>)
      requires Valid() && Numbered(input) && At(input, cursor, '\'')
      modifies this
      ensures Valid()
      ensures AsScan(r, cursor) == ScanChar(input, old(cursor))
      ensures r.Ok? ==> savedPositions == old(savedPositions)
    {
      PushPeekPosition();
      var _ := NextChar();
      var character: char;
      var first := NextChar();
      match first
      case None =>
        return Err(UnexpectedEndOfDocument);
      case Some(previousPreviousChar) =>
        if previousPreviousChar == '\\' {
          var escaped := LexEscape();
          if escaped.Err? {
            return Err(escaped.error);
          }
          character := escaped.value;
        } else if previousPreviousChar == '\'' {
          var saved := PopSavedPosition();
          return Err(MessageWithLocation(FromPositionPairWithEndIncluded(saved, lastPosition)));
        } else {
          character := previousPreviousChar;
        }
      var closing := NextChar();
      match closing
      case None =>
        return Err(UnexpectedEndOfDocument);
      case Some(c) =>
        if c != '\'' {
          return Err(MessageWithLocation(lastPosition));
        }
      var saved := PopSavedPosition();
      var characterRange := FromPositionPairWithEndIncluded(saved, lastPosition);
      return Ok(TokenWithRange(Token.Char(character), characterRange));
    }

    method LexString() returns (r: Result<TokenWithRange>)
      requires Valid() && Numbered(input) && At(input, cursor, '"')
      modifies this
      ensures Valid()
      ensures AsScan(r, cursor) == ScanString(input, old(cursor))
      ensures r.Ok? ==> savedPositions == old(savedPositions)
    {
      ghost var s := cursor;
      PushPeekPosition();
      var _ := NextChar();
      var finalString := "";
      while true
        invariant Valid() && s < cursor
        invariant savedPositions == old(savedPositions) + [Pos(input, s)]
        invariant ScanStringFrom(input, s, cursor, finalString) == ScanString(input, s)
        decreases |input| - cursor
      {
        ghost var c0 := cursor;
        var next := NextChar();
        match next
        case None =>
          return Err(UnexpectedEndOfDocument);
        case Some(previousPreviousChar) =>
          if previousPreviousChar == '\\' {
            var escaped := LexEscape();
            if escaped.Err? {
              return Err(escaped.error);
            }
            finalString := finalString + [escaped.value];
          } else if previousPreviousChar == '"' {
            break;
          } else {
            finalString := finalString + [previousPreviousChar];
          }
      }
      var saved := PopSavedPosition();
      var finalStringRange := FromPositionPairWithEndIncluded(saved, lastPosition);
      return Ok(TokenWithRange(Token.String(finalString), finalStringRange));
    }

    /** Reads a line comment up to, not including, the line break (`\n` or `\r\n`). */
    method LexLineComment() returns (t: TokenWithRange)
      requires Valid() && Numbered(input) && At(input, cursor, '/') && At(input, cursor + 1, '/')
      modifies this
      ensures Valid() && savedPositions == old(savedPositions)
      ensures ScanLineComment(input, old(cursor)) == Scanned(t, cursor)
    {
      ghost var s := cursor;
      PushPeekPosition();
      var _ := NextChar();
      var _ := NextChar();
      var commentString := "";
      while PeekChar(0).Some?
        invariant Valid() && s + 2 <= cursor
        invariant savedPositions == old(savedPositions) + [Pos(input, s)]
        invariant ScanLineCommentFrom(input, s, cursor, commentString) == ScanLineComment(input, s)
        decreases |input| - cursor
      {
        var currentChar := PeekChar(0).value;
        if currentChar == '\n' {
          break;
        } else if currentChar == '\r' && PeekCharAndEquals(1, '\n') {
          break;
        } else {
          commentString := commentString + [currentChar];
          var _ := NextChar();
        }
      }
      var saved := PopSavedPosition();
      var commentRange := FromPositionPairWithEndIncluded(saved, lastPosition);
      t := TokenWithRange(Token.Comment(Line(commentString)), commentRange);
    }

    method LexBlockComment() returns (r: Result<TokenWithRange>)
      requires Valid() && Numbered(input) && At(input, cursor, '/') && At(input, cursor + 1, '*')
      modifies this
      ensures Valid()
      ensures AsScan(r, cursor) == ScanBlockComment(input, old(cursor))
      ensures r.Ok? ==> savedPositions == old(savedPositions)
    {
      ghost var s := cursor;
      PushPeekPosition();
      var _ := NextChar();
      var _ := NextChar();
      var commentString := "";
      var depth: nat := 1;
      while true
        invariant Valid() && s + 2 <= cursor && depth >= 1
        invariant savedPositions == old(savedPositions) + [Pos(input, s)]
        invariant ScanBlockCommentFrom(input, s, cursor, depth, commentString) == ScanBlockComment(input, s)
        decreases |input| - cursor
      {
        ghost var c0 := cursor;
        var next := NextChar();
        match next
        case None =>
          return Err(UnexpectedEndOfDocument);
        case Some(previousChar) =>
          if previousChar == '/' && PeekCharAndEquals(0, '*') {
            commentString := commentString + "/*";
            var _ := NextChar();
            depth := depth + 1;
          } else if previousChar == '*' && PeekCharAndEquals(0, '/') {
            var _ := NextChar();
            depth := depth - 1;
            if depth == 0 {
              BlockCommentCloseAt(input, s, c0, commentString);
              break;
            } else {
              commentString := commentString + "*/";
            }
          } else {
            commentString := commentString + [previousChar];
          }
      }
      var saved := PopSavedPosition();
      var commentRange := FromPositionPairWithEndIncluded(saved, lastPosition);
      return Ok(TokenWithRange(Token.Comment(Block(commentString)), commentRange));
    }
  }

  /** A star-slash at depth one closes the comment, with the text collected so far. */
  lemma BlockCommentCloseAt(input: Input, s: nat, i: nat, acc: string)
    requires Numbered(input) && s < i && i + 1 < |input| && Ch(input, i) == '*' && Ch(input, i + 1) == '/'
    ensures ScanBlockCommentFrom(input, s, i, 1, acc)
         == Scanned(TokenWithRange(Token.Comment(Block(acc)), FromPositionPairWithEndIncluded(Pos(input, s), Pos(input, i + 1))), i + 2)
  {
  }

  lemma PrependNothing(r: Result<seq<TokenWithRange>>)
    ensures Prepend([], r) == r
  {
    if r.Ok? {
      assert [] + r.value == r.value;
    }
  }

  /** Extending a slice by one character. */
  lemma CharsSnoc(input: Input, i: nat, j: nat)
    requires i <= j < |input|
    ensures Chars(input, i, j + 1) == Chars(input, i, j) + [Ch(input, j)]
  {
  }

  lemma PrependTwice(a: seq<TokenWithRange>, b: seq<TokenWithRange>, r: Result<seq<TokenWithRange>>)
    ensures Prepend(a, Prepend(b, r)) == Prepend(a + b, r)
  {
    if r.Ok? {
      assert a + (b + r.value) == (a + b) + r.value;
    }
  }

  /** Tokenises a whole text, reading it with positions in unit 0. */
  method LexFromStr(s: string) returns (r: Result<seq<TokenWithRange>>)
    ensures forall i :: 0 <= i < |s| ==> WithPositions(0, s)[i].position.index == i
    ensures r == LexFrom(WithPositions(0, s), 0)
  {
    var chars := ReadAll(0, s);
    forall i | 0 <= i < |s|
      ensures WithPositions(0, s)[i].position.index == i
    {
      WithPositionsIndexed(0, s, i);
    }
    var lexer := new Lexer(chars);
    r := lexer.Lex();
  }
}
