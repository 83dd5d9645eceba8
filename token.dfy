/**
 * The tokens shared by the lexer, the token-stream passes and the parser.
 * Besides the variants of the token enumeration, the lexer produces
 * `Symbol` for the assertion words and the parser consumes `Assertion`;
 * both are included so that each stage can be modelled as written.
 */
module Tokens {
  import opened Locations

  type u32 = x: nat | x <= 0xFFFF_FFFF

  const U32Max: nat := 0xFFFF_FFFF

  datatype Comment = Line(text: string) | Block(text: string)

  datatype Token =
    | NewLine
    | Comma
    | Exclamation
    | Interval
    | Dot
    | LogicOr
    | LeftBracket
    | RightBracket
    | LeftParen
    | RightParen
    | Identifier(name: string)
    | PresetCharSet(name: string)
    | Special(name: string)
    | Status(name: string)
    | Symbol(name: string)
    | Assertion(name: string)
    | Number(value: u32)
    | Char(character: char)
    | String(text: string)
    | Comment(comment: Comment)
    | Question
    | QuestionLazy
    | Plus
    | PlusLazy
    | Asterisk
    | AsteriskLazy
    | LeftBrace
    | RightBrace

  datatype TokenWithRange = TokenWithRange(token: Token, range: Location)
  {
    static function FromPositionAndLength(token: Token, position: Location, length: nat): (r: TokenWithRange)
      ensures r.token == token
      ensures FromRangeStart(r.range) == FromRangeStart(position) && r.range.length == length
    {
      TokenWithRange(token, Locations.FromPositionAndLength(position, length))
    }
  }
}
