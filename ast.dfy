/**
 * The syntax tree shared by the parser and the compiler.  The variants are
 * exactly those the parser builds and the compiler consumes.  Numbers are
 * `usize` in the original, but the only numbers ever stored are those the
 * lexer reads, which fit in 32 bits.
 */
module Ast {
  import Tokens

  datatype AssertionName = Start | End | IsBound | IsNotBound

  datatype SpecialCharName = CharAny

  datatype PresetCharSetName =
    | CharWord
    | CharNotWord
    | CharSpace
    | CharNotSpace
    | CharDigit
    | CharNotDigit

  datatype FunctionName =
    // greedy quantifiers
    | Optional
    | OneOrMore
    | ZeroOrMore
    | Repeat
    | RepeatRange
    | AtLeast
    // lazy quantifiers
    | OptionalLazy
    | OneOrMoreLazy
    | ZeroOrMoreLazy
    | RepeatRangeLazy
    | AtLeastLazy
    // look-around assertions
    | IsBefore
    | IsAfter
    | IsNotBefore
    | IsNotAfter
    // captures
    | Name
    | Index

  datatype CharRange = CharRange(start: char, endIncluded: char)

  datatype CharSet = CharSet(negative: bool, elements: seq<CharSetElement>)

  datatype CharSetElement =
    | Char(character: char)
    | CharRange(range: CharRange)
    | PresetCharSet(preset: PresetCharSetName)
    | CharSet(charset: CharSet)

  datatype Literal =
    | Char(character: char)
    | String(text: string)
    | CharSet(charset: CharSet)
    | PresetCharSet(preset: PresetCharSetName)
    | Special(special: SpecialCharName)

  datatype Expression =
    | Literal(literal: Literal)
    | Identifier(identifier: string)
    | Assertion(assertion: AssertionName)
    | Group(expressions: seq<Expression>)
    | FunctionCall(call: FunctionCall)
    | Or(left: Expression, right: Expression)

  datatype FunctionCall = FunctionCall(name: FunctionName, expression: Expression, args: seq<FunctionCallArg>)

  datatype FunctionCallArg =
    | Number(number: Tokens.u32)
    | Identifier(identifier: string)
    | Expression(expression: Expression)

  datatype Program = Program(expressions: seq<Expression>)
}
