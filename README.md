# ANREG front end and compiler, modelled in Dafny

ANREG is a regular-expression dialect that reads like a small programming
language. Patterns are written as literals, character sets, function calls
(`repeat('a', 3)`, `name(x, year)`) and notations (`'a'+`, `'b'{2,5}?`). A
pattern may also hold `define(name, ...)` macros. This project models how
the Rust implementation turns pattern text into a *route*:

1. **UTF-8 reading and character positions** (`utf8reader.rs`, `charposition.rs`, `location.rs`).
   Bytes are decoded to characters. Each character is tagged with its
   location: unit, index, line and column.
2. **Lexer** (`lexer.rs`).
   Characters become tokens with ranges: identifiers and keywords, numbers
   with `_` separators, chars and strings with escapes (including
   `\u{...}`), preset charsets, punctuation, new lines, line comments and
   nested block comments.
3. **Comment cleaner** (`commentcleaner.rs`).
   Drops comment tokens.
4. **Macro expander** (`macroexpander.rs`).
   Extracts `define(name, body)` statements. It then substitutes each
   definition into the definitions after it and into the program, in
   declaration order.
5. **Normalizer** (`normalizer.rs`).
   Collapses runs of new lines and removes new lines next to commas. It
   also trims leading and trailing new lines. `parse_from_str`
   (src/parser.rs:937-947) runs it twice: on the cleaned tokens before macro
   expansion, and again on the expander's output.
6. **Parser** (`parser.rs`).
   A recursive-descent parser that builds the syntax tree. Expressions are
   separated by new lines or commas. `||` is right-associative. Notations
   and rear calls (`e.repeat(3)`) become ordinary function calls.
7. **Compiler** (`compiler.rs`, `route.rs`, `transition.rs`).
   Emits the route: lines of nodes joined by transitions.
   - Most emitters add two fresh nodes (a port) and link them.
   - Groups chain their items with jumps, and alternation branches.
   - Repetition uses counters.
   - Lookahead and lookbehind get their own sub-lines.
   - The whole program is wrapped in capture group 0.
8. **Runtime stores** (`state.rs`, `image.rs`, `context.rs`).
   - `state.rs` holds state sets whose transitions hang off doubly linked lists.
   - `image.rs` holds the image store of state sets, capture groups and counters.
   - `context.rs` is the matching context's character queries and word-bound test.

One Dafny module corresponds to each source file. Each module takes the
form its source has:

- Code that mutates state in place is a class, with methods that carry
  `modifies` clauses. These are the lexer, the parser, the definition
  extractor, the compiler, `Route`, the two `StateSet`s, `Image` and the
  position iterator.
- Each such method is proved equal to a pure specification function
  (`Lexer.ScanNumber`, `Parser.Expression`, `Fragments.Emit`, ...).
- The properties the source promises are lemmas about those functions.

Pure code (locations, transitions, context queries, UTF-8 decoding, the
comment cleaner's and normalizer's token rewriting) is modelled as functions
and lemmas. Where a loop updates variables it is modelled as a method with
loop invariants.

## Model

| member | source | states |
|---|---|---|
| Locations.NewPosition | src/location.rs:17-25 | a position has length 0 and carries the given unit, index, line and column |
| Locations.NewRange | src/location.rs:27-35 | a range starts at the given coordinates and ends `length` characters later |
| Locations.FromPositionAndLength | src/location.rs:38-46 | the range starts where the position is and covers `length` characters |
| Locations.FromPositionPair | src/location.rs:49-57 | the range starts at the first position and ends just before the second |
| Locations.FromPositionPairWithEndIncluded | src/location.rs:60-71 | the range starts at the first position and ends just after the second |
| Locations.FromRangePair | src/location.rs:74-82 | the range starts where the first range starts and ends where the second ends |
| Locations.FromRangeStart | src/location.rs:85-87 | the start of a range is a position with the same unit, index, line and column |
| Locations.FromRangeEnd | src/location.rs:90-94 | the end of a range is the position just past its last character, on the same line |
| Locations.MovePositionForward | src/location.rs:96-102 | moving forward advances index and column by one and keeps unit and line |
| Locations.RangePairWithItself | src/location.rs:74-82 | joining a range with itself gives back that range |
| Locations.EndIncludedIsPairWithNextPosition | src/location.rs:49-71 | an end-included pair equals the plain pair ending at the next position |
| Locations.PositionPairOfRangeEnds | src/location.rs:38-57 | rebuilding a range from its start and its end position gives back the range (round trip) |
| Locations.RangeEndIsRepeatedMove | src/location.rs:38-46 | the end of a position-plus-length range is that position moved forward `length` times |
| Locations.RangePairAssociative | src/location.rs:74-82 | joining three ordered ranges does not depend on how the joins are grouped |
| Tokens.TokenWithRange.FromPositionAndLength | src/token.rs:134-139 | the token is kept, and its range starts at the position and has the given length |
| Transition.Validated | src/transition.rs:54-67 | a jump always passes; a char transition passes iff the current character equals its char, or differs from it when inverted |
| Transition.Forward | src/transition.rs:59-71 | a transition consumes at most one character, and consumes none iff it is a jump |
| Transition.InverseFlipsValidation | src/transition.rs:65-67 | inverting a char transition negates its verdict at every position |
| Transition.ValidatedStaysInText | src/transition.rs:54-71 | a transition that passes never moves past the end of the text |
| Context.GetChar | src/context.rs:109-111 | the character read is exactly the text's character at the given position (and so one of the text's characters) |
| Context.GetCurrentChar | src/context.rs:84-86 | the current character is exactly the text's character at the context's position |
| Context.IsFirstChar | src/context.rs:89-91 | true iff the position is 0 |
| Context.IsLastChar | src/context.rs:94-96 | true iff the position is the last index of the matched length |
| Context.GetPreviousChar | src/context.rs:114-120 | the character before the position, or the NUL character at the start of the text |
| Context.GetNextChar | src/context.rs:123-129 | the character after the position, or the NUL character at the end of the text |
| Context.IsWordBound | src/context.rs:98-106 | true iff the current character's word-ness differs from the previous or from the next character's |
| Context.WordCharAtTextEdgeIsBound | src/context.rs:98-137 | a word character at the first or the last position is always at a word bound |
| Context.NoBoundInsideRun | src/context.rs:98-137 | inside a run of three word characters, or three non-word characters, there is no bound |
| CharPosition.PositionAfterCounts | src/charposition.rs:41-61 | after reading a text, the index is its length, the line is its count of new lines, and the column counts the characters since the last new line |
| CharPosition.CarriageReturnIsOrdinary | src/charposition.rs:50-55 | a carriage return advances the column like any ordinary character; only a new line starts a line |
| CharPosition.CharsWithPositionIter.constructor | src/charposition.rs:30-35 | a fresh iterator stands at index, line and column 0 of its unit, with the whole text ahead |
| CharPosition.CharsWithPositionIter.Next | src/charposition.rs:41-61 | yields nothing iff the text is exhausted; otherwise yields the next character with the position before it, and the iterator's position stays the position after what it has consumed |
| CharPosition.WithPositions | src/charposition.rs:41-61 | tags a text: one tagged character per character of the text |
| CharPosition.WithPositionsIndexed | src/charposition.rs:41-61 | the k-th tagged character is the text's k-th character with the position reached after the first k characters; its index is k |
| CharPosition.WithPositionsSnoc | src/charposition.rs:41-61 | tagging a text plus one character tags the text, then that character at the position after the text |
| CharPosition.ReadAll | src/charposition.rs:41-61 | draining the iterator yields exactly the tagged text |
| Utf8Reader.Encode | src/utf8reader.rs:15-57 | the UTF-8 encoding of a value has 1 to 4 bytes, its lead byte announces that length and every other byte is a continuation byte |
| Utf8Reader.EncodeIsWellFormed | src/utf8reader.rs:15-57 | the encoding of a scalar value is well-formed UTF-8 |
| Utf8Reader.CodeOfEncode | src/utf8reader.rs:15-57 | decoding the encoding of a scalar value gives the value back (round trip) |
| Utf8Reader.CodeOfEncode2 | src/utf8reader.rs:32-37 | two-byte round trip: decoding the encoding of a value in 0x80..0x7FF gives it back |
| Utf8Reader.CodeOfEncode3 | src/utf8reader.rs:38-44 | three-byte round trip for values in 0x800..0xFFFF |
| Utf8Reader.CodeOfEncode4 | src/utf8reader.rs:45-52 | four-byte round trip for values in 0x10000..0x10FFFF |
| Utf8Reader.EncodeCodeOf | src/utf8reader.rs:15-57 | the value decoded from well-formed bytes is a scalar value whose encoding is those bytes (round trip) |
| Utf8Reader.EncodeCodeOf2 | src/utf8reader.rs:32-37 | the two-byte case of the reverse round trip |
| Utf8Reader.EncodeCodeOf3 | src/utf8reader.rs:38-44 | the three-byte case of the reverse round trip |
| Utf8Reader.EncodeCodeOf4 | src/utf8reader.rs:45-52 | the four-byte case of the reverse round trip |
| Utf8Reader.EncodeInjective | src/utf8reader.rs:15-57 | different scalar values never share an encoding |
| Utf8Reader.ReadChar | src/utf8reader.rs:15-57 | reports as many bytes as the lead byte announces; ASCII decodes to itself; well-formed bytes decode to the value whose encoding they are |
| Utf8Reader.ReadPreviousChar | src/utf8reader.rs:59-65 | stepping back from the end of encoded characters yields the last character, and the bytes just before the position are its encoding |
| Lexer.TextOf | src/lexer.rs:38-49 | the characters the lexer reads, one per tagged input character, in order |
| Lexer.Chars | src/lexer.rs:318-399 | the slice of the input between two indices, character by character |
| Lexer.Span | src/lexer.rs:401-452 | the range from the character at `i` through the character at `j`, both included |
| Lexer.NumberDigitsFrom | src/lexer.rs:412-435 | collecting a number's digits yields only digits and never moves backwards |
| Lexer.ScanNumber | src/lexer.rs:401-452 | a number token consumes at least its first digit; its full outcome is stated by LexerProperties.ScanNumberReadsRun |
| Lexer.WordToken | src/lexer.rs:391-396 | a word becomes a symbol iff it is an assertion keyword, a preset charset iff it is a charset keyword, and an identifier otherwise, keeping its text |
| Lexer.WordFrom | src/lexer.rs:330-384 | collecting a word never moves backwards |
| Lexer.ScanIdentifierOrKeyword | src/lexer.rs:318-399 | a word token consumes at least its first character; its full outcome is stated by LexerProperties.ScanWordReadsRun |
| Lexer.HexDigitsFrom | src/lexer.rs:584-610 | collecting the hex digits of a `\u{...}` escape yields only hex digits, at most seven |
| Lexer.ScanUnicodeEscape | src/lexer.rs:573-646 | a unicode escape consumes at least its opening brace; its full outcome is stated by LexerProperties.ScanUnicodeEscapeReadsRun |
| Lexer.CodepointFromDigits | src/lexer.rs:612-645 | the digits give a character iff they are not empty and their value is a Unicode scalar value, and then the character has that value; otherwise the error is located at the escape |
| Lexer.ScanEscape | src/lexer.rs:466-513 | an escape sequence consumes at least one character; its table is stated by LexerProperties.SimpleEscapeTable |
| Lexer.CloseCharLiteral | src/lexer.rs:546-570 | a char literal closes exactly one character after its content |
| Lexer.ScanChar | src/lexer.rs:454-571 | a char literal consumes at least its opening quote |
| Lexer.ScanStringFrom | src/lexer.rs:659-743 | a string's remainder consumes at least one character |
| Lexer.ScanString | src/lexer.rs:648-754 | a string literal consumes at least its opening quote |
| Lexer.ScanLineCommentFromAsWritten | src/lexer.rs:771-788 | the line-comment loop as written always succeeds and never moves backwards |
| Lexer.ScanLineCommentAsWritten | src/lexer.rs:756-799 | a line comment as written always succeeds and consumes at least its opening slashes |
| Lexer.ScanLineCommentFrom | src/lexer.rs:771-788 | the corrected line-comment loop always succeeds and never moves backwards |
| Lexer.ScanLineComment | src/lexer.rs:756-799 | a line comment always succeeds and consumes at least its opening slashes; it stops before CR LF as intended, not as src/lexer.rs:779 is written (see Findings) |
| Lexer.ScanBlockCommentFrom | src/lexer.rs:815-858 | the block-comment loop consumes at least one character when it succeeds |
| Lexer.ScanBlockComment | src/lexer.rs:801-869 | a block comment consumes at least its opening delimiter when it succeeds |
| Lexer.ScanPunctuation | src/lexer.rs:89-281 | a punctuation character always gives one token and consumes one or two characters |
| Lexer.NextToken | src/lexer.rs:84-311 | one step of the lexing loop consumes at least one character when it succeeds; line comments use the corrected CR LF stop |
| Lexer.ParseU32 | src/lexer.rs:442-447 | a digit string parses iff it is not empty and its value fits in 32 bits, and then gives that value |
| Lexer.Lexer.constructor | src/lexer.rs:30-36 | a new lexer stands at the start of its input with no saved positions |
| Lexer.Lexer.NextChar | src/lexer.rs:38-49 | returns the character under the cursor and advances by one, or returns nothing at the end |
| Lexer.Lexer.PeekChar | src/lexer.rs:51-56 | the character `offset` places ahead, or nothing past the end |
| Lexer.Lexer.PeekPosition | src/lexer.rs:64-69 | the position of the character `offset` places ahead, or nothing past the end |
| Lexer.Lexer.PushPeekPosition | src/lexer.rs:71-73 | saves the position of the character under the cursor on the stack and moves nothing |
| Lexer.Lexer.PopSavedPosition | src/lexer.rs:75-77 | returns and removes the most recently saved position |
| Lexer.Lexer.LexSingle | src/lexer.rs:89-281 | consumes one character and returns the token with a one-character range at it |
| Lexer.Lexer.LexDouble | src/lexer.rs:89-281 | consumes two characters and returns the token with a two-character range at them |
| Lexer.Lexer.LexPunctuation | src/lexer.rs:89-281 | produces the token and the cursor that Lexer.ScanPunctuation describes |
| Lexer.Lexer.LexOne | src/lexer.rs:84-311 | one iteration of the lexing loop: produces the outcome and the cursor that Lexer.NextToken describes, with the corrected CR LF stop for line comments |
| Lexer.Lexer.Lex | src/lexer.rs:81-316 | the token list, or the first error, is the one the specification function LexFrom gives from the cursor, with the corrected CR LF stop for line comments |
| Lexer.Lexer.LexIdentifierOrKeyword | src/lexer.rs:318-399 | produces the outcome and cursor of Lexer.ScanIdentifierOrKeyword |
| Lexer.Lexer.LexNumber | src/lexer.rs:401-452 | produces the outcome and cursor of Lexer.ScanNumber |
| Lexer.Lexer.UnescapeUnicode | src/lexer.rs:573-646 | produces the outcome and cursor of Lexer.ScanUnicodeEscape |
| Lexer.Lexer.LexEscape | src/lexer.rs:466-513 | produces the outcome and cursor of Lexer.ScanEscape |
| Lexer.Lexer.LexChar | src/lexer.rs:454-571 | produces the outcome and cursor of Lexer.ScanChar |
| Lexer.Lexer.LexString | src/lexer.rs:648-754 | produces the outcome and cursor of Lexer.ScanString |
| Lexer.Lexer.LexLineComment | src/lexer.rs:756-799 | produces the token and cursor of Lexer.ScanLineComment, whose loop peeks at offset 1 for the line feed of a CR LF where src/lexer.rs:779 peeks at offset 0 (see Findings) |
| Lexer.Lexer.LexBlockComment | src/lexer.rs:801-869 | produces the outcome and cursor of Lexer.ScanBlockComment |
| Lexer.LexFromStr | src/lexer.rs:15-21 | tags the text with positions in unit 0, with the k-th character at index k, and lexes all of it with the corrected CR LF stop for line comments |
| LexerProperties.NumberRunEnd | src/lexer.rs:412-435 | the end of the run of digits and underscores starting at `i` |
| LexerProperties.IdentifierRunEnd | src/lexer.rs:330-384 | the end of the run of identifier characters starting at `i` |
| LexerProperties.HexRunEnd | src/lexer.rs:584-610 | the end of the run of hex digits starting at `i` |
| LexerProperties.DigitsOf | src/lexer.rs:412-435 | a text with its underscores dropped holds only digits |
| LexerProperties.NumberDigitsFromRun | src/lexer.rs:412-435 | the digit loop reads exactly the run of digits and underscores, keeping the digits, and fails at a following non-terminator |
| LexerProperties.ScanNumberReadsRun | src/lexer.rs:401-452 | a number is the whole digit-and-underscore run: an error at a following non-terminator character, an overflow error over the run when the value exceeds 32 bits, else the value of its digits with the run as range |
| LexerProperties.NumberFitsAndCoversRun | src/lexer.rs:401-452 | a lexed number fits in 32 bits, ends at the run's end, is followed by a terminator or the end, and its range covers exactly what it consumed |
| LexerProperties.WordFromRun | src/lexer.rs:330-384 | the word loop reads exactly the run of identifier characters, failing at a following non-terminator |
| LexerProperties.ScanWordReadsRun | src/lexer.rs:318-399 | a word is the whole identifier run, classified by Lexer.WordToken, with the run as range; or an error at a following non-terminator |
| LexerProperties.WordClassification | src/lexer.rs:391-396 | the assertion keywords are start, end, bound and not_bound; the charset keywords are the six char_ names; every other word is an identifier |
| LexerProperties.OnlyListedEscapes | src/lexer.rs:466-511 | only the listed escape letters are accepted; any other letter is an error at it, and `\u` not followed by a brace is an error just after it |
| LexerProperties.SimpleEscapeTable | src/lexer.rs:470-493 | the escapes for backslash, quotes, tab, carriage return, new line and NUL give those characters and consume one letter |
| LexerProperties.HexDigitsFromRun | src/lexer.rs:584-610 | the hex digit loop reads the run of hex digits and stops with an error after the seventh |
| LexerProperties.ScanUnicodeEscapeReadsRun | src/lexer.rs:573-646 | the full outcome of `\u{...}`: too many digits, end of text, missing closing brace, empty or non-scalar value are errors, each at its place; otherwise the character with the digits' value |
| LexerProperties.UnicodeEscapeTooLong | src/lexer.rs:607-622 | more than six hex digits is an error over the brace and the first seven digits |
| LexerProperties.UnicodeEscapeWithinSix | src/lexer.rs:573-646 | the outcome of a unicode escape with at most six hex digits |
| LexerProperties.UnicodeEscapeAccepted | src/lexer.rs:573-646 | a unicode escape is accepted iff it has 1 to 6 hex digits and a closing brace, and its value is at most 0x10FFFF and not a surrogate; the character then has that value |
| LexerProperties.CharLiteralHoldsOneChar | src/lexer.rs:454-571 | a lexed char literal is closed by a quote, its range covers it, and it holds either the one character after the quote or the value of its escape |
| LexerProperties.EmptyCharLiteral | src/lexer.rs:522-531 | `''` is an error over both quotes |
| LexerProperties.MissingClosingQuote | src/lexer.rs:547-564 | a char literal whose character is not followed by a quote is an error at that place, or an end-of-document error at the end of text |
| LexerProperties.BlockCommentFromText | src/lexer.rs:815-858 | the block-comment loop ends right after a closing delimiter, with the text between the delimiters, or fails only with end of document |
| LexerProperties.BlockCommentNests | src/lexer.rs:819-827 | an inner opening delimiter deepens the nesting by one and is kept in the text |
| LexerProperties.BlockCommentUnnests | src/lexer.rs:828-840 | an inner closing delimiter leaves one level and is kept in the text |
| LexerProperties.BlockCommentCloses | src/lexer.rs:828-840 | a closing delimiter at depth one ends the comment with the text so far |
| LexerProperties.BlockCommentTakesChar | src/lexer.rs:841-845 | any other character is added to the comment's text |
| LexerProperties.BlockCommentText | src/lexer.rs:801-869 | a block comment's token is the text between its delimiters, with the whole comment as range; it fails only with end of document |
| LexerProperties.NoCloserIsUnterminated | src/lexer.rs:801-869 | a block comment with no closing delimiter ahead fails with end of document |
| LexerProperties.NestedBlockComment | src/lexer.rs:801-869 | `/*/**/*/` is one comment whose text is the inner comment `/**/` |
| LexerProperties.LineCommentFromText | src/lexer.rs:771-788 | the corrected line-comment loop stops at the first new line or CR LF, and its text is everything before it |
| LexerProperties.LineCommentText | src/lexer.rs:756-799 | a line comment's text is everything after `//` up to the end of text, a new line or a CR LF; its range covers the comment |
| LexerProperties.LineCommentBeforeCrLf | src/lexer.rs:779 | on `//a` CR LF the code as written keeps the CR in the comment and leaves a one-character new line; the corrected scan gives text `a` and a two-character new line |
| LexerProperties.LineCommentAsWrittenAgrees | src/lexer.rs:771-787 | on any input where no carriage return directly precedes a line feed after the `//`, the comment as written and the corrected comment are the same token and end at the same index, so the two differ only at CR LF |
| LexerProperties.TwoCharPunctuation | src/lexer.rs:89-281 | each two-character punctuation (`..`, the lazy notations, CR LF, the double bar, ...) gives its token with a two-character range |
| LexerProperties.OneCharPunctuation | src/lexer.rs:89-281 | each one-character punctuation not starting a two-character one gives its token with a one-character range |
| LexerProperties.BlanksMakeNoToken | src/lexer.rs:86-88 | a step gives no token iff the character is a blank, and then consumes just it |
| LexerProperties.UnexpectedCharIsError | src/lexer.rs:306-311 | a character that is neither blank nor the start of a token is an error located at it |
| LexerProperties.StringRange | src/lexer.rs:648-754 | a lexed string's range covers exactly the characters consumed, quotes included |
| LexerProperties.StringTextFrom | src/lexer.rs:648-754 | from any point before the closing quote with no backslash or quote in between, the string reads exactly the characters up to that quote, or is the end-of-document error when there is none |
| LexerProperties.StringText | src/lexer.rs:648-754 | a string literal with no backslash is the token holding exactly the characters between its quotes, ranging from quote to quote |
| LexerProperties.UnterminatedString | src/lexer.rs:648-754 | a string with neither a backslash nor a closing quote is the end-of-document error |
| LexerProperties.StringEscapeRefusedFrom | src/lexer.rs:648-754 | reaching a backslash before any quote, the string fails at the end of the input or at a following character that starts no escape |
| LexerProperties.StringEscapeRefused | src/lexer.rs:648-754 | an unlisted escape in a string fails the whole string, located at the character after the backslash |
| LexerProperties.NextTokenRange | src/lexer.rs:84-311 | every token's range starts where its step started and ends where it stopped |
| LexerProperties.SkipBlankTiles | src/lexer.rs:86-88 | a leading blank keeps a tiling a tiling |
| LexerProperties.LexFromTiles | src/lexer.rs:81-316 | a successful lex tiles the input: the token ranges are in order, non-empty, do not overlap, and only blanks lie between them |
| CommentCleaner.Clean | src/commentcleaner.rs:13-34 | the cleaned stream is exactly the input's non-comment tokens, in order |
| CommentCleaner.NoCommentLeft | src/commentcleaner.rs:19-31 | no comment token survives cleaning |
| CommentCleaner.CleanLength | src/commentcleaner.rs:19-31 | cleaning removes exactly as many tokens as there are comments |
| CommentCleaner.KeptIndicesLength | src/commentcleaner.rs:27-29 | one kept index per surviving token |
| CommentCleaner.KeptIndicesIncrease | src/commentcleaner.rs:27-29 | the kept indices are in the input and strictly increasing |
| CommentCleaner.KeptIndicesPick | src/commentcleaner.rs:27-29 | the k-th surviving token is the input token at the k-th kept index |
| CommentCleaner.KeptIndicesExact | src/commentcleaner.rs:20-30 | an input index is kept iff its token is not a comment |
| CommentCleaner.CleanKeepsOthersInOrder | src/commentcleaner.rs:19-31 | the cleaned stream is the input's non-comment tokens picked at strictly increasing indices, and every non-comment index is picked |
| CommentCleaner.CleanIdempotent | src/commentcleaner.rs:13-34 | cleaning twice is cleaning once |
| CommentCleaner.NoCommentsUnchanged | src/commentcleaner.rs:13-34 | a stream without comments is left unchanged |
| CommentCleaner.CleanAppend | src/commentcleaner.rs:13-34 | cleaning distributes over concatenation |
| Normalizer.RunEnd | src/normalizer.rs:42-49 | the end of the run of new lines starting at `i`: everything before it is a new line, and the token at it is not |
| Normalizer.RunInOrder | src/normalizer.rs:42-49 | within a run of new lines, the tokens' start indices never decrease |
| Normalizer.Step | src/normalizer.rs:30-98 | one step of the loop consumes at least one token and stays in the stream |
| Normalizer.CompactUnfold | src/normalizer.rs:30-101 | the compacted stream is the first step's token followed by the compaction of what is left |
| Normalizer.SkipNewLines | src/normalizer.rs:42-49 | the skip loop stops at the end of the run of new lines |
| Normalizer.CompactOne | src/normalizer.rs:30-98 | one iteration produces the token and the next index that Normalizer.Step describes |
| Normalizer.Normalize | src/normalizer.rs:13-121 | the result is the compacted stream with a leading and a trailing new line removed |
| Normalizer.RemoveEndNewLines | src/normalizer.rs:103-118 | removes one new line from the front and one from the back, when there is one there |
| Normalizer.StepShape | src/normalizer.rs:39-98 | a step emits a new line only when no new line or comma follows the run; a comma only when no new line follows it; any other token is passed through alone |
| Normalizer.CompactShape | src/normalizer.rs:30-101 | the compacted stream has no two adjacent new lines and no new line next to a comma |
| Normalizer.TrimShape | src/normalizer.rs:103-118 | trimming keeps the stream compacted, and it neither starts nor ends with a new line |
| Normalizer.NormalizedShape | src/normalizer.rs:13-121 | normalized output has no two adjacent new lines, no new line next to a comma, and no new line at either end |
| Normalizer.NormalizeKeepsOthers | src/normalizer.rs:97 | every token other than a new line or a comma passes through unchanged and in order |
| Normalizer.StepRanges | src/normalizer.rs:36-79 | a collapsed new line spans from the start of the first new line of its run to the end of the last, or, when the last starts before the first, from the start of the last to the end of the first; a comma after new lines is that comma token with its own range |
| Normalizer.RunRange | src/location.rs:74-82 | the range of a collapsed run starts at the earlier-starting of its first and last new line and ends where the other ends; when the two are in text order it is exactly `from_range_pair` of them |
| Normalizer.StepAsWritten | src/normalizer.rs:36-79 | the step as written has no result exactly when a run of new lines not followed by a comma has its last new line starting before its first, where `from_range_pair` subtracts unsigned indices; otherwise it agrees with Normalizer.Step |
| Normalizer.InOrderNeverUnderflows | src/normalizer.rs:36-79 | on a stream whose consecutive new lines are in text order, the step as written always has a result, and it is Normalizer.Step's |
| Normalizer.CompactOfCompacted | src/normalizer.rs:30-101 | compaction leaves an already compacted stream unchanged |
| Normalizer.NormalizeIdempotent | src/normalizer.rs:13-121 | normalizing twice is normalizing once, and normalized output has its consecutive new lines in text order |
| PipelineFindings.SecondNormalizeUnderflows | src/parser.rs:937-947 | on `a`, new line, `define(a, 'x'` new line `)`, the first normalising pass changes nothing, expansion yields `'x'`, the new line at index 15 and the new line at index 1, and on that stream the step as written has no result while the corrected step collapses the two new lines into the range from index 1 to 16 |
| MacroExpander.RemoveComments | src/macroexpander.rs:14-29 | no comment token is left, and exactly the comments are removed |
| MacroExpander.FirstDefineFrom | src/macroexpander.rs:35-44 | the first `define` identifier at or after the given index, or None when there is none |
| MacroExpander.DefinitionEndFrom | src/macroexpander.rs:46-74 | a found end is a right parenthesis at or after the scan position |
| MacroExpander.DefinitionEnd | src/macroexpander.rs:46-74 | a found end is a right parenthesis after the `define` |
| MacroExpander.FindDefinitionEnd | src/macroexpander.rs:46-74 | the depth-counting loop finds exactly the end that MacroExpander.DefinitionEnd describes |
| MacroExpander.DefinitionExtractor.constructor | src/macroexpander.rs:149-154 | the extractor starts at the first token with an empty last range |
| MacroExpander.DefinitionExtractor.PeekToken | src/macroexpander.rs:166-171 | the token at the cursor, or None exactly at the end |
| MacroExpander.DefinitionExtractor.NextToken | src/macroexpander.rs:156-164 | returns the peeked token, advances past it and records its range; at the end nothing changes |
| MacroExpander.DefinitionExtractor.ConsumeNewLineIfExist | src/macroexpander.rs:181-189 | consumes one token exactly when it is a new line |
| MacroExpander.DefinitionExtractor.ExpectIdentifier | src/macroexpander.rs:226-241 | the identifier's name and one step on; otherwise end of document, or an error at the start of the last range without moving |
| MacroExpander.DefinitionExtractor.ExpectNewLineOrComma | src/macroexpander.rs:210-224 | accepts exactly a new line or a comma; otherwise end of document, or an error at the offending token's start |
| MacroExpander.DefinitionExtractor.Extract | src/macroexpander.rs:243-272 | reading a statement gives the definition that MacroExpander.ExtractDefinition describes |
| MacroExpander.ExtractDefinitions | src/macroexpander.rs:31-92 | the drain loop returns the program tokens and definitions that the recursive description gives, or its error |
| MacroExpander.FindAndReplaceIdentifiers | src/macroexpander.rs:114-127 | every occurrence of the identifier is replaced by the replacement tokens, everything else kept in order |
| MacroExpander.SubstituteInto | src/macroexpander.rs:100-106 | substitution keeps the number of definitions |
| MacroExpander.Reversed | src/macroexpander.rs:98 | reversal keeps the length |
| MacroExpander.ReplaceIdentifiers | src/macroexpander.rs:94-112 | popping the reversed list applies the definitions in declaration order, each into the later ones and into the program |
| MacroExpander.Expand | src/macroexpander.rs:129-135 | expansion is comment removal, extraction and substitution in that order, and fails exactly when extraction fails |
| MacroExpander.DefinitionEndFromMatches | src/macroexpander.rs:46-74 | from any point of the scan, the search finds `e` iff `e` is the parenthesis that closes the `define` |
| MacroExpander.DefinitionEndIsMatchingClose | src/macroexpander.rs:46-74 | the end found is exactly the right parenthesis that brings the depth back to zero |
| MacroExpander.MatchingCloseUnique | src/macroexpander.rs:46-74 | a `define` has at most one matching close |
| MacroExpander.AsWrittenAgreesFrom | src/macroexpander.rs:46-74 | the unsigned depth search finds the same end as the corrected one, and when it underflows it does so at a right parenthesis |
| MacroExpander.AsWrittenAgrees | src/macroexpander.rs:46-74 | the unsigned depth search succeeds exactly when the corrected one does, with the same end |
| MacroExpander.CloseBeforeOpenUnderflows | src/macroexpander.rs:65 | for `define )` the depth counter goes below zero, while the corrected search finds no end and expansion reports end of document |
| MacroExpander.NoDefineLeft | src/macroexpander.rs:31-92 | after a successful extraction no `define` remains in the program tokens |
| MacroExpander.DefinitionsInOrder | src/macroexpander.rs:76-83 | definitions already extracted stay at the front, in declaration order |
| MacroExpander.DrainsStatement | src/macroexpander.rs:76-83 | the statement from `define` to its matching close is cut out and read; its error stops the pass, otherwise its definition is appended |
| MacroExpander.UnclosedDefineFails | src/macroexpander.rs:84-88 | a `define` with no matching close makes the pass fail with end of document |
| MacroExpander.ExtractReadsStatement | src/macroexpander.rs:243-272 | a statement assembled from `define`, `(`, an optional new line, a name, a separator, a body and a close reads back as that name and body |
| MacroExpander.ExtractRejectsMissingName | src/macroexpander.rs:226-241 | a non-identifier where the name belongs is reported at the start of the token before it |
| MacroExpander.ExtractRejectsMissingSeparator | src/macroexpander.rs:210-224 | a name not followed by a comma or new line is reported at that token |
| MacroExpander.ExtractRejectsTruncated | src/macroexpander.rs:243-272 | a statement that stops before its separator is an unexpected end of document |
| MacroExpander.ReplaceAllAppend | src/macroexpander.rs:114-127 | substitution distributes over concatenation |
| MacroExpander.ReplaceAllSingle | src/macroexpander.rs:114-127 | a single token becomes the replacement when it is the sought identifier and stays itself otherwise |
| MacroExpander.ReplaceAllKeepsAbsent | src/macroexpander.rs:114-127 | substitution introduces no identifier absent from both the input and the replacement |
| MacroExpander.ReplaceIdentifiersKeepsAbsent | src/macroexpander.rs:94-112 | expansion introduces no identifier absent from the program and every definition |
| MacroExpander.ReplaceLeavesNoDefinedName | src/macroexpander.rs:94-112 | when definitions refer only to earlier ones, no defined name survives expansion |
| MacroExpander.DeclarationOrderExample | src/macroexpander.rs:94-112 | with `a` defined as 'a' and `b` as `a+`, the program `a, b` expands to 'a', 'a'+ |
| Parser.Cursor.Peek | src/parser.rs:45-50 | a token is there exactly when the offset is inside the remaining stream |
| Parser.Cursor.Next | src/parser.rs:35-43 | steps over one token and records its range as the last range; at the end nothing changes |
| Parser.Cursor.SkipNewLine | src/parser.rs:66-75 | never moves forward by more than it may, and stays put unless a new line is next |
| Parser.Cursor.SkipSeparator | src/parser.rs:77-85 | never lengthens the remaining stream |
| Parser.AssertionNameFromStr | src/parser.rs:839-856 | an accepted name is the assertion's own spelling; anything else is an error at the given range |
| Parser.SpecialCharNameFromStr | src/parser.rs:858-872 | an accepted name is the special character's own spelling; anything else is an error at the given range |
| Parser.PresetCharSetNameFromStr | src/parser.rs:874-896 | an accepted name is the preset charset's own spelling; anything else is an error at the given range |
| Parser.FunctionNameFromStr | src/parser.rs:898-935 | an accepted name is the function's own spelling; anything else is an error at the given range |
| Parser.NotationName | src/parser.rs:282-294 | `?`, `+` and `*` map to optional, one-or-more and zero-or-more, and the lazy notations exactly to the lazy functions |
| Parser.QuantifierCall | src/parser.rs:308-346 | a braced quantifier becomes repeat, repeat_range or at_least with its numbers as arguments; it is refused exactly when lazy with an exact count or an equal range |
| Parser.ExpectedToken | src/parser.rs:87-104 | succeeds exactly when the expected token is next, stepping over it; otherwise end of document or an error at that token's start |
| Parser.ExpectedIdentifier | src/parser.rs:122-137 | succeeds exactly when an identifier is next, with its name; otherwise end of document or an error at the start of the last range |
| Parser.ExpectedNumber | src/parser.rs:139-154 | succeeds exactly when a number is next, with its value; otherwise end of document or an error at the start of the last range |
| Parser.ExpectedChar | src/parser.rs:156-171 | succeeds exactly when a character is next, with that character; otherwise end of document or an error at the start of the last range |
| Parser.ProgramItems | src/parser.rs:173-194 | on success the cursor has not moved back |
| Parser.Expression | src/parser.rs:196-211 | on success at least one token was consumed |
| Parser.LogicOrTail | src/parser.rs:213-250 | on success the cursor has not moved back |
| Parser.SimpleExpression | src/parser.rs:255-262 | on success at least one token was consumed |
| Parser.NotationTail | src/parser.rs:264-369 | on success the cursor has not moved back |
| Parser.Quantifier | src/parser.rs:371-469 | on success at least one token was consumed |
| Parser.QuantifierUpperBound | src/parser.rs:387-446 | never moves back, and an upper number is only read after a comma or new line |
| Parser.RearFunctionCall | src/parser.rs:471-532 | on success at least one token was consumed |
| Parser.CallArgs | src/parser.rs:616-669 | on success at least one token was consumed |
| Parser.ArgsLoop | src/parser.rs:616-669 | on success the cursor has not moved back |
| Parser.Arg | src/parser.rs:616-669 | on success at least one token was consumed |
| Parser.BaseExpression | src/parser.rs:534-584 | on success at least one token was consumed |
| Parser.Group | src/parser.rs:586-614 | on success at least one token was consumed |
| Parser.GroupItems | src/parser.rs:586-614 | on success the cursor has not moved back |
| Parser.FunctionCall | src/parser.rs:616-669 | on success at least one token was consumed |
| Parser.Literal | src/parser.rs:671-742 | on success at least one token was consumed |
| Parser.Charset | src/parser.rs:744-809 | on success at least one token was consumed |
| Parser.CharsetItems | src/parser.rs:744-809 | on success the cursor has not moved back |
| Parser.CharsetElement | src/parser.rs:744-809 | on success at least one token was consumed |
| Parser.CharRange | src/parser.rs:811-837 | on success at least one token was consumed |
| Parser.QuantifierFromParts | src/parser.rs:371-469 | a braced quantifier is read as an exact count, a range or a lower bound according to what follows the first number, with an optional trailing `?` |
| Parser.Parser.constructor | src/parser.rs:28-33 | the parser starts at the first token with an empty last range |
| Parser.Parser.NextToken | src/parser.rs:35-43 | returns the next token and moves the cursor as Parser.Cursor.Next does |
| Parser.Parser.ConsumeNewLineIfExist | src/parser.rs:66-75 | reports and consumes a new line exactly when one is next |
| Parser.Parser.ConsumeNewLineOrCommaIfExist | src/parser.rs:77-85 | reports and consumes a separator exactly when one is next |
| Parser.Parser.ExpectToken | src/parser.rs:87-104 | result and new position are those of Parser.ExpectedToken |
| Parser.Parser.ExpectIdentifier | src/parser.rs:122-137 | result and new position are those of Parser.ExpectedIdentifier |
| Parser.Parser.ExpectNumber | src/parser.rs:139-154 | result and new position are those of Parser.ExpectedNumber |
| Parser.Parser.ExpectChar | src/parser.rs:156-171 | result and new position are those of Parser.ExpectedChar |
| Parser.Parser.ParseProgram | src/parser.rs:173-194 | the parsed program and position are those of the grammar's program rule |
| Parser.Parser.ParseExpression | src/parser.rs:196-250 | the parsed expression and position are those of the expression rule, including right-nested `double bar` alternatives |
| Parser.Parser.ParseSimpleExpression | src/parser.rs:255-369 | the parsed expression and position are those of a base expression followed by its notations and rear calls |
| Parser.Parser.ContinueParseNotationQuantifier | src/parser.rs:371-469 | the braced quantifier and laziness read are those of Parser.Quantifier |
| Parser.Parser.ContinueParseUpperBound | src/parser.rs:387-446 | the upper-bound part reads what Parser.QuantifierUpperBound describes |
| Parser.Parser.ContinueParseRearFunctionCall | src/parser.rs:471-532 | the rear call read is that of Parser.RearFunctionCall |
| Parser.Parser.ParseCallArgs | src/parser.rs:616-669 | the argument list read is that of Parser.CallArgs |
| Parser.Parser.ParseBaseExpression | src/parser.rs:534-584 | the base expression read is that of Parser.BaseExpression |
| Parser.Parser.ParseGroup | src/parser.rs:586-614 | the group read is that of Parser.Group |
| Parser.Parser.ParseFunctionCall | src/parser.rs:616-669 | the prefix call read is that of Parser.FunctionCall |
| Parser.Parser.ParseLiteral | src/parser.rs:671-742 | the literal read is that of Parser.Literal |
| Parser.Parser.ParseCharset | src/parser.rs:744-809 | the charset read is that of Parser.Charset |
| Parser.Parser.ParseCharsetElement | src/parser.rs:744-809 | the charset element read is that of Parser.CharsetElement |
| Parser.Parser.ParseCharRange | src/parser.rs:811-837 | the character range read is that of Parser.CharRange |
| ParserProperties.AssertionNameExact | src/parser.rs:839-856 | a name is accepted as an assertion exactly when it is that assertion's spelling, and an unknown name is an error at its range |
| ParserProperties.SpecialCharNameExact | src/parser.rs:858-872 | only `char_any` is a special character name |
| ParserProperties.PresetCharSetNameExact | src/parser.rs:874-896 | a name is accepted as a preset charset exactly when it is that charset's spelling |
| ParserProperties.FunctionNameExact | src/parser.rs:898-935 | a name is accepted as a function exactly when it is that function's spelling |
| ParserProperties.LogicOrTailStopsBeforeOr | src/parser.rs:213-250 | the alternation loop stops only where no `double bar` follows |
| ParserProperties.ExpressionStopsBeforeOr | src/parser.rs:196-250 | a parsed expression is never followed by a `double bar` |
| ParserProperties.OrIsRightAssociative | src/parser.rs:213-250 | `a double-bar rest` parses as an alternation of `a` and the whole of `rest` |
| ParserProperties.OrChain | src/parser.rs:213-250 | three alternatives nest to the right |
| ParserProperties.NotationTailStops | src/parser.rs:264-369 | the postfix loop stops only where no notation, brace or rear call follows |
| ParserProperties.NotationWraps | src/parser.rs:282-304 | a notation wraps the expression before it in the matching function call |
| ParserProperties.SingleNotation | src/parser.rs:264-369 | a base expression with a single notation parses as that one call |
| ParserProperties.QuantifierExact | src/parser.rs:371-469 | `{m}` is an exact repeat count, lazy exactly when `?` follows |
| ParserProperties.QuantifierAtLeast | src/parser.rs:371-469 | `{m,}` is a lower bound, lazy exactly when `?` follows |
| ParserProperties.QuantifierRange | src/parser.rs:371-469 | `{m,n}` is a range, lazy exactly when `?` follows |
| ParserProperties.LazyExactRepeatRefused | src/parser.rs:313-317 | `{m}?` is refused at the `?` |
| ParserProperties.LazyEqualRangeRefused | src/parser.rs:322-336 | `{m,m}?` is refused at the `?`, while `{m,n}?` with different bounds becomes a lazy range |
| ParserProperties.RearCallIsPrefixCall | src/parser.rs:471-532 | `e.f(args)` parses to the same call as `f(e, args)` |
| ParserProperties.ProgramItemsStop | src/parser.rs:173-194 | the program loop keeps what it read and stops only where no separator follows |
| ParserProperties.ProgramStopsAtMissingSeparator | src/parser.rs:173-194 | a parsed program is never followed by a separator |
| ParserProperties.GroupItemsStop | src/parser.rs:586-614 | the group loop stops only where no separator follows |
| ParserProperties.TrailingSeparatorInGroup | src/parser.rs:586-614 | a separator just before the closing parenthesis of a group is accepted |
| ParserProperties.CharsetItemsStop | src/parser.rs:744-809 | the charset loop stops only where no separator follows |
| ParserProperties.TrailingSeparatorInCharset | src/parser.rs:744-809 | a separator just before the closing bracket of a charset is accepted |
| ParserProperties.ArgReads | src/parser.rs:636-652 | a number or an identifier is an argument by itself, consuming one token; any other token starts an expression argument, which succeeds or fails as that expression does |
| ParserProperties.EmptyGroup | src/parser.rs:586-614 | `(` `)`, with or without one new line between them, is the empty group and consumes exactly those tokens |
| ParserProperties.GroupNeedsParentheses | src/parser.rs:586-614 | a group fails at the end of the tokens or at a first token that is not `(`, with the error `expect_token` reports |
| ParserProperties.GroupOfTwo | src/parser.rs:586-614 | `(`, a char, a comma, a string and `)`, as in `('a', "bc")`, are the group of that char and that string, consuming every token |
| ParserProperties.LiteralAlone | src/parser.rs:671-742 | a char or string token followed by `,` or `)` is a whole expression, that literal |
| ParserProperties.LiteralToken | src/parser.rs:671-742 | a char or string token is that literal; a preset or special token is the literal its name spells, or an error at the last range when the name is unknown; any other token is refused at the last range |
| ParserProperties.LiteralCharset | src/parser.rs:684-700 | `[` starts a charset literal and `!` before `[` a negative one, each holding the elements the charset routine reads and failing when it fails |
| ParserProperties.CharRangeReads | src/parser.rs:811-837 | `a` [new line] `..` [new line] `b` is the range from `a` to `b` and consumes up to `b`; it fails exactly when no char stands where `b` should |
| ParserProperties.CharsetElementReads | src/parser.rs:759-795 | a char with `..` next (or after one new line) is a range element, a lone char a char element, a preset the set its name spells, `[` a nested positive charset, and anything else an error at the last range |
| ParserProperties.CharsetOfRangeAndPreset | src/parser.rs:744-837 | `[`, a char, `..`, a char, a comma, a preset and `]`, as in `['a'..'z', char_digit]`, are the positive charset of that range and that preset, consuming every token |
| Route.Line.NewNode | src/route.rs:157-165 | the new node is empty, its index is the old node count, and nothing else in the line changes |
| Route.Line.AppendTransition | src/route.rs:167-185 | the transition is added at the end of the source node's list, its index is that list's old length, and every other node is unchanged |
| Route.RouteValue.WithNewLine | src/route.rs:67-79 | an empty line is added at the end and its index returned |
| Route.RouteValue.WithCaptureGroup | src/route.rs:87-91 | a capture group with the given name is added at the end and its index returned |
| Route.RouteValue.WithCounter | src/route.rs:81-85 | a counter is allocated, its index being the old counter count |
| Route.IndexByName | src/route.rs:93-98 | the index of the first capture group with that name, or None exactly when no group has it |
| Route.Names | src/route.rs:100-111 | the names of the capture groups, one per group and in order |
| Route.Route.constructor | src/route.rs:59-65 | a new route has no lines, no capture groups and no counters |
| Route.Route.NewLine | src/route.rs:67-79 | appends an empty line and returns its index; capture groups and counters are unchanged |
| Route.Route.NewCaptureGroup | src/route.rs:87-91 | appends a capture group with the given name and returns its index; lines and counters are unchanged |
| Route.Route.NewCounter | src/route.rs:81-85 | allocates the next counter index; lines and capture groups are unchanged |
| Route.Route.CaptureGroupIndexByName | src/route.rs:93-98 | the lookup of Route.IndexByName on the route's groups |
| Route.Route.CaptureGroupNames | src/route.rs:100-111 | one name per capture group, in order |
| Route.Route.NumberOfCaptureGroups | src/route.rs:113-115 | the number of capture groups equals the number of names |
| Fragments.Building.NewNode | src/route.rs:157-165 | the current line gains one empty node, whose index is the old node count; nothing is lost |
| Fragments.Building.Append | src/route.rs:167-185 | the current line gains the transition at its source node; the node count is unchanged |
| Fragments.Building.WithLineEnds | src/compiler.rs:154-158 | the current line's start, end and fixed flags are set; its nodes are unchanged |
| Fragments.Building.NewCaptureGroup | src/route.rs:87-91 | one capture group is appended and its index returned; the current line is unchanged |
| Fragments.Building.NewCounter | src/route.rs:81-85 | the next counter index is returned; the current line is unchanged |
| Fragments.Single | src/compiler.rs:446-454 | two new nodes joined by the given transition form a valid fragment |
| Fragments.Wrap | src/compiler.rs:557-589 | two new nodes around an existing fragment form a valid fragment |
| Fragments.EmitProgram | src/compiler.rs:67-161 | on success the route stays well formed, nothing is lost, and emission stays on the same line |
| Fragments.CloseProgram | src/compiler.rs:108-158 | joining the program's fragments and wrapping them in capture group 0 keeps the route well formed and loses nothing |
| Fragments.ProgramItems | src/compiler.rs:80-106 | on success one fragment per program expression, each in its own range of new nodes, in order |
| Fragments.Sequence | src/compiler.rs:108-128 | the joined fragment's entry and exit are nodes emitted for the sequence |
| Fragments.Link | src/compiler.rs:117-122 | linking consecutive fragments with jumps adds no node |
| Fragments.Emit | src/compiler.rs:163-174 | on success the fragment's two nodes are new, the route stays well formed and nothing is lost |
| Fragments.EmitAll | src/compiler.rs:195-198 | on success one fragment per expression, each in its own range of new nodes, in order |
| Fragments.EmitGroup | src/compiler.rs:176-225 | on success the group's fragment has new entry and exit nodes and nothing is lost |
| Fragments.EmitEmpty | src/compiler.rs:421-432 | an empty expression is a valid fragment of two new nodes |
| Fragments.EmitLogicOr | src/compiler.rs:227-271 | on success the alternation's fragment has new entry and exit nodes and nothing is lost |
| Fragments.Branch | src/compiler.rs:227-271 | joining two fragments in parallel gives a valid fragment with new entry and exit |
| Fragments.EmitLiteral | src/compiler.rs:434-506 | on success a literal is a valid fragment of two new nodes |
| Fragments.PresetCharSetTransition | src/compiler.rs:476-493 | a preset charset is one charset item, negative exactly for the `char_not_*` presets |
| Fragments.AppendPresetCharSetPositiveOnly | src/compiler.rs:932-955 | fails exactly for a negative preset; otherwise appends one item and keeps the earlier ones |
| Fragments.AppendElements | src/compiler.rs:957-976 | on success the earlier items are kept at the front |
| Fragments.AppendElement | src/compiler.rs:957-976 | on success the earlier items are kept at the front |
| Fragments.EmitBackreference | src/compiler.rs:518-537 | on success a back reference is a valid fragment of two new nodes |
| Fragments.ArgNumber | src/compiler.rs:300-305 | succeeds exactly when the argument is present and a number, with its value; otherwise an error |
| Fragments.ArgNumberAsWritten | src/compiler.rs:300-305 | the unchecked access yields a value exactly when the checked one succeeds, and the same value |
| Fragments.EmitFunctionCall | src/compiler.rs:273-419 | on success every function call is a valid fragment with new entry and exit nodes |
| Fragments.EmitRepeat | src/compiler.rs:300-319 | on success `repeat` is a valid fragment with new entry and exit nodes |
| Fragments.EmitRepeatRangeCall | src/compiler.rs:320-366 | on success `repeat_range` is a valid fragment with new entry and exit nodes |
| Fragments.EmitAtLeast | src/compiler.rs:367-384 | on success `at_least` is a valid fragment with new entry and exit nodes |
| Fragments.EmitOptionalRepeatRange | src/compiler.rs:349-354 | on success `repeat_range(0, n)` is a valid fragment with new entry and exit nodes |
| Fragments.EmitOptional | src/compiler.rs:591-613 | on success an optional is a valid fragment with new entry and exit nodes |
| Fragments.ContinueOptional | src/compiler.rs:615-649 | the optional's bypass gives a valid fragment with new nodes relative to the state before its body |
| Fragments.EmitRepeatSpecified | src/compiler.rs:651-658 | on success an exact repetition is a valid fragment with new entry and exit nodes |
| Fragments.EmitRepeatRange | src/compiler.rs:660-669 | on success a range repetition is a valid fragment with new entry and exit nodes |
| Fragments.ContinueRepetition | src/compiler.rs:671-790 | on success a counted loop is a valid fragment with new entry and exit nodes |
| Fragments.Loop | src/compiler.rs:671-790 | the counter loop is a valid fragment that allocates exactly one counter |
| Fragments.EmitCaptureGroup | src/compiler.rs:557-589 | on success a capture group is a valid fragment with new entry and exit nodes |
| Fragments.SubLine | src/compiler.rs:808-814 | a new, empty line becomes the current one and nothing is lost |
| Fragments.EmitLookahead | src/compiler.rs:792-850 | on success a look-ahead is a valid fragment on the current line, with its pattern on a line of its own |
| Fragments.EmitLookbehind | src/compiler.rs:852-915 | on success a look-behind is a valid fragment on the current line, with its pattern on a line of its own |
| Compiler.AppendCharset | src/compiler.rs:957-976 | the items appended for a charset are those of Fragments.AppendElements, including its refusal of negative nested sets |
| Compiler.Compile | src/compiler.rs:30-36 | compiles exactly when the value-level compilation succeeds, producing the same route, and otherwise fails with the same error |
| Compiler.Compiler.constructor | src/compiler.rs:50-57 | a new line is added to the route and becomes the current line |
| Compiler.Compiler.NewNode | src/route.rs:157-165 | the compiler's state after adding a node is that of Fragments.Building.NewNode |
| Compiler.Compiler.AppendTransition | src/route.rs:167-185 | the compiler's state after appending a transition is that of Fragments.Building.Append |
| Compiler.Compiler.SetLineEnds | src/compiler.rs:154-158 | the compiler's state after setting the line's ends is that of Fragments.Building.WithLineEnds |
| Compiler.Compiler.EmitSingle | src/compiler.rs:446-454 | the port and state are those of Fragments.Single |
| Compiler.Compiler.Wrap | src/compiler.rs:557-589 | the port and state are those of Fragments.Wrap |
| Compiler.Compiler.EmitEmpty | src/compiler.rs:421-432 | the port and state are those of Fragments.EmitEmpty |
| Compiler.Compiler.Join | src/compiler.rs:208-222 | the joined port and state are those of Fragments.Sequence |
| Compiler.Compiler.EmitProgram | src/compiler.rs:67-161 | succeeds exactly when Fragments.EmitProgram does, with its state, and otherwise with its error |
| Compiler.Compiler.EmitProgramItem | src/compiler.rs:80-106 | one pass of the program loop: on success the ports gathered so far are those of Fragments.ProgramItems one item further and the expression was not a misplaced start or end; on failure the whole loop fails with that error |
| Compiler.Compiler.CloseProgram | src/compiler.rs:108-158 | the state after closing the program is that of Fragments.CloseProgram |
| Compiler.Compiler.EmitExpression | src/compiler.rs:163-174 | the port and state are those of Fragments.Emit, or its error |
| Compiler.Compiler.EmitGroup | src/compiler.rs:176-225 | the port and state are those of Fragments.EmitGroup, or its error |
| Compiler.Compiler.EmitLogicOr | src/compiler.rs:227-271 | the port and state are those of Fragments.EmitLogicOr, or its error |
| Compiler.Compiler.ContinueEmitLogicOr | src/compiler.rs:227-271 | after the left branch, the port and state are those of Fragments.EmitLogicOr from the state before it |
| Compiler.Compiler.Branch | src/compiler.rs:227-271 | the port and state are those of Fragments.Branch |
| Compiler.Compiler.EmitLiteral | src/compiler.rs:434-506 | the port and state are those of Fragments.EmitLiteral, or its error |
| Compiler.Compiler.EmitBackreference | src/compiler.rs:518-537 | the port and state are those of Fragments.EmitBackreference, or its error |
| Compiler.Compiler.EmitFunctionCall | src/compiler.rs:273-419 | the port and state are those of Fragments.EmitFunctionCall, or its error |
| Compiler.Compiler.EmitAssertionCall | src/compiler.rs:387-413 | for the four look-around functions, the port and state are those of Fragments.EmitFunctionCall, or its error |
| Compiler.Compiler.EmitRepeat | src/compiler.rs:300-319 | the port and state are those of Fragments.EmitFunctionCall on a `repeat` call, or its error |
| Compiler.Compiler.EmitRepeatRangeCall | src/compiler.rs:321-366 | the port and state are those of Fragments.EmitRepeatRangeCall, or its error |
| Compiler.Compiler.EmitAtLeast | src/compiler.rs:367-384 | the port and state are those of Fragments.EmitAtLeast, or its error |
| Compiler.Compiler.EmitOptionalRepeatRange | src/compiler.rs:349-354 | the port and state are those of Fragments.EmitOptionalRepeatRange, or its error |
| Compiler.Compiler.EmitOptional | src/compiler.rs:591-613 | the port and state are those of Fragments.EmitOptional, or its error |
| Compiler.Compiler.ContinueEmitOptional | src/compiler.rs:615-649 | the port and state are those of Fragments.ContinueOptional |
| Compiler.Compiler.EmitRepeatSpecified | src/compiler.rs:651-658 | the port and state are those of Fragments.EmitRepeatSpecified, or its error |
| Compiler.Compiler.EmitRepeatRange | src/compiler.rs:660-669 | the port and state are those of Fragments.EmitRepeatRange, or its error |
| Compiler.Compiler.ContinueEmitRepetition | src/compiler.rs:671-790 | the port and state are those of Fragments.ContinueRepetition, or its error |
| Compiler.Compiler.Loop | src/compiler.rs:671-790 | the port and state are those of Fragments.Loop |
| Compiler.Compiler.ContinueEmitCaptureGroup | src/compiler.rs:557-589 | the port and state are those of Fragments.EmitCaptureGroup, or its error |
| Compiler.Compiler.OpenSubLine | src/compiler.rs:808-814 | a new line is added, its index returned, and it becomes the current line |
| Compiler.Compiler.CloseSubLine | src/compiler.rs:818-828 | the sub-line's ends are set with a fixed start, and the saved line becomes current again |
| Compiler.Compiler.EmitLookaheadAssertion | src/compiler.rs:792-850 | the port and state are those of Fragments.EmitLookahead, or its error |
| Compiler.Compiler.EmitLookbehindAssertion | src/compiler.rs:852-915 | the port and state are those of Fragments.EmitLookbehind, or its error |
| CompilerProperties.SingleShape | src/compiler.rs:446-454 | a single-transition fragment is two new nodes, the first holding exactly the transition to the second; older nodes are untouched |
| CompilerProperties.WrapShape | src/compiler.rs:557-589 | a wrapped fragment enters its body from a new node and leaves it to another new node, adding exactly one transition at the body's exit |
| CompilerProperties.BranchShape | src/compiler.rs:227-271 | an alternation's entry jumps to the left branch and then the right one, and each branch's exit jumps to the new exit |
| CompilerProperties.OptionalShape | src/compiler.rs:615-649 | an optional's entry jumps into the body and past it, body first when greedy and bypass first when lazy |
| CompilerProperties.LoopHeadShape | src/compiler.rs:671-790 | a counted loop starts by resetting its own counter, enters the body, and increments the counter at the body's exit |
| CompilerProperties.LazyLoopShape | src/compiler.rs:671-790 | after the increment, a lazy loop first tries to leave through the counter check and only then repeats |
| CompilerProperties.GreedyLoopShape | src/compiler.rs:671-790 | after the increment, a greedy loop first repeats and only then leaves through the counter check, with a backtrack transition on the exit path |
| CompilerProperties.ReversedRangeRefused | src/compiler.rs:334-338 | `repeat_range(e, m, n)` with `m` greater than `n` is refused |
| CompilerProperties.RepeatZeroIsEmpty | src/compiler.rs:300-319 | repeating zero times, or a range from 0 to 0, emits the empty fragment |
| CompilerProperties.RepeatOneIsExpression | src/compiler.rs:300-319 | repeating once, or a range from 1 to 1, emits the expression itself |
| CompilerProperties.RepeatRangeSameIsRepeat | src/compiler.rs:359-362 | a range with equal bounds emits the same as the exact repetition |
| CompilerProperties.RepeatRangeZeroOneIsOptional | src/compiler.rs:345-348 | a range from 0 to 1 emits the same as the optional of the same laziness |
| CompilerProperties.AtLeastZeroIsZeroOrMore | src/compiler.rs:367-384 | at least zero emits the same as zero or more |
| CompilerProperties.AtLeastOneIsOneOrMore | src/compiler.rs:367-384 | at least one emits the same as one or more |
| CompilerProperties.GroupUnfolds | src/compiler.rs:168 | a group expression is emitted by the group emitter |
| CompilerProperties.EmptyGroupIsEmpty | src/compiler.rs:200-202 | an empty group emits the empty fragment |
| CompilerProperties.SingletonGroupIsExpression | src/compiler.rs:203-207 | a one-element group emits the same as its element, with no extra nodes |
| CompilerProperties.LinkJumps | src/compiler.rs:208-216 | each fragment's exit gains exactly one jump to the next fragment's entry, and no other node changes |
| CompilerProperties.GroupChains | src/compiler.rs:176-225 | a group of two or more expressions runs from the first fragment's entry to the last one's exit, with a jump between consecutive fragments |
| CompilerProperties.AppendElementsFlattens | src/compiler.rs:957-976 | flattening a charset fails exactly when a negative preset or a negative nested set occurs, and otherwise appends the flattened items in order |
| CompilerProperties.AppendElementFlattens | src/compiler.rs:957-976 | flattening one element fails exactly when it is refused, and otherwise appends its items |
| CompilerProperties.CharSetLiteral | src/compiler.rs:495-506 | a charset literal is one charset transition holding the flattened items with the set's own negation, or the refusal |
| CompilerProperties.BackreferenceResolves | src/compiler.rs:518-537 | a back reference fails exactly when no capture group has that name, and otherwise refers to the first group with it |
| CompilerProperties.MisplacedAssertionRefused | src/compiler.rs:80-103 | a `start` anywhere but first, or an `end` anywhere but last, makes compilation fail |
| CompilerProperties.CloseProgramShape | src/compiler.rs:108-158 | the program is wrapped in capture start and end transitions on two new nodes, which become the line's start and end with the given fixed flags |
| CompilerProperties.ProgramShape | src/compiler.rs:67-161 | a compiled program opens a new unnamed capture group at its start node, its end node has no transitions, and the line is fixed at the start or end exactly when the program begins with `start` or ends with `end` |
| CompilerProperties.CompiledRoute | src/compiler.rs:30-161 | a compiled route has a main line and capture group 0 unnamed, fixed at either end exactly as the program's leading and trailing assertions say |
| CompilerProperties.CaptureGroupShape | src/compiler.rs:557-589 | the capture group is allocated before its body is emitted, and the body is wrapped in its capture start and end transitions |
| CompilerProperties.NameCall | src/compiler.rs:416 | `name(e, x)` emits a capture group named `x`; without an identifier argument it is an error |
| CompilerProperties.IndexCall | src/compiler.rs:417 | `index(e)` emits an unnamed capture group |
| CompilerProperties.NestedGroupsNumberedOutsideIn | src/compiler.rs:557-589 | an outer capture group receives its number before the groups inside it |
| CompilerProperties.WrapKeepsOtherLines | src/compiler.rs:557-589 | emitting into the current line leaves every other line unchanged |
| CompilerProperties.LookaheadShape | src/compiler.rs:792-850 | a look-ahead emits the current expression, puts the next one on a new line fixed at its start, and leaves the current expression through a look-ahead transition naming that line |
| CompilerProperties.LookbehindShape | src/compiler.rs:852-915 | a look-behind puts the previous expression on a new line and enters the current expression through a look-behind transition naming that line, with pattern length 0 |
| CompilerFindings.RepeatWithoutCountPanics | src/compiler.rs:300-305 | `repeat('a')` parses, and the compiler's unchecked access to its first argument finds none |
| CompilerFindings.MissingCountRefused | src/compiler.rs:300-384 | with argument checking, every counted repetition without arguments is an error instead of a panic |
| State.StateSet.WalkFollowsChain | src/state.rs:9-42 | following next links from any position of a state's chain visits the rest of that chain |
| State.StateSet.WalkIsChain | src/state.rs:9-42 | walking from a state's head link visits exactly its chain, and the transitions met along it are the state's contents |
| State.StateSet.LinksAreMutual | src/state.rs:27-37 | along every chain the next and previous links point at each other, a link has no previous exactly when it is the state's head, and no next exactly when it is the tail |
| State.StateSet.EmptyIffNoTransitions | src/state.rs:270-272 | a state has no head link exactly when it has no tail link and exactly when it holds no transitions |
| State.StateSet.constructor | src/state.rs:45-53 | a new state set is empty, with start and end nodes at 0 |
| State.StateSet.IsEmpty | src/state.rs:55-57 | true exactly when there are no states |
| State.StateSet.NewState | src/state.rs:60-68 | appends a state with no transitions and returns its index; every other state keeps its transitions |
| State.StateSet.AddTransitionNode | src/state.rs:71-75 | appends a transition node and returns its index; nothing else changes |
| State.StateSet.AddLinkNode | src/state.rs:78-82 | appends a link node and returns its index; nothing else changes |
| State.StateSet.AppendTransition | src/state.rs:84-127 | the source state's transitions gain the new one at the end; every other state and its transitions are unchanged, and the linked lists stay well formed |
| State.StateSet.InsertTransition | src/state.rs:129-172 | the source state's transitions gain the new one at the front; every other state and its transitions are unchanged, and the linked lists stay well formed |
| Image.StateSet.constructor | src/image.rs:95-109 | a new state set has no states, start and end at 0 and neither end fixed |
| Image.StateSet.NewState | src/image.rs:209-220 | appends a state with no transitions and returns its index |
| Image.StateSet.AppendTransition | src/image.rs:236-249 | the source state's list gains the transition at the end; every other state is unchanged |
| Image.Image.constructor | src/image.rs:87-92 | a new image has no state sets, no captures and no counters |
| Image.Image.NewStateset | src/image.rs:95-109 | appends a new, empty state set and returns its index; earlier state sets, captures and counters are kept |
| Image.Image.NewCounter | src/image.rs:111-115 | returns the next counter index and counts it |
| Image.Image.NewMatch | src/image.rs:121-125 | appends a capture with the given name and returns its index |
| Image.Image.GetCaptureIndexByName | src/image.rs:127-132 | the index of the first capture with that name, or None exactly when no capture has it |
| Image.Image.GetCaptureNames | src/image.rs:134-145 | one name per capture, in order |
| Image.Image.GetNumberOfCaptures | src/image.rs:147-149 | the number of captures equals the number of names |

## Left out

- The matcher side of the repository (`process.rs`, `matcher.rs`, `processor.rs`) is not part of this model. Neither is turning a route into an image: `image.rs` is modelled only as the store it is.
- The repository's design also describes a conventional-syntax parser and a printer. The code has neither, so nothing models them.
- `parse_from_str` (src/parser.rs:937-947) and `compile_from_str` (src/compiler.rs:25-28) only chain the stages. They have no members; each stage is modelled on its own.
- The look-ahead buffer that feeds the lexer and parser (`PeekableIter`) is not part of this model. The lexer reads the text as a sequence and the parser reads the token list directly.
- The debug and text renderers (`get_debug_text`, `get_image_text`, `Display` implementations) and all printing are left out: they only format.
- Error message text is left out. Errors keep their kind (Message, MessageWithLocation, UnexpectedEndOfDocument) and their location.
- The state after a failed operation is left unspecified. The original abandons the compiler, parser or lexer on the first error.
- The charset item helpers (`add_char`, `add_range`, `add_preset_*`) live outside the core. Each call is modelled as recording one item of that kind.
- `transition.rs` models the two transitions that file defines. The compiler's richer transition set is a datatype in `route.dfy`, read from its uses in `compiler.rs`.
- `route.rs` has `new_counter` commented out, yet the compiler allocates counters. The model gives the route a counter allocator that returns the next index.
- Route lines are values held in the route's list, not separate objects: the original owns each line inside its vector, so nothing aliases a line.
- The image's state sets are separate objects held in its list; only their creation and updates are modelled.
- In `state.rs` each state's linked list is described by a ghost chain of link indices. The list walk used by the renderer is modelled as `State.StateSet.Walk` with fuel of at least the number of links, which is enough to visit any chain.
- Normalizer.Step, Normalizer.CompactOne and Normalizer.Normalize follow the corrected collapsed range (Normalizer.RunRange) on every token stream. Where a run's last new line starts before its first, which the second pass after macro expansion can meet, the original's `from_range_pair` underflows (src/location.rs:80); the as-written step is Normalizer.StepAsWritten, and Findings has the input.
- Lexer.ScanNumber: number literals are `u32` in the original. A literal that does not fit is modelled as the same error the original reports. `usize` values elsewhere are unbounded naturals, except Fragments.UsizeMax (fragments.dfy:16), the 64-bit `usize::MAX` the compiler stores as the upper bound of an unbounded repetition.
- Utf8Reader.ReadChar requires a valid lead byte and enough following bytes. The original demands valid UTF-8 of its callers and reaches `unreachable!` otherwise.
- Utf8Reader.ReadPreviousChar requires the bytes before the position to be the encoding of some characters, for the same reason.
- Context.IsLastChar requires a non-empty text, because the original subtracts 1 from the unsigned length.
- Context.IsWordChar and Image.Image.GetNumberOfCounters have no contract of their own. The first is used by the word-bound lemmas; the second only reads a field.
- Lexer.Chars: this and the lexer's other specification functions (Span, WordFrom, ScanChar, ScanString, ScanStringFrom and the rest) state only bounds in their own contracts, and the Lexer class methods are proved to agree with them. What they read is stated by LexerProperties lemmas for numbers, words, escapes, char literals, comments, punctuation and token ranges, and for string text only where it holds no escape (LexerProperties.StringText, UnterminatedString, StringEscapeRefused); the text of a string with accepted escapes is stated by no lemma.
- Parser.Expression: this and the parser's other specification functions (ProgramItems, LogicOrTail, SimpleExpression, NotationTail, Quantifier, RearFunctionCall, CallArgs, ArgsLoop, Arg, BaseExpression, Group, GroupItems, FunctionCall, Literal, Charset, CharsetItems, CharsetElement, CharRange) state only progress in their own contracts. The Parser class methods are proved to agree with them. What they parse is stated by ParserProperties lemmas for names, alternation, notations, quantifiers, rear calls, the program, group and charset loops, arguments (ArgReads), groups (EmptyGroup, GroupNeedsParentheses, GroupOfTwo), literals (LiteralToken, LiteralCharset), charset elements and ranges (CharsetElementReads, CharRangeReads, CharsetOfRangeAndPreset); a function call with arguments is stated only through RearCallIsPrefixCall and the notation lemmas.
- Parser.Parser.ParseCallArgs is the argument loop that `parse_function_call` and `continue_parse_rear_function_call` each write out inline. The loop is the same in both places.
- Compiler.Compiler.EmitProgramItem, Compiler.Compiler.Join, Compiler.Compiler.CloseProgram, Compiler.Compiler.OpenSubLine and Compiler.Compiler.CloseSubLine factor out code that the original writes inline. Each keeps the original's order of updates.
- Compiler.AppendCharset: a nested negative charset is an `assert!` failure in the original (src/compiler.rs:969). Here it is an error result.
- CompilerProperties.NameCall: a `name` call whose first argument is missing or not an identifier is `unreachable!` in the original (src/compiler.rs:544-548). Here it is an error result.
- Lexer.Lexer.LexLineComment, Lexer.ScanLineComment, Lexer.NextToken, Lexer.Lexer.LexOne, Lexer.Lexer.Lex and Lexer.LexFromStr follow the corrected CR LF stop, peeking at offset 1, rather than src/lexer.rs:779 as written, which peeks at offset 0. On `//a` followed by CR LF the original gives the comment `a` plus CR and a one-character new line, where this lexer gives the comment `a` and a two-character new line. The as-written scan is Lexer.ScanLineCommentAsWritten, and LexerProperties.LineCommentAsWrittenAgrees proves the two agree on every input without CR LF after the `//`.
- Fragments.EmitFunctionCall returns an error result where the original panics: when `repeat`, `repeat_range`, `at_least`, `is_before`, `is_not_before`, `is_after` or `is_not_after` lacks an argument it indexes (`args[0]`, `args[1]`, src/compiler.rs:300-332 and 387-405), and when the argument has the wrong kind it reaches `unreachable!()`. Only the missing count is listed as a finding, because the parser lets it through; a wrong-kind argument is a panic the original marks as unreachable.
- MacroExpander.FindDefinitionEnd and MacroExpander.DefinitionEnd implement the corrected depth search: a `)` met at depth 0 is not a match, where the original decrements its unsigned depth counter and underflows (src/macroexpander.rs:65). The as-written search is MacroExpander.DefinitionEndAsWritten, and MacroExpander.AsWrittenAgrees proves the two agree whenever the original does not underflow.
- Locations.FromPositionPair, Locations.FromPositionPairWithEndIncluded and Locations.FromRangePair require the second location's index to be at least the first's. The original computes `end.index - start.index` first, in `usize`, and would underflow otherwise (src/location.rs:55, 68, 80); the model does not represent the wrap-around.
- Fragments.EmitRepeatSpecified and Fragments.EmitRepeatRange take the original's `assert!` preconditions as requires.
- CompilerProperties.LookbehindShape does not state that the look-behind's sub-line is fixed at both ends. It does state the pattern length, which is always 0 because the original computes no length (src/compiler.rs:874-876).
- Fragments.EmitProgram follows the code, which emits `start` and `end` as ordinary assertion transitions besides setting the fixed flags. A comment in the original says they are skipped.
- The parser stops at the first expression not followed by a separator and returns the program read so far. Later tokens are ignored, as in the original (src/parser.rs:182-185).

## Findings

| source | as written | input that shows it | evidently intended | confidence | as-written member | corrected member |
|---|---|---|---|---|---|---|
| src/lexer.rs:779 | the line-comment loop stops at a carriage return only when the character at peek offset 0 is a line feed; but offset 0 is the carriage return itself, so a CR LF never ends the comment | `//a` followed by CR LF: the comment text is `a` plus CR, and the new line token after it is one character long | the comment stops before CR LF (offset 1), giving comment text `a` and a two-character new line token, as at every other CR LF | not executed | LexerProperties.LineCommentBeforeCrLf | LexerProperties.LineCommentText |
| src/macroexpander.rs:65 | the depth counter is an unsigned integer and is decremented at every right parenthesis, including one that comes before any left parenthesis | `define )`: the depth goes below zero, which panics in a debug build and wraps in a release build | a `)` before the definition's `(` is not a match, and a `define` without a matching close is reported as an unexpected end of document | not executed | MacroExpander.CloseBeforeOpenUnderflows | MacroExpander.DefinitionEndIsMatchingClose |
| src/location.rs:80 | `from_range_pair` computes the collapsed run's length as `end.index - start.index + end.length` in `usize`; the second normalising pass in `parse_from_str` (src/parser.rs:941) runs on the expander's output, where a definition body's trailing new line is followed by the program's new line that came after the replaced name, so the run's last new line starts before its first | `a`, new line, `define(a, 'x'`, new line, `)`: after expansion the run is the new line at index 15 then the one at index 1, and `1 - 15` underflows, a panic in a debug build and a huge length in a release build | the collapsed new line covers both, from index 1 to the end of the new line at 15 | not executed | PipelineFindings.SecondNormalizeUnderflows | Normalizer.StepRanges |
| src/compiler.rs:300-305 | `repeat`, `repeat_range` and `at_least` read `args[0]` (and `args[1]`) without checking that the call has them; the parser accepts a call with any number of arguments | `repeat('a')` parses to a call with no arguments, and compiling it indexes past the end of the argument list and panics | a call without its count is refused with an error | not executed | CompilerFindings.RepeatWithoutCountPanics | CompilerFindings.MissingCountRefused |
