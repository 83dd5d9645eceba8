/**
 * What the tokeniser promises, stated about the scanning functions of
 * module `Lexer` (which the `Lexer` class is proved to compute).
 *
 * The scanning functions follow the lexer's loops one character at a
 * time.  This module gives independent reference descriptions in terms of
 * runs (the longest stretch of digits, identifier characters or
 * hexadecimal digits from an index) and proves the two agree; the
 * properties of numbers, words, escapes and comments follow from those.
 */
module LexerProperties {
  import opened Locations
  import opened Errors
  import opened Tokens
  import opened Lexer
  import Utf8Reader

  // Runs

  /** The first index at or after `i` that holds neither a digit nor an underscore. */
  function NumberRunEnd(input: Input, i: nat): (r: nat)
    requires i <= |input|
    ensures i <= r <= |input|
    ensures forall m :: i <= m < r ==> IsDigit(Ch(input, m)) || Ch(input, m) == '_'
    ensures r < |input| ==> !IsDigit(Ch(input, r)) && Ch(input, r) != '_'
    decreases |input| - i
  {
    if i < |input| && (IsDigit(Ch(input, i)) || Ch(input, i) == '_') then NumberRunEnd(input, i + 1) else i
  }

  /** The first index at or after `i` that does not hold an identifier character. */
  function IdentifierRunEnd(input: Input, i: nat): (r: nat)
    requires i <= |input|
    ensures i <= r <= |input|
    ensures forall m :: i <= m < r ==> IsIdentifierChar(Ch(input, m))
    ensures r < |input| ==> !IsIdentifierChar(Ch(input, r))
    decreases |input| - i
  {
    if i < |input| && IsIdentifierChar(Ch(input, i)) then IdentifierRunEnd(input, i + 1) else i
  }

  /** The first index at or after `i` that does not hold a hexadecimal digit. */
  function HexRunEnd(input: Input, i: nat): (r: nat)
    requires i <= |input|
    ensures i <= r <= |input|
    ensures forall m :: i <= m < r ==> IsHexDigit(Ch(input, m))
    ensures r < |input| ==> !IsHexDigit(Ch(input, r))
    decreases |input| - i
  {
    if i < |input| && IsHexDigit(Ch(input, i)) then HexRunEnd(input, i + 1) else i
  }

  /** The digits of `s`, in order, without anything else. */
  function DigitsOf(s: seq<char>): (r: seq<char>)
    ensures forall m :: 0 <= m < |r| ==> IsDigit(r[m])
    ensures |r| <= |s|
  {
    if s == [] then []
    else (if IsDigit(s[0]) then [s[0]] else []) + DigitsOf(s[1..])
  }

  /** A slice that is not empty is its first character followed by the rest. */
  lemma CharsCons(input: Input, i: nat, j: nat)
    requires i < j <= |input|
    ensures Chars(input, i, j) == [Ch(input, i)] + Chars(input, i + 1, j)
  {
    assert Chars(input, i, j) == [Ch(input, i)] + Chars(input, i + 1, j);
  }

  lemma DigitsOfCons(c: char, s: seq<char>)
    ensures DigitsOf([c] + s) == (if IsDigit(c) then [c] else []) + DigitsOf(s)
  {
    assert ([c] + s)[1..] == s;
  }

  // Numbers

  /** The loop of the number scanner reads exactly the number run. */
  lemma {:induction false} NumberDigitsFromRun(input: Input, k: nat, digits: string)
    requires k <= |input|
    requires forall m :: 0 <= m < |digits| ==> IsDigit(digits[m])
    ensures NumberDigitsFrom(input, k, digits) == NumberRunOutcome(input, k, digits)
    decreases |input| - k
  {
    var j := NumberRunEnd(input, k);
    if k == |input| {
      assert digits + DigitsOf(Chars(input, k, j)) == digits;
    } else if IsDigit(Ch(input, k)) || Ch(input, k) == '_' {
      var c := Ch(input, k);
      var next := if IsDigit(c) then digits + [c] else digits;
      assert NumberDigitsFrom(input, k, digits) == NumberDigitsFrom(input, k + 1, next);
      NumberDigitsFromRun(input, k + 1, next);
      NumberRunStep(input, k, digits);
    } else {
      assert Chars(input, k, j) == [];
      assert digits + DigitsOf(Chars(input, k, j)) == digits;
    }
  }

  /** What the number loop from `k`, with `digits` read so far, comes to: the run's end decides. */
  function NumberRunOutcome(input: Input, k: nat, digits: string): Scan<string>
    requires k <= |input|
  {
    var j := NumberRunEnd(input, k);
    if j < |input| && !IsTerminator(Ch(input, j)) then Failed(MessageWithLocation(Pos(input, j)))
    else Scanned(digits + DigitsOf(Chars(input, k, j)), j)
  }

  /** A digit or `_` at `k` moves into the digits read so far without changing the outcome. */
  lemma NumberRunStep(input: Input, k: nat, digits: string)
    requires k < |input| && (IsDigit(Ch(input, k)) || Ch(input, k) == '_')
    ensures NumberRunOutcome(input, k, digits)
         == NumberRunOutcome(input, k + 1, if IsDigit(Ch(input, k)) then digits + [Ch(input, k)] else digits)
  {
    var c := Ch(input, k);
    var j := NumberRunEnd(input, k);
    assert j == NumberRunEnd(input, k + 1);
    CharsCons(input, k, j);
    DigitsOfCons(c, Chars(input, k + 1, j));
    assert (if IsDigit(c) then digits + [c] else digits) + DigitsOf(Chars(input, k + 1, j))
        == digits + DigitsOf(Chars(input, k, j));
  }

  /**
   * A number is the run of digits and underscores from its first digit.
   * If a character other than a terminator ends the run, that character is
   * an error; otherwise the value of the digits, underscores ignored, is the
   * token's value when it fits in 32 unsigned bits and an error over the
   * number's range when it does not.
   */
  lemma ScanNumberReadsRun(input: Input, i: nat)
    requires Numbered(input) && i < |input| && IsDigit(Ch(input, i))
    ensures var j := NumberRunEnd(input, i);
      var value := DecimalValue(DigitsOf(Chars(input, i, j)));
      ScanNumber(input, i)
      == if j < |input| && !IsTerminator(Ch(input, j)) then Failed(MessageWithLocation(Pos(input, j)))
         else if value > U32Max then Failed(MessageWithLocation(Span(input, i, j - 1)))
         else Scanned(TokenWithRange(Number(value), Span(input, i, j - 1)), j)
  {
    NumberLoopFromStart(input, i);
    NumberOutcomeFromStart(input, i);
    ScanNumberOf(input, i, NumberRunOutcome(input, i, []));
  }

  /** The number loop, started after the first digit, reads the whole run. */
  lemma NumberLoopFromStart(input: Input, i: nat)
    requires i < |input| && IsDigit(Ch(input, i))
    ensures NumberDigitsFrom(input, i + 1, [Ch(input, i)]) == NumberRunOutcome(input, i, [])
  {
    NumberDigitsFromRun(input, i + 1, [Ch(input, i)]);
    NumberRunStep(input, i, []);
    assert [] + [Ch(input, i)] == [Ch(input, i)];
  }

  /** From a digit, the run's digits are not empty. */
  lemma NumberOutcomeFromStart(input: Input, i: nat)
    requires i < |input| && IsDigit(Ch(input, i))
    ensures var j := NumberRunEnd(input, i);
            var ds := DigitsOf(Chars(input, i, j));
            && ds != []
            && NumberRunOutcome(input, i, [])
               == if j < |input| && !IsTerminator(Ch(input, j)) then Failed(MessageWithLocation(Pos(input, j)))
                  else Scanned(ds, j)
  {
    var j := NumberRunEnd(input, i);
    var ds := DigitsOf(Chars(input, i, j));
    EmptyPrefix(ds);
    CharsCons(input, i, j);
    DigitsOfCons(Ch(input, i), Chars(input, i + 1, j));
  }

  lemma EmptyPrefix(s: string)
    ensures [] + s == s
  {
  }

  /** What a number scans to, given what its digit loop comes to. */
  lemma ScanNumberOf(input: Input, i: nat, r: Scan<string>)
    requires Numbered(input) && i < |input| && IsDigit(Ch(input, i))
    requires NumberDigitsFrom(input, i + 1, [Ch(input, i)]) == r
    ensures r.Failed? ==> ScanNumber(input, i) == Failed(r.error)
    ensures r.Scanned? && ParseU32(r.value).None? ==>
              ScanNumber(input, i) == Failed(MessageWithLocation(Span(input, i, r.next - 1)))
    ensures r.Scanned? && ParseU32(r.value).Some? ==>
              ScanNumber(input, i) == Scanned(TokenWithRange(Number(ParseU32(r.value).value), Span(input, i, r.next - 1)), r.next)
  {
  }

  /** An accepted number's value is at most the 32-bit maximum and its token covers the run. */
  lemma NumberFitsAndCoversRun(input: Input, i: nat)
    requires Numbered(input) && i < |input| && IsDigit(Ch(input, i))
    requires ScanNumber(input, i).Scanned?
    ensures var r := ScanNumber(input, i);
      r.value.token.Number? && r.value.token.value <= U32Max
      && r.next == NumberRunEnd(input, i)
      && (r.next == |input| || IsTerminator(Ch(input, r.next)))
      && r.value.range.index == i && r.value.range.EndIndex() == r.next
  {
    ScanNumberReadsRun(input, i);
  }

  // Words

  /** The loop of the word scanner reads exactly the identifier run. */
  lemma {:induction false} WordFromRun(input: Input, k: nat, name: string)
    requires k <= |input|
    ensures var j := IdentifierRunEnd(input, k);
      WordFrom(input, k, name)
      == if j < |input| && !IsTerminator(Ch(input, j)) then Failed(MessageWithLocation(Pos(input, j)))
         else Scanned(name + Chars(input, k, j), j)
    decreases |input| - k
  {
    var j := IdentifierRunEnd(input, k);
    if k == |input| {
      assert name + Chars(input, k, j) == name;
    } else if IsIdentifierChar(Ch(input, k)) {
      WordFromRun(input, k + 1, name + [Ch(input, k)]);
      CharsCons(input, k, j);
      assert (name + [Ch(input, k)]) + Chars(input, k + 1, j) == name + Chars(input, k, j);
    } else {
      assert name + Chars(input, k, j) == name;
    }
  }

  /**
   * A word is the run of identifier characters from its first character;
   * a character other than a terminator after it is an error.  The token
   * is a `Symbol` for start, end, bound and not_bound, a `PresetCharSet`
   * for the six `char_*` names and an `Identifier` otherwise.
   */
  lemma ScanWordReadsRun(input: Input, i: nat)
    requires Numbered(input) && i < |input| && IsIdentifierStart(Ch(input, i))
    ensures var j := IdentifierRunEnd(input, i);
      ScanIdentifierOrKeyword(input, i)
      == if j < |input| && !IsTerminator(Ch(input, j)) then Failed(MessageWithLocation(Pos(input, j)))
         else Scanned(TokenWithRange(WordToken(Chars(input, i, j)), Span(input, i, j - 1)), j)
  {
    var j := IdentifierRunEnd(input, i);
    WordFromRun(input, i + 1, [Ch(input, i)]);
    assert IdentifierRunEnd(input, i) == IdentifierRunEnd(input, i + 1);
    CharsCons(input, i, j);
  }

  /** The classification of words, both ways. */
  lemma WordClassification(name: string)
    ensures WordToken(name) == Symbol(name) <==> name in {"start", "end", "bound", "not_bound"}
    ensures WordToken(name) == PresetCharSet(name)
        <==> name in {"char_space", "char_not_space", "char_word", "char_not_word", "char_digit", "char_not_digit"}
    ensures WordToken(name) == Identifier(name) <==> !IsSymbolWord(name) && !IsPresetCharSetWord(name)
  {
  }

  // Escapes

  /** The characters that may follow a backslash. */
  predicate IsEscapeLetter(c: char)
  {
    c in {'\\', '\'', '"', 't', 'r', 'n', '0', 'u'}
  }

  /**
   * Only the listed escapes are accepted; any other character after the
   * backslash is an error located at it, and `\u` without `{` is an error
   * located just after the `u`.
   */
  lemma OnlyListedEscapes(input: Input, i: nat)
    requires Numbered(input) && i < |input|
    ensures ScanEscape(input, i).Scanned? ==> IsEscapeLetter(Ch(input, i))
    ensures !IsEscapeLetter(Ch(input, i)) ==> ScanEscape(input, i) == Failed(MessageWithLocation(Pos(input, i)))
    ensures Ch(input, i) == 'u' && !At(input, i + 1, '{')
        ==> ScanEscape(input, i) == Failed(MessageWithLocation(MovePositionForward(Pos(input, i))))
  {
  }

  /** The one-letter escapes and the characters they stand for. */
  lemma SimpleEscapeTable(input: Input, i: nat)
    requires Numbered(input) && i < |input|
    ensures Ch(input, i) == '\\' ==> ScanEscape(input, i) == Scanned('\\', i + 1)
    ensures Ch(input, i) == '\'' ==> ScanEscape(input, i) == Scanned('\'', i + 1)
    ensures Ch(input, i) == '"' ==> ScanEscape(input, i) == Scanned('"', i + 1)
    ensures Ch(input, i) == 't' ==> ScanEscape(input, i) == Scanned('\t', i + 1)
    ensures Ch(input, i) == 'r' ==> ScanEscape(input, i) == Scanned('\r', i + 1)
    ensures Ch(input, i) == 'n' ==> ScanEscape(input, i) == Scanned('\n', i + 1)
    ensures Ch(input, i) == '0' ==> ScanEscape(input, i) == Scanned('\0', i + 1)
  {
  }

  /**
   * The digits of a Unicode escape described by the hexadecimal run from
   * `k`, with `digits` already read: at most seven digits in all are read,
   * and fewer than seven must be closed by `}`.
   */
  function HexDigitsByRun(input: Input, k: nat, digits: string): Scan<string>
    requires k <= |input| && |digits| <= 6
  {
    var j := HexRunEnd(input, k);
    if |digits| + (j - k) > 6 then Scanned(digits + Chars(input, k, k + 7 - |digits|), k + 7 - |digits|)
    else if j == |input| then Failed(UnexpectedEndOfDocument)
    else if Ch(input, j) != '}' then Failed(MessageWithLocation(Pos(input, j)))
    else Scanned(digits + Chars(input, k, j), j + 1)
  }

  /** The loop of the Unicode escape reads the hexadecimal run, up to seven digits. */
  lemma {:induction false} HexDigitsFromRun(input: Input, k: nat, digits: string)
    requires k <= |input| && |digits| <= 6
    requires forall m :: 0 <= m < |digits| ==> IsHexDigit(digits[m])
    ensures HexDigitsFrom(input, k, digits) == HexDigitsByRun(input, k, digits)
    decreases |input| - k
  {
    if k == |input| {
    } else if Ch(input, k) == '}' {
      assert digits + Chars(input, k, k) == digits;
    } else if IsHexDigit(Ch(input, k)) {
      if |digits| + 1 > 6 {
        assert Chars(input, k, k + 1) == [Ch(input, k)];
      } else {
        HexDigitsFromRun(input, k + 1, digits + [Ch(input, k)]);
        HexDigitsByRunStep(input, k, digits);
      }
    }
  }

  lemma HexDigitsByRunStep(input: Input, k: nat, digits: string)
    requires k < |input| && |digits| < 6 && IsHexDigit(Ch(input, k))
    ensures HexDigitsByRun(input, k, digits) == HexDigitsByRun(input, k + 1, digits + [Ch(input, k)])
  {
    var c := Ch(input, k);
    var j := HexRunEnd(input, k);
    assert j == HexRunEnd(input, k + 1);
    if |digits| + (j - k) > 6 {
      CharsCons(input, k, k + 7 - |digits|);
      assert (digits + [c]) + Chars(input, k + 1, k + 7 - |digits|) == digits + Chars(input, k, k + 7 - |digits|);
    } else if j < |input| {
      CharsCons(input, k, j);
      assert (digits + [c]) + Chars(input, k + 1, j) == digits + Chars(input, k, j);
    }
  }

  /**
   * The Unicode escape whose `{` is at `b`, described by the hexadecimal
   * run after the brace: more than six digits is an error over the brace
   * and seven digits; then the run must be closed by `}`, hold at least one
   * digit and denote a Unicode scalar value, and the escape stands for the
   * character with that code point.
   */
  lemma ScanUnicodeEscapeReadsRun(input: Input, b: nat)
    requires Numbered(input) && b < |input| && Ch(input, b) == '{'
    ensures var k := HexRunEnd(input, b + 1);
      var n := k - (b + 1);
      ScanUnicodeEscape(input, b)
      == if n > 6 then Failed(MessageWithLocation(Span(input, b, b + 7)))
         else if k == |input| then Failed(UnexpectedEndOfDocument)
         else if Ch(input, k) != '}' then Failed(MessageWithLocation(Pos(input, k)))
         else if n == 0 || !Utf8Reader.IsScalar(HexValue(Chars(input, b + 1, k))) then
           Failed(MessageWithLocation(Span(input, b, k)))
         else Scanned(HexValue(Chars(input, b + 1, k)) as char, k + 1)
  {
    var k := HexRunEnd(input, b + 1);
    if k - (b + 1) > 6 {
      UnicodeEscapeTooLong(input, b);
    } else {
      UnicodeEscapeWithinSix(input, b);
    }
  }

  /** More than six digits: the escape fails over the brace and seven digits. */
  lemma UnicodeEscapeTooLong(input: Input, b: nat)
    requires Numbered(input) && b < |input| && Ch(input, b) == '{'
    requires HexRunEnd(input, b + 1) - (b + 1) > 6
    ensures ScanUnicodeEscape(input, b) == Failed(MessageWithLocation(Span(input, b, b + 7)))
  {
    HexDigitsFromRun(input, b + 1, "");
    assert "" + Chars(input, b + 1, b + 8) == Chars(input, b + 1, b + 8);
    assert HexDigitsFrom(input, b + 1, "") == Scanned(Chars(input, b + 1, b + 8), b + 8);
  }

  /** At most six digits: the run must be closed, and then its value decides. */
  lemma UnicodeEscapeWithinSix(input: Input, b: nat)
    requires Numbered(input) && b < |input| && Ch(input, b) == '{'
    requires HexRunEnd(input, b + 1) - (b + 1) <= 6
    ensures var k := HexRunEnd(input, b + 1);
      ScanUnicodeEscape(input, b)
      == if k == |input| then Failed(UnexpectedEndOfDocument)
         else if Ch(input, k) != '}' then Failed(MessageWithLocation(Pos(input, k)))
         else if k == b + 1 || !Utf8Reader.IsScalar(HexValue(Chars(input, b + 1, k))) then
           Failed(MessageWithLocation(Span(input, b, k)))
         else Scanned(HexValue(Chars(input, b + 1, k)) as char, k + 1)
  {
    HexDigitsFromRun(input, b + 1, "");
    var k := HexRunEnd(input, b + 1);
    if k == |input| {
      assert HexDigitsFrom(input, b + 1, "") == Failed(UnexpectedEndOfDocument);
    } else if Ch(input, k) != '}' {
      assert HexDigitsFrom(input, b + 1, "") == Failed(MessageWithLocation(Pos(input, k)));
    } else {
      assert "" + Chars(input, b + 1, k) == Chars(input, b + 1, k);
      assert HexDigitsFrom(input, b + 1, "") == Scanned(Chars(input, b + 1, k), k + 1);
    }
  }

  /**
   * A Unicode escape is accepted exactly when one to six hexadecimal digits
   * are closed by `}` and denote a Unicode scalar value (at most 0x10FFFF and
   * not a surrogate), and it then stands for that code point.
   */
  lemma UnicodeEscapeAccepted(input: Input, b: nat)
    requires Numbered(input) && b < |input| && Ch(input, b) == '{'
    ensures var k := HexRunEnd(input, b + 1);
      var r := ScanUnicodeEscape(input, b);
      (r.Scanned? <==> 1 <= k - (b + 1) <= 6 && k < |input| && Ch(input, k) == '}'
                       && HexValue(Chars(input, b + 1, k)) <= 0x10FFFF
                       && !(0xD800 <= HexValue(Chars(input, b + 1, k)) <= 0xDFFF))
      && (r.Scanned? ==> r.value as int == HexValue(Chars(input, b + 1, k)) && r.next == k + 1)
  {
    ScanUnicodeEscapeReadsRun(input, b);
  }

  // Character literals

  /**
   * A character literal holds exactly one character: either a plain
   * character right after the opening quote, or an escape; then the
   * closing quote.
   */
  lemma CharLiteralHoldsOneChar(input: Input, s: nat)
    requires Numbered(input) && s < |input| && Ch(input, s) == '\''
    requires ScanChar(input, s).Scanned?
    ensures var r := ScanChar(input, s);
      r.value.token.Char? && Ch(input, r.next - 1) == '\'' && r.value.range == Span(input, s, r.next - 1)
      && (Ch(input, s + 1) != '\\' ==> r.next == s + 3 && r.value.token.character == Ch(input, s + 1))
      && (Ch(input, s + 1) == '\\' ==> ScanEscape(input, s + 2) == Scanned(r.value.token.character, r.next - 1))
  {
  }

  /** `''` is an error over the two quotes. */
  lemma EmptyCharLiteral(input: Input, s: nat)
    requires Numbered(input) && s + 1 < |input| && Ch(input, s) == '\'' && Ch(input, s + 1) == '\''
    ensures ScanChar(input, s) == Failed(MessageWithLocation(Span(input, s, s + 1)))
  {
  }

  /**
   * A plain character not followed by a quote is an error located where the
   * quote should be, or the end of the document when there is nothing more.
   */
  lemma MissingClosingQuote(input: Input, s: nat)
    requires Numbered(input) && s + 1 < |input| && Ch(input, s) == '\''
    requires Ch(input, s + 1) != '\\' && Ch(input, s + 1) != '\''
    ensures s + 2 == |input| ==> ScanChar(input, s) == Failed(UnexpectedEndOfDocument)
    ensures s + 2 < |input| && Ch(input, s + 2) != '\''
        ==> ScanChar(input, s) == Failed(MessageWithLocation(Pos(input, s + 2)))
  {
  }

  // Block comments

  /**
   * What a block comment opened at `s` scans to: the text between its
   * outermost delimiters, nested pairs included, and a range from the
   * opening to the closing delimiter; or, if it is never closed, the end of
   * the document and no other error.
   */
  predicate IsBlockCommentOutcome(input: Input, s: nat, r: Scan<TokenWithRange>)
    requires Numbered(input) && s < |input|
  {
    (r.Failed? ==> r.error == UnexpectedEndOfDocument)
    && (r.Scanned? ==> s + 4 <= r.next <= |input| && Ch(input, r.next - 2) == '*' && Ch(input, r.next - 1) == '/'
                       && r.value == BlockCommentToken(input, s, r.next))
  }

  /** The token of a block comment from `s` up to, not including, `next`: its inner text and its range. */
  function BlockCommentToken(input: Input, s: nat, next: nat): TokenWithRange
    requires Numbered(input) && s + 4 <= next <= |input|
  {
    TokenWithRange(Token.Comment(Block(Chars(input, s + 2, next - 2))), Span(input, s, next - 1))
  }

  /** Scanning the rest of a block comment, with the text so far collected in `acc`. */
  lemma {:induction false} BlockCommentFromText(input: Input, s: nat, i: nat, depth: nat, acc: string)
    requires Numbered(input) && s + 2 <= i <= |input| && depth >= 1
    requires acc == Chars(input, s + 2, i)
    ensures IsBlockCommentOutcome(input, s, ScanBlockCommentFrom(input, s, i, depth, acc))
    decreases |input| - i
  {
    if i == |input| {
      assert ScanBlockCommentFrom(input, s, i, depth, acc) == Failed(UnexpectedEndOfDocument);
    } else if Ch(input, i) == '/' && At(input, i + 1, '*') {
      BlockCommentFromText(input, s, i + 2, depth + 1, Chars(input, s + 2, i + 2));
      NestsOutcome(input, s, i, depth, acc);
    } else if Ch(input, i) == '*' && At(input, i + 1, '/') && depth > 1 {
      BlockCommentFromText(input, s, i + 2, depth - 1, Chars(input, s + 2, i + 2));
      UnnestsOutcome(input, s, i, depth, acc);
    } else if Ch(input, i) == '*' && At(input, i + 1, '/') {
      BlockCommentCloses(input, s, i, acc);
    } else {
      BlockCommentFromText(input, s, i + 1, depth, Chars(input, s + 2, i + 1));
      TakesCharOutcome(input, s, i, depth, acc);
    }
  }

  // The outcome of the rest of the scan is the outcome of the whole, one case each.

  lemma NestsOutcome(input: Input, s: nat, i: nat, depth: nat, acc: string)
    requires Numbered(input) && s + 2 <= i < |input| && depth >= 1 && acc == Chars(input, s + 2, i)
    requires Ch(input, i) == '/' && At(input, i + 1, '*')
    requires IsBlockCommentOutcome(input, s, ScanBlockCommentFrom(input, s, i + 2, depth + 1, Chars(input, s + 2, i + 2)))
    ensures IsBlockCommentOutcome(input, s, ScanBlockCommentFrom(input, s, i, depth, acc))
  {
    BlockCommentNests(input, s, i, depth, acc);
  }

  lemma UnnestsOutcome(input: Input, s: nat, i: nat, depth: nat, acc: string)
    requires Numbered(input) && s + 2 <= i < |input| && depth > 1 && acc == Chars(input, s + 2, i)
    requires Ch(input, i) == '*' && At(input, i + 1, '/')
    requires IsBlockCommentOutcome(input, s, ScanBlockCommentFrom(input, s, i + 2, depth - 1, Chars(input, s + 2, i + 2)))
    ensures IsBlockCommentOutcome(input, s, ScanBlockCommentFrom(input, s, i, depth, acc))
  {
    BlockCommentUnnests(input, s, i, depth, acc);
  }

  lemma TakesCharOutcome(input: Input, s: nat, i: nat, depth: nat, acc: string)
    requires Numbered(input) && s + 2 <= i < |input| && depth >= 1 && acc == Chars(input, s + 2, i)
    requires !(Ch(input, i) == '/' && At(input, i + 1, '*')) && !(Ch(input, i) == '*' && At(input, i + 1, '/'))
    requires IsBlockCommentOutcome(input, s, ScanBlockCommentFrom(input, s, i + 1, depth, Chars(input, s + 2, i + 1)))
    ensures IsBlockCommentOutcome(input, s, ScanBlockCommentFrom(input, s, i, depth, acc))
  {
    BlockCommentTakesChar(input, s, i, depth, acc);
  }

  // One step of the block comment scan each, with the collected text kept equal to the input's.

  lemma BlockCommentNests(input: Input, s: nat, i: nat, depth: nat, acc: string)
    requires Numbered(input) && s + 2 <= i < |input| && depth >= 1 && acc == Chars(input, s + 2, i)
    requires Ch(input, i) == '/' && At(input, i + 1, '*')
    ensures ScanBlockCommentFrom(input, s, i, depth, acc)
         == ScanBlockCommentFrom(input, s, i + 2, depth + 1, Chars(input, s + 2, i + 2))
  {
    CharsSnocTwice(input, s + 2, i);
  }

  lemma BlockCommentUnnests(input: Input, s: nat, i: nat, depth: nat, acc: string)
    requires Numbered(input) && s + 2 <= i < |input| && depth > 1 && acc == Chars(input, s + 2, i)
    requires Ch(input, i) == '*' && At(input, i + 1, '/')
    ensures ScanBlockCommentFrom(input, s, i, depth, acc)
         == ScanBlockCommentFrom(input, s, i + 2, depth - 1, Chars(input, s + 2, i + 2))
  {
    CharsSnocTwice(input, s + 2, i);
  }

  lemma BlockCommentCloses(input: Input, s: nat, i: nat, acc: string)
    requires Numbered(input) && s + 2 <= i < |input| && acc == Chars(input, s + 2, i)
    requires Ch(input, i) == '*' && At(input, i + 1, '/')
    ensures ScanBlockCommentFrom(input, s, i, 1, acc) == Scanned(BlockCommentToken(input, s, i + 2), i + 2)
  {
  }

  lemma BlockCommentTakesChar(input: Input, s: nat, i: nat, depth: nat, acc: string)
    requires Numbered(input) && s + 2 <= i < |input| && depth >= 1 && acc == Chars(input, s + 2, i)
    requires !(Ch(input, i) == '/' && At(input, i + 1, '*')) && !(Ch(input, i) == '*' && At(input, i + 1, '/'))
    ensures ScanBlockCommentFrom(input, s, i, depth, acc)
         == ScanBlockCommentFrom(input, s, i + 1, depth, Chars(input, s + 2, i + 1))
  {
    CharsSnoc(input, s + 2, i);
  }

  lemma CharsSnocTwice(input: Input, i: nat, j: nat)
    requires i <= j && j + 1 < |input|
    ensures Chars(input, i, j + 2) == Chars(input, i, j) + [Ch(input, j), Ch(input, j + 1)]
  {
    CharsSnoc(input, i, j);
    CharsSnoc(input, i, j + 1);
  }

  /** A block comment's token holds the text between its outermost delimiters. */
  lemma BlockCommentText(input: Input, s: nat)
    requires Numbered(input) && s + 1 < |input|
    ensures IsBlockCommentOutcome(input, s, ScanBlockComment(input, s))
  {
    BlockCommentFromText(input, s, s + 2, 1, "");
  }

  // Without any closing star-slash after the opening, a block comment is unterminated.
  lemma {:induction false} NoCloserIsUnterminated(input: Input, s: nat, i: nat, depth: nat, acc: string)
    requires Numbered(input) && s + 2 <= i <= |input| && depth >= 1
    requires forall m :: i <= m && m + 1 < |input| ==> !(Ch(input, m) == '*' && Ch(input, m + 1) == '/')
    ensures ScanBlockCommentFrom(input, s, i, depth, acc) == Failed(UnexpectedEndOfDocument)
    decreases |input| - i
  {
    if i == |input| {
    } else if Ch(input, i) == '/' && At(input, i + 1, '*') {
      NoCloserIsUnterminated(input, s, i + 2, depth + 1, acc + "/*");
    } else {
      NoCloserIsUnterminated(input, s, i + 1, depth, acc + [Ch(input, i)]);
    }
  }

  // Block comments nest: the eight characters below form one comment whose
  // text is the inner, empty, comment.
  lemma NestedBlockComment(input: Input)
    requires Numbered(input) && TextOf(input) == "/*/**/*/"
    ensures ScanBlockComment(input, 0) == Scanned(TokenWithRange(Token.Comment(Block("/**/")), Span(input, 0, 7)), 8)
  {
    assert TextOf(input)[2] == '/' && TextOf(input)[3] == '*' && TextOf(input)[4] == '*' && TextOf(input)[5] == '/';
    assert TextOf(input)[6] == '*' && TextOf(input)[7] == '/';
    assert Ch(input, 2) == '/' && Ch(input, 3) == '*' && Ch(input, 4) == '*' && Ch(input, 5) == '/';
    assert Ch(input, 6) == '*' && Ch(input, 7) == '/';
    calc {
      ScanBlockComment(input, 0);
      ScanBlockCommentFrom(input, 0, 2, 1, "");
      ScanBlockCommentFrom(input, 0, 4, 2, "" + "/*");
      { assert "" + "/*" == "/*"; }
      ScanBlockCommentFrom(input, 0, 4, 2, "/*");
      ScanBlockCommentFrom(input, 0, 6, 1, "/*" + "*/");
      { assert "/*" + "*/" == "/**/"; }
      ScanBlockCommentFrom(input, 0, 6, 1, "/**/");
    }
  }

  // Line comments

  /**
   * A line comment's text is every character after `//` up to the line
   * break, which is left for the next token: the text holds no `\n` and no
   * `\r` that starts a `\r\n`.
   */
  lemma {:induction false} LineCommentFromText(input: Input, s: nat, i: nat, text: string)
    requires Numbered(input) && s + 2 <= i <= |input|
    requires text == Chars(input, s + 2, i)
    requires forall m :: s + 2 <= m < i ==> Ch(input, m) != '\n' && !(Ch(input, m) == '\r' && At(input, m + 1, '\n'))
    ensures var r := ScanLineCommentFrom(input, s, i, text);
      r.value == TokenWithRange(Token.Comment(Line(Chars(input, s + 2, r.next))), Span(input, s, r.next - 1))
      && (forall m :: s + 2 <= m < r.next ==> Ch(input, m) != '\n' && !(Ch(input, m) == '\r' && At(input, m + 1, '\n')))
      && (r.next == |input| || Ch(input, r.next) == '\n' || (Ch(input, r.next) == '\r' && At(input, r.next + 1, '\n')))
    decreases |input| - i
  {
    if i == |input| || Ch(input, i) == '\n' || (Ch(input, i) == '\r' && At(input, i + 1, '\n')) {
    } else {
      CharsSnoc(input, s + 2, i);
      LineCommentFromText(input, s, i + 1, text + [Ch(input, i)]);
    }
  }

  lemma LineCommentText(input: Input, s: nat)
    requires Numbered(input) && s + 1 < |input|
    ensures var r := ScanLineComment(input, s);
      r.value == TokenWithRange(Token.Comment(Line(Chars(input, s + 2, r.next))), Span(input, s, r.next - 1))
      && (forall m :: s + 2 <= m < r.next ==> Ch(input, m) != '\n' && !(Ch(input, m) == '\r' && At(input, m + 1, '\n')))
      && (r.next == |input| || Ch(input, r.next) == '\n' || (Ch(input, r.next) == '\r' && At(input, r.next + 1, '\n')))
  {
    LineCommentFromText(input, s, s + 2, "");
  }

  /**
   * The line comment as written keeps the `\r` of a `\r\n` line break in
   * its text and leaves only the `\n` for the next token; as intended, the
   * text stops before the `\r` and the line break is one token of length 2.
   */
  lemma LineCommentBeforeCrLf(input: Input)
    requires Numbered(input) && TextOf(input) == "//a\r\n"
    ensures ScanLineCommentAsWritten(input, 0)
         == Scanned(TokenWithRange(Token.Comment(Line("a\r")), Span(input, 0, 3)), 4)
    ensures NextToken(input, 4) == Scanned(Some(TokenWithRange.FromPositionAndLength(NewLine, Pos(input, 4), 1)), 5)
    ensures ScanLineComment(input, 0)
         == Scanned(TokenWithRange(Token.Comment(Line("a")), Span(input, 0, 2)), 3)
    ensures NextToken(input, 3) == Scanned(Some(TokenWithRange.FromPositionAndLength(NewLine, Pos(input, 3), 2)), 5)
  {
    assert TextOf(input)[2] == 'a' && TextOf(input)[3] == '\r' && TextOf(input)[4] == '\n';
    assert Ch(input, 2) == 'a' && Ch(input, 3) == '\r' && Ch(input, 4) == '\n';
    calc {
      ScanLineCommentAsWritten(input, 0);
      ScanLineCommentFromAsWritten(input, 0, 2, "");
      ScanLineCommentFromAsWritten(input, 0, 3, "" + "a");
      { assert "" + "a" == "a"; }
      ScanLineCommentFromAsWritten(input, 0, 3, "a");
      ScanLineCommentFromAsWritten(input, 0, 4, "a" + "\r");
      { assert "a" + "\r" == "a\r"; }
      ScanLineCommentFromAsWritten(input, 0, 4, "a\r");
    }
    calc {
      ScanLineComment(input, 0);
      ScanLineCommentFrom(input, 0, 2, "");
      ScanLineCommentFrom(input, 0, 3, "" + "a");
      { assert "" + "a" == "a"; }
      ScanLineCommentFrom(input, 0, 3, "a");
    }
  }

  /**
   * The line comment as written and as intended differ only at a `\r\n`:
   * where no `\r` directly precedes a `\n` from `i` on, both read the same
   * comment and stop at the same place.
   */
  lemma {:induction false} LineCommentAsWrittenAgreesFrom(input: Input, s: nat, i: nat, text: string)
    requires Numbered(input) && s + 2 <= i <= |input|
    requires forall m :: i <= m < |input| ==> !(Ch(input, m) == '\r' && At(input, m + 1, '\n'))
    ensures ScanLineCommentFromAsWritten(input, s, i, text) == ScanLineCommentFrom(input, s, i, text)
    decreases |input| - i
  {
    if i == |input| || Ch(input, i) == '\n' {
    } else {
      assert !At(input, i, '\n');
      LineCommentAsWrittenAgreesFrom(input, s, i + 1, text + [Ch(input, i)]);
    }
  }

  lemma LineCommentAsWrittenAgrees(input: Input, s: nat)
    requires Numbered(input) && s + 1 < |input|
    requires forall m :: s + 2 <= m < |input| ==> !(Ch(input, m) == '\r' && At(input, m + 1, '\n'))
    ensures ScanLineCommentAsWritten(input, s) == ScanLineComment(input, s)
  {
    LineCommentAsWrittenAgreesFrom(input, s, s + 2, "");
  }

  // Punctuation and the token loop

  /** The two-character punctuation tokens. */
  function TwoCharToken(c: char, d: char): Option<Token>
  {
    if c == '\r' && d == '\n' then Some(NewLine)
    else if c == '|' && d == '|' then Some(LogicOr)
    else if c == '.' && d == '.' then Some(Interval)
    else if c == '?' && d == '?' then Some(QuestionLazy)
    else if c == '+' && d == '?' then Some(PlusLazy)
    else if c == '*' && d == '?' then Some(AsteriskLazy)
    else None
  }

  /** The one-character punctuation tokens. */
  function OneCharToken(c: char): Option<Token>
  {
    match c
    case '\n' => Some(NewLine)
    case ',' => Some(Comma)
    case '!' => Some(Exclamation)
    case '.' => Some(Dot)
    case '[' => Some(LeftBracket)
    case ']' => Some(RightBracket)
    case '(' => Some(LeftParen)
    case ')' => Some(RightParen)
    case '?' => Some(Question)
    case '+' => Some(Plus)
    case '*' => Some(Asterisk)
    case '{' => Some(LeftBrace)
    case '}' => Some(RightBrace)
    case _ => None
  }

  /**
   * A two-character punctuation (`\r\n`, `||`, `..`, `??`, `+?`, `*?`) is
   * one token of length 2, preferred to a one-character token.
   */
  lemma TwoCharPunctuation(input: Input, i: nat)
    requires Numbered(input) && i + 1 < |input| && TwoCharToken(Ch(input, i), Ch(input, i + 1)).Some?
    ensures NextToken(input, i)
         == Scanned(Some(TokenWithRange.FromPositionAndLength(TwoCharToken(Ch(input, i), Ch(input, i + 1)).value,
                                                             Pos(input, i), 2)), i + 2)
  {
  }

  /** Any other punctuation character is a token of length 1. */
  lemma OneCharPunctuation(input: Input, i: nat)
    requires Numbered(input) && i < |input| && OneCharToken(Ch(input, i)).Some?
    requires i + 1 == |input| || TwoCharToken(Ch(input, i), Ch(input, i + 1)).None?
    ensures NextToken(input, i)
         == Scanned(Some(TokenWithRange.FromPositionAndLength(OneCharToken(Ch(input, i)).value, Pos(input, i), 1)), i + 1)
  {
  }

  /** Exactly the spaces and tabs are skipped without a token. */
  lemma BlanksMakeNoToken(input: Input, i: nat)
    requires Numbered(input) && i < |input|
    ensures NextToken(input, i).Scanned? && NextToken(input, i).value.None? <==> IsBlank(Ch(input, i))
    ensures IsBlank(Ch(input, i)) ==> NextToken(input, i).next == i + 1
  {
  }

  /** Whether a token may start at index `i`. */
  predicate StartsToken(input: Input, i: nat)
    requires i < |input|
  {
    var c := Ch(input, i);
    OneCharToken(c).Some? || (i + 1 < |input| && TwoCharToken(c, Ch(input, i + 1)).Some?)
    || IsDigit(c) || c == '"' || c == '\'' || IsIdentifierStart(c)
    || (c == '/' && (At(input, i + 1, '/') || At(input, i + 1, '*')))
  }

  /** A character that is neither blank nor the start of a token is an error located at it. */
  lemma UnexpectedCharIsError(input: Input, i: nat)
    requires Numbered(input) && i < |input|
    requires !IsBlank(Ch(input, i)) && !StartsToken(input, i)
    ensures NextToken(input, i) == Failed(MessageWithLocation(Pos(input, i)))
  {
  }

  /** A string literal's token covers it from its opening to its closing quote. */
  lemma {:induction false} StringRange(input: Input, s: nat, i: nat, acc: string)
    requires Numbered(input) && s < i <= |input|
    ensures var r := ScanStringFrom(input, s, i, acc);
      r.Scanned? ==> r.value.range == Span(input, s, r.next - 1) && r.value.token.String?
    decreases |input| - i
  {
    if i < |input| {
      if Ch(input, i) == '\\' {
        match ScanEscape(input, i + 1)
        case Failed(_) =>
        case Scanned(c, j) => StringRange(input, s, j, acc + [c]);
      } else if Ch(input, i) != '"' {
        StringRange(input, s, i + 1, acc + [Ch(input, i)]);
      }
    }
  }

  /**
   * Up to index `q`, which is the end of the input or a `"`, no backslash and no
   * quote: the string reads exactly the characters before `q` and closes there,
   * or, at the end of the input, is the end-of-document error.
   */
  lemma {:induction false} StringTextFrom(input: Input, s: nat, i: nat, q: nat)
    requires Numbered(input) && s < i <= q <= |input|
    requires q == |input| || Ch(input, q) == '"'
    requires forall m :: i <= m < q ==> Ch(input, m) != '\\' && Ch(input, m) != '"'
    ensures q == |input| ==> ScanStringFrom(input, s, i, Chars(input, s + 1, i)) == Failed(UnexpectedEndOfDocument)
    ensures q < |input| ==> ScanStringFrom(input, s, i, Chars(input, s + 1, i))
                            == Scanned(TokenWithRange(Token.String(Chars(input, s + 1, q)), Span(input, s, q)), q + 1)
    decreases q - i
  {
    if i < q {
      CharsSnoc(input, s + 1, i);
      StringTextFrom(input, s, i + 1, q);
    }
  }

  /** A string literal whose text has no backslash reads exactly the characters between its quotes. */
  lemma StringText(input: Input, s: nat, q: nat)
    requires Numbered(input) && s < q < |input| && Ch(input, s) == '"' && Ch(input, q) == '"'
    requires forall m :: s < m < q ==> Ch(input, m) != '\\' && Ch(input, m) != '"'
    ensures ScanString(input, s) == Scanned(TokenWithRange(Token.String(Chars(input, s + 1, q)), Span(input, s, q)), q + 1)
  {
    assert Chars(input, s + 1, s + 1) == "";
    StringTextFrom(input, s, s + 1, q);
  }

  /** A string literal with neither a backslash nor a closing quote is the end-of-document error. */
  lemma UnterminatedString(input: Input, s: nat)
    requires Numbered(input) && s < |input| && Ch(input, s) == '"'
    requires forall m :: s < m < |input| ==> Ch(input, m) != '\\' && Ch(input, m) != '"'
    ensures ScanString(input, s) == Failed(UnexpectedEndOfDocument)
  {
    assert Chars(input, s + 1, s + 1) == "";
    StringTextFrom(input, s, s + 1, |input|);
  }

  /**
   * At the first backslash `b` of a string, before any closing quote: a character
   * after it that starts no escape fails the string at that character, and a
   * backslash that ends the input is the end-of-document error.
   */
  lemma {:induction false} StringEscapeRefusedFrom(input: Input, s: nat, i: nat, b: nat, acc: string)
    requires Numbered(input) && s < i <= b < |input| && Ch(input, b) == '\\'
    requires forall m :: i <= m < b ==> Ch(input, m) != '\\' && Ch(input, m) != '"'
    ensures b + 1 == |input| ==> ScanStringFrom(input, s, i, acc) == Failed(UnexpectedEndOfDocument)
    ensures b + 1 < |input| && !IsEscapeLetter(Ch(input, b + 1)) ==>
              ScanStringFrom(input, s, i, acc) == Failed(MessageWithLocation(Pos(input, b + 1)))
    decreases b - i
  {
    if i < b {
      StringEscapeRefusedFrom(input, s, i + 1, b, acc + [Ch(input, i)]);
    } else if b + 1 < |input| {
      OnlyListedEscapes(input, b + 1);
    }
  }

  /** An unlisted escape in a string fails the string at the character after the backslash. */
  lemma StringEscapeRefused(input: Input, s: nat, b: nat)
    requires Numbered(input) && s < b && b + 1 < |input| && Ch(input, s) == '"' && Ch(input, b) == '\\'
    requires forall m :: s < m < b ==> Ch(input, m) != '\\' && Ch(input, m) != '"'
    requires !IsEscapeLetter(Ch(input, b + 1))
    ensures ScanString(input, s) == Failed(MessageWithLocation(Pos(input, b + 1)))
  {
    StringEscapeRefusedFrom(input, s, s + 1, b, "");
  }

  /** Every token read at index `i` covers the characters from `i` to where reading stopped. */
  lemma NextTokenRange(input: Input, i: nat)
    requires Numbered(input) && i < |input|
    ensures var r := NextToken(input, i);
      r.Scanned? && r.value.Some? ==> r.value.value.range.index == i && r.value.value.range.EndIndex() == r.next
  {
    var c := Ch(input, i);
    if IsBlank(c) || StartsPunctuation(input, i) || IsDigit(c) || c == '\'' || IsIdentifierStart(c) {
    } else if c == '"' {
      StringRange(input, i, i + 1, "");
    } else if c == '/' && At(input, i + 1, '/') {
      LineCommentText(input, i);
    } else if c == '/' && At(input, i + 1, '*') {
      BlockCommentText(input, i);
    }
  }

  predicate AllBlank(input: Input, a: nat, b: nat)
    requires a <= b <= |input|
  {
    forall m :: a <= m < b ==> IsBlank(Ch(input, m))
  }

  /**
   * The tokens `ts` tile the input from index `lo`: their ranges are in
   * order, do not overlap, are not empty, and everything between them is
   * blank.
   */
  predicate Tiles(input: Input, ts: seq<TokenWithRange>, lo: nat)
    requires lo <= |input|
    decreases |ts|
  {
    if ts == [] then AllBlank(input, lo, |input|)
    else
      lo <= ts[0].range.index < ts[0].range.EndIndex() <= |input|
      && AllBlank(input, lo, ts[0].range.index)
      && Tiles(input, ts[1..], ts[0].range.EndIndex())
  }

  lemma SkipBlankTiles(input: Input, ts: seq<TokenWithRange>, lo: nat)
    requires lo < |input| && IsBlank(Ch(input, lo)) && Tiles(input, ts, lo + 1)
    ensures Tiles(input, ts, lo)
  {
  }

  /**
   * A successful tokenisation accounts for every character: each one is in
   * exactly one token or is a blank between tokens.
   */
  lemma {:induction false} LexFromTiles(input: Input, i: nat)
    requires Numbered(input) && i <= |input|
    ensures LexFrom(input, i).Ok? ==> Tiles(input, LexFrom(input, i).value, i)
    decreases |input| - i
  {
    if i < |input| {
      NextTokenRange(input, i);
      match NextToken(input, i)
      case Failed(_) =>
      case Scanned(None, j) =>
        BlanksMakeNoToken(input, i);
        LexFromTiles(input, j);
        if LexFrom(input, j).Ok? {
          SkipBlankTiles(input, LexFrom(input, j).value, i);
        }
      case Scanned(Some(t), j) =>
        LexFromTiles(input, j);
        if LexFrom(input, j).Ok? {
          var ts := LexFrom(input, j).value;
          assert ([t] + ts)[1..] == ts;
        }
    }
  }
}
