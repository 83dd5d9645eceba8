/**
 * The matching context: the text being searched and the current position,
 * with the neighbour and word-boundary queries used by assertions.
 */
module Context {

  /** A frame of the backtracking cursor stack. */
  datatype Cursor = Cursor(start: nat, end: nat, position: nat)

  datatype Context = Context(
    text: seq<char>,
    length: nat,
    fixedStart: bool,
    fixedEnd: bool,
    cursors: seq<Cursor>,
    position: nat)
  {
    /** `length` is the length of `text` and `position` addresses a character of it. */
    predicate Valid()
    {
      length == |text| && position < |text|
    }
  }

  /** The null character returned for a neighbour outside the text. */
  const NoChar: char := '\0'

  /** The ASCII letters, the ASCII digits and the underscore. */
  predicate IsWordChar(c: char)
  {
    ('a' <= c <= 'z') || ('A' <= c <= 'Z') || ('0' <= c <= '9') || c == '_'
  }

  function GetChar(ctx: Context, position: nat): (r: char)
    requires position < |ctx.text|
    ensures r == ctx.text[position] && r in ctx.text
  {
    ctx.text[position]
  }

  function GetCurrentChar(ctx: Context): (r: char)
    requires ctx.position < |ctx.text|
    ensures r == ctx.text[ctx.position] && r in ctx.text
  {
    GetChar(ctx, ctx.position)
  }

  function IsFirstChar(ctx: Context): (r: bool)
    ensures r <==> ctx.position == 0
  {
    ctx.position == 0
  }

  /** `length - 1` is a `usize` subtraction, so the text must not be empty. */
  function IsLastChar(ctx: Context): (r: bool)
    requires ctx.length > 0
    ensures r <==> ctx.position + 1 == ctx.length
  {
    ctx.position == ctx.length - 1
  }

  function GetPreviousChar(ctx: Context): (r: char)
    requires ctx.Valid()
    ensures ctx.position == 0 ==> r == NoChar
    ensures ctx.position > 0 ==> r == ctx.text[ctx.position - 1]
  {
    if IsFirstChar(ctx) then NoChar else GetChar(ctx, ctx.position - 1)
  }

  function GetNextChar(ctx: Context): (r: char)
    requires ctx.Valid()
    ensures ctx.position == |ctx.text| - 1 ==> r == NoChar
    ensures ctx.position < |ctx.text| - 1 ==> r == ctx.text[ctx.position + 1]
  {
    if IsLastChar(ctx) then NoChar else GetChar(ctx, ctx.position + 1)
  }

  /**
   * The current position is a word boundary exactly when being a word
   * character changes between the current character and one of its
   * neighbours (a neighbour outside the text counts as a non-word character).
   */
  function IsWordBound(ctx: Context): (r: bool)
    requires ctx.Valid()
    ensures r <==> (IsWordChar(GetCurrentChar(ctx)) != IsWordChar(GetPreviousChar(ctx))
                    || IsWordChar(GetCurrentChar(ctx)) != IsWordChar(GetNextChar(ctx)))
  {
    var currentChar := GetCurrentChar(ctx);
    if IsWordChar(currentChar) then
      !IsWordChar(GetPreviousChar(ctx)) || !IsWordChar(GetNextChar(ctx))
    else
      IsWordChar(GetPreviousChar(ctx)) || IsWordChar(GetNextChar(ctx))
  }

  /** A word character at either end of the text is always a boundary. */
  lemma WordCharAtTextEdgeIsBound(ctx: Context)
    requires ctx.Valid()
    requires IsWordChar(ctx.text[ctx.position])
    requires ctx.position == 0 || ctx.position == |ctx.text| - 1
    ensures IsWordBound(ctx)
  {
  }

  /**
   * Inside a run of word characters, or inside a run of non-word
   * characters, there is no boundary.
   */
  lemma NoBoundInsideRun(ctx: Context)
    requires ctx.Valid() && 0 < ctx.position < |ctx.text| - 1
    requires IsWordChar(ctx.text[ctx.position - 1]) == IsWordChar(ctx.text[ctx.position])
    requires IsWordChar(ctx.text[ctx.position + 1]) == IsWordChar(ctx.text[ctx.position])
    ensures !IsWordBound(ctx)
  {
  }
}
