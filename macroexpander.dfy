/**
 * The macro expander: drops comments, cuts every `define(name, body)`
 * statement out of the token stream, and substitutes each definition's body
 * for the identifiers that name it, first into the definitions declared after
 * it and then into the program.
 *
 * The search for a statement's closing parenthesis decrements an unsigned
 * depth counter; a `)` met at depth 0 underflows it.  `DefinitionEndAsWritten`
 * models that search as written (the underflow is an outcome of its own) and
 * `DefinitionEnd` the corrected search used everywhere else, where such a
 * `)` means the statement has no closing parenthesis.
 */
module MacroExpander {
  import opened Locations
  import opened Errors
  import opened Tokens
  import opened CommentCleaner

  datatype Definition = Definition(name: string, tokens: seq<TokenWithRange>)

  predicate IsDefine(t: TokenWithRange) { t.token == Identifier("define") }

  predicate IsLeftParen(t: TokenWithRange) { t.token.LeftParen? }

  predicate IsRightParen(t: TokenWithRange) { t.token.RightParen? }

  predicate IsNewLineOrComma(t: TokenWithRange) { t.token.NewLine? || t.token.Comma? }

  /** The stream without its comments. */
  function RemoveComments(tokens: seq<TokenWithRange>): (r: seq<TokenWithRange>)
    ensures forall k :: 0 <= k < |r| ==> !IsComment(r[k])
    ensures |r| == |tokens| - CountComments(tokens)
  {
    NoCommentLeft(tokens);
    CleanLength(tokens);
    NonComments(tokens)
  }

  // ---------------------------------------------------------------------
  // Finding a definition statement

  /** The first `define` at or after `i`. */
  function FirstDefineFrom(ts: seq<TokenWithRange>, i: nat): (r: Option<nat>)
    requires i <= |ts|
    ensures r.Some? ==> i <= r.value < |ts| && IsDefine(ts[r.value]) &&
                        forall k :: i <= k < r.value ==> !IsDefine(ts[k])
    ensures r.None? ==> forall k :: i <= k < |ts| ==> !IsDefine(ts[k])
    decreases |ts| - i
  {
    if i == |ts| then None
    else if IsDefine(ts[i]) then Some(i)
    else FirstDefineFrom(ts, i + 1)
  }

  function FirstDefine(ts: seq<TokenWithRange>): Option<nat>
  {
    FirstDefineFrom(ts, 0)
  }

  /** +1 for `(`, -1 for `)`, 0 for anything else. */
  function Delta(t: TokenWithRange): int
  {
    if IsLeftParen(t) then 1 else if IsRightParen(t) then -1 else 0
  }

  /** Opening minus closing parentheses among `ts[a..b]`. */
  function Balance(ts: seq<TokenWithRange>, a: nat, b: nat): int
    requires a <= b <= |ts|
    decreases b - a
  {
    if a == b then 0 else Balance(ts, a, b - 1) + Delta(ts[b - 1])
  }

  /**
   * `e` closes the statement whose `define` is at `start`: it is a `)`
   * that finds exactly one parenthesis open since `start`, and every `)`
   * before it found at least two open.
   */
  predicate MatchingClose(ts: seq<TokenWithRange>, start: nat, e: nat)
  {
    start < e < |ts| && IsRightParen(ts[e]) && Balance(ts, start + 1, e) == 1 &&
    forall k :: start < k < e && IsRightParen(ts[k]) ==> Balance(ts, start + 1, k) >= 2
  }

  /** The search loop from `idx` with `depth` parentheses open. */
  function DefinitionEndFrom(ts: seq<TokenWithRange>, idx: nat, depth: nat): (r: Option<nat>)
    requires idx <= |ts|
    ensures r.Some? ==> idx <= r.value < |ts| && IsRightParen(ts[r.value])
    decreases |ts| - idx
  {
    if idx == |ts| then None
    else if IsLeftParen(ts[idx]) then DefinitionEndFrom(ts, idx + 1, depth + 1)
    else if IsRightParen(ts[idx]) then
      if depth == 1 then Some(idx)
      else if depth == 0 then None
      else DefinitionEndFrom(ts, idx + 1, depth - 1)
    else DefinitionEndFrom(ts, idx + 1, depth)
  }

  /** The index of the `)` that ends the statement whose `define` is at `start`, if any. */
  function DefinitionEnd(ts: seq<TokenWithRange>, start: nat): (r: Option<nat>)
    requires start < |ts|
    ensures r.Some? ==> start < r.value < |ts| && IsRightParen(ts[r.value])
  {
    DefinitionEndFrom(ts, start + 1, 0)
  }

  /** The outcome of the search as written: a `)` at depth 0 underflows the counter. */
  datatype EndSearch = Found(end: nat) | NotFound | Underflow(at: nat)

  function DefinitionEndFromAsWritten(ts: seq<TokenWithRange>, idx: nat, depth: nat): (r: EndSearch)
    requires idx <= |ts|
    decreases |ts| - idx
  {
    if idx == |ts| then NotFound
    else if IsLeftParen(ts[idx]) then DefinitionEndFromAsWritten(ts, idx + 1, depth + 1)
    else if IsRightParen(ts[idx]) then
      if depth == 1 then Found(idx)
      else if depth == 0 then Underflow(idx)
      else DefinitionEndFromAsWritten(ts, idx + 1, depth - 1)
    else DefinitionEndFromAsWritten(ts, idx + 1, depth)
  }

  function DefinitionEndAsWritten(ts: seq<TokenWithRange>, start: nat): EndSearch
    requires start < |ts|
  {
    DefinitionEndFromAsWritten(ts, start + 1, 0)
  }

  /** The search loop: walks from `start + 1` keeping the parenthesis depth. */
  method FindDefinitionEnd(tokens: seq<TokenWithRange>, start: nat) returns (endOption: Option<nat>)
    requires start < |tokens|
    ensures endOption == DefinitionEnd(tokens, start)
  {
    var depth: nat := 0;
    endOption := None;
    var idx := start + 1;
    while idx < |tokens|
      invariant start < idx <= |tokens|
      invariant DefinitionEndFrom(tokens, idx, depth) == DefinitionEnd(tokens, start)
      decreases |tokens| - idx
    {
      match tokens[idx].token {
        case LeftParen =>
          depth := depth + 1;
        case RightParen =>
          if depth == 1 {
            endOption := Some(idx);
            return;
          } else if depth == 0 {
            return;
          } else {
            depth := depth - 1;
          }
        case _ =>
      }
      idx := idx + 1;
    }
  }

  // ---------------------------------------------------------------------
  // Reading one definition statement

  /** The range `last_range` holds once the first `p` tokens have been read. */
  function LastRangeAfter(ts: seq<TokenWithRange>, p: int): Location
    requires 0 <= p <= |ts|
  {
    if p == 0 then Location(0, 0, 0, 0, 0) else ts[p - 1].range
  }

  /**
   * Reads a statement `define ( [new line] name , body )`: skips the first
   * two tokens and an optional new line, expects an identifier and then a
   * comma or a new line, and keeps every remaining token but the last.
   */
  function ExtractDefinition(ts: seq<TokenWithRange>): Result<Definition>
  {
    var p0 := if |ts| < 2 then |ts| else 2;
    var p := if p0 < |ts| && ts[p0].token.NewLine? then p0 + 1 else p0;
    if p == |ts| then Err(UnexpectedEndOfDocument)
    else if !ts[p].token.Identifier? then Err(MessageWithLocation(FromRangeStart(LastRangeAfter(ts, p))))
    else if p + 1 == |ts| then Err(UnexpectedEndOfDocument)
    else if !IsNewLineOrComma(ts[p + 1]) then Err(MessageWithLocation(FromRangeStart(ts[p + 1].range)))
    else Ok(Definition(ts[p].token.name, if p + 2 < |ts| then ts[p + 2..|ts| - 1] else []))
  }

  /** Reads one drained statement, token by token. */
  class DefinitionExtractor {
    const upstream: seq<TokenWithRange>
    var cursor: int
    var lastRange: Location

    predicate Valid()
      reads this
    {
      0 <= cursor <= |upstream|
    }

    constructor(tokens: seq<TokenWithRange>)
      ensures Valid() && upstream == tokens && cursor == 0 && lastRange == Location(0, 0, 0, 0, 0)
    {
      upstream := tokens;
      cursor := 0;
      lastRange := Location(0, 0, 0, 0, 0);
    }

    function PeekToken(): (r: Option<Token>)
      reads this
      requires Valid()
      ensures r.Some? <==> cursor < |upstream|
      ensures r.Some? ==> r.value == upstream[cursor].token
    {
      if cursor < |upstream| then Some(upstream[cursor].token) else None
    }

    /** Reads one token and remembers its range. */
    method NextToken() returns (t: Option<Token>)
      requires Valid()
      modifies this
      ensures Valid()
      ensures t == old(PeekToken())
      ensures old(cursor) < |upstream| ==> cursor == old(cursor) + 1 && lastRange == upstream[old(cursor)].range
      ensures old(cursor) == |upstream| ==> cursor == old(cursor) && lastRange == old(lastRange)
    {
      if cursor < |upstream| {
        t := Some(upstream[cursor].token);
        lastRange := upstream[cursor].range;
        cursor := cursor + 1;
      } else {
        t := None;
      }
    }

    method ConsumeNewLineIfExist() returns (consumed: bool)
      requires Valid()
      modifies this
      ensures Valid()
      ensures consumed <==> old(cursor) < |upstream| && upstream[old(cursor)].token.NewLine?
      ensures consumed ==> cursor == old(cursor) + 1 && lastRange == upstream[old(cursor)].range
      ensures !consumed ==> cursor == old(cursor) && lastRange == old(lastRange)
    {
      if cursor < |upstream| && upstream[cursor].token.NewLine? {
        var _ := NextToken();
        consumed := true;
      } else {
        consumed := false;
      }
    }

    method ExpectIdentifier() returns (r: Result<string>)
      requires Valid()
      modifies this
      ensures Valid()
      ensures old(cursor) == |upstream| ==> r == Err(UnexpectedEndOfDocument) && cursor == old(cursor)
      ensures old(cursor) < |upstream| && !upstream[old(cursor)].token.Identifier? ==>
                r == Err(MessageWithLocation(FromRangeStart(old(lastRange)))) && cursor == old(cursor)
      ensures old(cursor) < |upstream| && upstream[old(cursor)].token.Identifier? ==>
                r == Ok(upstream[old(cursor)].token.name) && cursor == old(cursor) + 1
    {
      if cursor == |upstream| {
        r := Err(UnexpectedEndOfDocument);
      } else if upstream[cursor].token.Identifier? {
        var id := upstream[cursor].token.name;
        var _ := NextToken();
        r := Ok(id);
      } else {
        r := Err(MessageWithLocation(FromRangeStart(lastRange)));
      }
    }

    method ExpectNewLineOrComma() returns (r: Result<()>)
      requires Valid()
      modifies this
      ensures Valid()
      ensures old(cursor) == |upstream| ==> r == Err(UnexpectedEndOfDocument) && cursor == old(cursor)
      ensures old(cursor) < |upstream| && !IsNewLineOrComma(upstream[old(cursor)]) ==>
                r == Err(MessageWithLocation(FromRangeStart(upstream[old(cursor)].range))) && cursor == old(cursor)
      ensures old(cursor) < |upstream| && IsNewLineOrComma(upstream[old(cursor)]) ==>
                r == Ok(()) && cursor == old(cursor) + 1
    {
      if cursor == |upstream| {
        r := Err(UnexpectedEndOfDocument);
      } else if IsNewLineOrComma(upstream[cursor]) {
        var _ := NextToken();
        r := Ok(());
      } else {
        r := Err(MessageWithLocation(FromRangeStart(upstream[cursor].range)));
      }
    }

    /** Reads the whole statement into a definition. */
    method Extract() returns (r: Result<Definition>)
      requires Valid() && cursor == 0 && lastRange == Location(0, 0, 0, 0, 0)
      modifies this
      ensures r == ExtractDefinition(upstream)
    {
      var _ := NextToken();
      var _ := NextToken();
      var _ := ConsumeNewLineIfExist();
      assert lastRange == LastRangeAfter(upstream, cursor);
      var name := ExpectIdentifier();
      if name.Err? {
        return Err(name.error);
      }
      var separator := ExpectNewLineOrComma();
      if separator.Err? {
        return Err(separator.error);
      }
      var bodyStart := cursor;
      var tokenWithRanges := [];
      while cursor < |upstream|
        invariant bodyStart <= cursor <= |upstream|
        invariant tokenWithRanges == if cursor < |upstream| then upstream[bodyStart..cursor]
                                     else if bodyStart < cursor then upstream[bodyStart..cursor - 1]
                                     else []
        decreases |upstream| - cursor
      {
        var tokenWithRange := upstream[cursor];
        cursor := cursor + 1;
        // keep every token but the last
        if cursor < |upstream| {
          assert upstream[bodyStart..cursor] == upstream[bodyStart..cursor - 1] + [tokenWithRange];
          tokenWithRanges := tokenWithRanges + [tokenWithRange];
        }
      }
      r := Ok(Definition(name.value, tokenWithRanges));
    }
  }

  // ---------------------------------------------------------------------
  // Extracting every definition

  /**
   * The extraction loop, continuing with program tokens `ts` and the
   * definitions `defs` read so far.
   */
  function ExtractFrom(ts: seq<TokenWithRange>, defs: seq<Definition>): Result<(seq<TokenWithRange>, seq<Definition>)>
    decreases |ts|
  {
    match FirstDefine(ts)
    case None => Ok((ts, defs))
    case Some(start) =>
      match DefinitionEnd(ts, start)
      case None => Err(UnexpectedEndOfDocument)
      case Some(end) =>
        match ExtractDefinition(ts[start..end + 1])
        case Err(e) => Err(e)
        case Ok(d) => ExtractFrom(ts[..start] + ts[end + 1..], defs + [d])
  }

  function ExtractedDefinitions(tokens: seq<TokenWithRange>): Result<(seq<TokenWithRange>, seq<Definition>)>
  {
    ExtractFrom(tokens, [])
  }

  method ExtractDefinitions(tokens: seq<TokenWithRange>) returns (r: Result<(seq<TokenWithRange>, seq<Definition>)>)
    ensures r == ExtractedDefinitions(tokens)
  {
    var ts := tokens;
    var definitions: seq<Definition> := [];
    while true
      invariant ExtractFrom(ts, definitions) == ExtractFrom(tokens, [])
      decreases |ts|
    {
      var pos := FirstDefine(ts);
      if pos.None? {
        return Ok((ts, definitions));
      }
      var start := pos.value;
      var endOption := FindDefinitionEnd(ts, start);
      if endOption.None? {
        return Err(UnexpectedEndOfDocument);
      }
      var end := endOption.value;
      var definitionTokens := ts[start..end + 1];
      ts := ts[..start] + ts[end + 1..];
      var extractor := new DefinitionExtractor(definitionTokens);
      var definition := extractor.Extract();
      if definition.Err? {
        return Err(definition.error);
      }
      definitions := definitions + [definition.value];
    }
  }

  // ---------------------------------------------------------------------
  // Substitution

  /** Every `Identifier(findId)` of `ts` replaced by `replaceWith`; the inserted tokens are not rescanned. */
  function ReplaceAll(ts: seq<TokenWithRange>, findId: string, replaceWith: seq<TokenWithRange>): seq<TokenWithRange>
  {
    if ts == [] then []
    else (if ts[0].token == Identifier(findId) then replaceWith else [ts[0]]) + ReplaceAll(ts[1..], findId, replaceWith)
  }

  lemma ReplaceAllUnfold(ts: seq<TokenWithRange>, i: nat, findId: string, replaceWith: seq<TokenWithRange>)
    requires i < |ts|
    ensures ReplaceAll(ts[i..], findId, replaceWith)
         == (if ts[i].token == Identifier(findId) then replaceWith else [ts[i]]) + ReplaceAll(ts[i + 1..], findId, replaceWith)
  {
    assert ts[i..][0] == ts[i];
    assert ts[i..][1..] == ts[i + 1..];
  }

  /** Splices the replacement over each match, from the last token back to the first. */
  method FindAndReplaceIdentifiers(sourceTokens: seq<TokenWithRange>, findId: string, replaceWith: seq<TokenWithRange>)
    returns (r: seq<TokenWithRange>)
    ensures r == ReplaceAll(sourceTokens, findId, replaceWith)
  {
    r := sourceTokens;
    var idx := |sourceTokens|;
    while idx > 0
      invariant 0 <= idx <= |sourceTokens|
      invariant r == sourceTokens[..idx] + ReplaceAll(sourceTokens[idx..], findId, replaceWith)
      decreases idx
    {
      idx := idx - 1;
      ReplaceAllUnfold(sourceTokens, idx, findId, replaceWith);
      assert sourceTokens[..idx + 1] == sourceTokens[..idx] + [sourceTokens[idx]];
      if r[idx].token == Identifier(findId) {
        r := r[..idx] + replaceWith + r[idx + 1..];
      }
    }
    assert sourceTokens[0..] == sourceTokens;
  }

  function Substituted(d: Definition, using: Definition): Definition
  {
    Definition(d.name, ReplaceAll(d.tokens, using.name, using.tokens))
  }

  function SubstituteInto(defs: seq<Definition>, using: Definition): (r: seq<Definition>)
    ensures |r| == |defs|
  {
    seq(|defs|, k requires 0 <= k < |defs| => Substituted(defs[k], using))
  }

  /**
   * Applies the definitions in declaration order: the first is substituted
   * into every later definition and into the program, then the rest follow.
   */
  function ReplaceIdentifiersSpec(program: seq<TokenWithRange>, defs: seq<Definition>): seq<TokenWithRange>
    decreases |defs|
  {
    if defs == [] then program
    else ReplaceIdentifiersSpec(ReplaceAll(program, defs[0].name, defs[0].tokens), SubstituteInto(defs[1..], defs[0]))
  }

  function Reversed<T>(s: seq<T>): (r: seq<T>)
    ensures |r| == |s|
  {
    seq(|s|, k requires 0 <= k < |s| => s[|s| - 1 - k])
  }

  /** Reverses the definitions and pops them one by one, substituting each into the rest and the program. */
  method ReplaceIdentifiers(programTokens: seq<TokenWithRange>, definitionList: seq<Definition>)
    returns (r: seq<TokenWithRange>)
    ensures r == ReplaceIdentifiersSpec(programTokens, definitionList)
  {
    r := programTokens;
    var definitions := Reversed(definitionList);
    assert Reversed(definitions) == definitionList;
    while |definitions| > 0
      invariant ReplaceIdentifiersSpec(r, Reversed(definitions)) == ReplaceIdentifiersSpec(programTokens, definitionList)
      decreases |definitions|
    {
      ghost var all := definitions;
      var definition := definitions[|definitions| - 1];
      definitions := definitions[..|definitions| - 1];
      ghost var before := definitions;
      assert all == before + [definition];
      ghost var pending := [definition] + Reversed(before);
      assert Reversed(before + [definition]) == pending;
      assert pending[0] == definition && pending[1..] == Reversed(before);
      ghost var rBefore := r;
      var idx := |definitions|;
      while idx > 0
        invariant 0 <= idx <= |definitions| == |before|
        invariant forall k :: 0 <= k < idx ==> definitions[k] == before[k]
        invariant forall k :: idx <= k < |definitions| ==> definitions[k] == Substituted(before[k], definition)
        decreases idx
      {
        idx := idx - 1;
        var replaced := FindAndReplaceIdentifiers(definitions[idx].tokens, definition.name, definition.tokens);
        definitions := definitions[idx := Definition(definitions[idx].name, replaced)];
      }
      assert Reversed(definitions) == SubstituteInto(Reversed(before), definition);
      r := FindAndReplaceIdentifiers(r, definition.name, definition.tokens);
      assert ReplaceIdentifiersSpec(rBefore, pending) == ReplaceIdentifiersSpec(r, Reversed(definitions));
    }
  }

  // ---------------------------------------------------------------------
  // The pass

  function Expanded(tokens: seq<TokenWithRange>): Result<seq<TokenWithRange>>
  {
    match ExtractedDefinitions(RemoveComments(tokens))
    case Err(e) => Err(e)
    case Ok((programTokens, definitions)) => Ok(ReplaceIdentifiersSpec(programTokens, definitions))
  }

  method Expand(tokens: seq<TokenWithRange>) returns (r: Result<seq<TokenWithRange>>)
    ensures r == Expanded(tokens)
  {
    var cleanTokens := RemoveComments(tokens);
    var extracted := ExtractDefinitions(cleanTokens);
    if extracted.Err? {
      return Err(extracted.error);
    }
    var (programTokens, definitions) := extracted.value;
    var expandTokens := ReplaceIdentifiers(programTokens, definitions);
    r := Ok(expandTokens);
  }

  // ---------------------------------------------------------------------
  // Properties of the search for the closing parenthesis

  lemma {:induction false} DefinitionEndFromMatches(ts: seq<TokenWithRange>, start: nat, idx: nat, depth: nat, e: nat)
    requires start < idx <= |ts| && depth == Balance(ts, start + 1, idx)
    requires forall k :: start < k < idx && IsRightParen(ts[k]) ==> Balance(ts, start + 1, k) >= 2
    ensures DefinitionEndFrom(ts, idx, depth) == Some(e) <==> MatchingClose(ts, start, e)
    decreases |ts| - idx
  {
    assert e < idx ==> !MatchingClose(ts, start, e);
    if idx < |ts| {
      assert Balance(ts, start + 1, idx + 1) == depth + Delta(ts[idx]);
      if IsLeftParen(ts[idx]) {
        DefinitionEndFromMatches(ts, start, idx + 1, depth + 1, e);
      } else if IsRightParen(ts[idx]) {
        if e > idx && MatchingClose(ts, start, e) {
          assert Balance(ts, start + 1, idx) >= 2;
        }
        if depth >= 2 {
          DefinitionEndFromMatches(ts, start, idx + 1, depth - 1, e);
        }
      } else {
        DefinitionEndFromMatches(ts, start, idx + 1, depth, e);
      }
    }
  }

  /**
   * The statement whose `define` is at `start` ends at `e` exactly when `e`
   * is the `)` that brings the depth counted from `start` back from 1 to 0
   * with no `)` before it at depth 1 or 0.
   */
  lemma DefinitionEndIsMatchingClose(ts: seq<TokenWithRange>, start: nat, e: nat)
    requires start < |ts|
    ensures DefinitionEnd(ts, start) == Some(e) <==> MatchingClose(ts, start, e)
  {
    DefinitionEndFromMatches(ts, start, start + 1, 0, e);
  }

  /** A statement has at most one closing parenthesis. */
  lemma MatchingCloseUnique(ts: seq<TokenWithRange>, start: nat, e1: nat, e2: nat)
    requires MatchingClose(ts, start, e1) && MatchingClose(ts, start, e2)
    ensures e1 == e2
  {
    DefinitionEndIsMatchingClose(ts, start, e1);
    DefinitionEndIsMatchingClose(ts, start, e2);
  }

  lemma {:induction false} AsWrittenAgreesFrom(ts: seq<TokenWithRange>, idx: nat, depth: nat)
    requires idx <= |ts|
    ensures DefinitionEndFromAsWritten(ts, idx, depth).Found? <==> DefinitionEndFrom(ts, idx, depth).Some?
    ensures DefinitionEndFromAsWritten(ts, idx, depth).Found? ==>
              DefinitionEndFrom(ts, idx, depth) == Some(DefinitionEndFromAsWritten(ts, idx, depth).end)
    ensures DefinitionEndFromAsWritten(ts, idx, depth).Underflow? ==>
              var at := DefinitionEndFromAsWritten(ts, idx, depth).at;
              idx <= at < |ts| && IsRightParen(ts[at])
    decreases |ts| - idx
  {
    if idx < |ts| {
      if IsLeftParen(ts[idx]) {
        AsWrittenAgreesFrom(ts, idx + 1, depth + 1);
      } else if IsRightParen(ts[idx]) {
        if depth >= 2 {
          AsWrittenAgreesFrom(ts, idx + 1, depth - 1);
        }
      } else {
        AsWrittenAgreesFrom(ts, idx + 1, depth);
      }
    }
  }

  /**
   * The corrected search finds the same `)` as the written one whenever the
   * written one finds any; it reports no end exactly where the written one
   * reports none or underflows.
   */
  lemma AsWrittenAgrees(ts: seq<TokenWithRange>, start: nat)
    requires start < |ts|
    ensures DefinitionEndAsWritten(ts, start).Found? <==> DefinitionEnd(ts, start).Some?
    ensures DefinitionEndAsWritten(ts, start).Found? ==>
              DefinitionEnd(ts, start) == Some(DefinitionEndAsWritten(ts, start).end)
  {
    AsWrittenAgreesFrom(ts, start + 1, 0);
  }

  /**
   * `define )`: the search as written decrements the depth below zero at
   * the `)`; the corrected search reports that the statement has no end.
   */
  lemma CloseBeforeOpenUnderflows(define: Location, close: Location)
    ensures var ts := [TokenWithRange(Identifier("define"), define), TokenWithRange(RightParen, close)];
            DefinitionEndAsWritten(ts, 0) == Underflow(1) && DefinitionEnd(ts, 0) == None &&
            ExtractedDefinitions(ts) == Err(UnexpectedEndOfDocument)
  {
    var ts := [TokenWithRange(Identifier("define"), define), TokenWithRange(RightParen, close)];
    assert FirstDefine(ts) == Some(0);
  }

  // ---------------------------------------------------------------------
  // Properties of the extraction loop

  /** One successful round of the extraction loop: a definition is cut out of `ts`. */
  lemma ExtractStep(ts: seq<TokenWithRange>, defs: seq<Definition>) returns (rest: seq<TokenWithRange>, d: Definition)
    requires FirstDefine(ts).Some? && ExtractFrom(ts, defs).Ok?
    ensures |rest| < |ts| && ExtractFrom(ts, defs) == ExtractFrom(rest, defs + [d])
  {
    var start := FirstDefine(ts).value;
    var end := DefinitionEnd(ts, start).value;
    d := ExtractDefinition(ts[start..end + 1]).value;
    rest := ts[..start] + ts[end + 1..];
  }

  /** No token of `ts` is the word `define`. */
  predicate NoDefine(ts: seq<TokenWithRange>)
  {
    forall k :: 0 <= k < |ts| ==> !IsDefine(ts[k])
  }

  /** The program tokens left after extraction hold no `define`. */
  lemma {:induction false} NoDefineLeft(ts: seq<TokenWithRange>, defs: seq<Definition>)
    requires ExtractFrom(ts, defs).Ok?
    ensures NoDefine(ExtractFrom(ts, defs).value.0)
    decreases |ts|
  {
    match FirstDefine(ts)
    case None =>
      assert ExtractFrom(ts, defs).value.0 == ts;
    case Some(_) =>
      var rest, d := ExtractStep(ts, defs);
      NoDefineLeft(rest, defs + [d]);
  }

  /** The definitions already read stay first, in declaration order. */
  lemma {:induction false} DefinitionsInOrder(ts: seq<TokenWithRange>, defs: seq<Definition>)
    requires ExtractFrom(ts, defs).Ok?
    ensures |defs| <= |ExtractFrom(ts, defs).value.1| && ExtractFrom(ts, defs).value.1[..|defs|] == defs
    decreases |ts|
  {
    match FirstDefine(ts)
    case None =>
    case Some(_) =>
      var rest, d := ExtractStep(ts, defs);
      DefinitionsInOrder(rest, defs + [d]);
      var all := ExtractFrom(rest, defs + [d]).value.1;
      assert all[..|defs|] == all[..|defs| + 1][..|defs|];
  }

  /**
   * With the first `define` at `start` and its closing `)` at `e`, exactly the
   * tokens from `start` to `e` are cut out and read as the next definition.
   */
  lemma DrainsStatement(ts: seq<TokenWithRange>, defs: seq<Definition>, start: nat, e: nat)
    requires FirstDefine(ts) == Some(start) && MatchingClose(ts, start, e)
    ensures ExtractDefinition(ts[start..e + 1]).Err? ==>
              ExtractFrom(ts, defs) == Err(ExtractDefinition(ts[start..e + 1]).error)
    ensures ExtractDefinition(ts[start..e + 1]).Ok? ==>
              ExtractFrom(ts, defs) == ExtractFrom(ts[..start] + ts[e + 1..], defs + [ExtractDefinition(ts[start..e + 1]).value])
  {
    DefinitionEndIsMatchingClose(ts, start, e);
  }

  /** A `define` without its closing `)` makes the pass fail with UnexpectedEndOfDocument. */
  lemma UnclosedDefineFails(ts: seq<TokenWithRange>, defs: seq<Definition>, start: nat)
    requires FirstDefine(ts) == Some(start)
    requires forall e :: !MatchingClose(ts, start, e)
    ensures ExtractFrom(ts, defs) == Err(UnexpectedEndOfDocument)
  {
    if DefinitionEnd(ts, start).Some? {
      DefinitionEndIsMatchingClose(ts, start, DefinitionEnd(ts, start).value);
    }
  }

  // ---------------------------------------------------------------------
  // Properties of reading a statement

  /**
   * Round trip: a statement assembled from `define`, `(`, an optional new
   * line, a name, a comma or new line, a body and a closing token reads back
   * as that name and body.
   */
  lemma ExtractReadsStatement(define: TokenWithRange, open: TokenWithRange, newLine: seq<TokenWithRange>,
                              name: string, nameRange: Location, separator: TokenWithRange,
                              body: seq<TokenWithRange>, close: TokenWithRange)
    requires |newLine| <= 1 && (|newLine| == 1 ==> newLine[0].token.NewLine?)
    requires IsNewLineOrComma(separator)
    ensures ExtractDefinition([define, open] + newLine + [TokenWithRange(Identifier(name), nameRange), separator] + body + [close])
         == Ok(Definition(name, body))
  {
    var ts := [define, open] + newLine + [TokenWithRange(Identifier(name), nameRange), separator] + body + [close];
    var p := 2 + |newLine|;
    assert ts[p] == TokenWithRange(Identifier(name), nameRange) && ts[p + 1] == separator;
    if |newLine| == 0 {
      assert !ts[2].token.NewLine?;
    } else {
      assert ts[2] == newLine[0];
    }
    assert ts[p + 2..|ts| - 1] == body;
  }

  /** A statement whose name is not an identifier is reported at the start of the token before it. */
  lemma ExtractRejectsMissingName(define: TokenWithRange, open: TokenWithRange, notName: TokenWithRange,
                                  rest: seq<TokenWithRange>)
    requires !notName.token.Identifier? && !notName.token.NewLine?
    ensures ExtractDefinition([define, open, notName] + rest) == Err(MessageWithLocation(FromRangeStart(open.range)))
  {
  }

  /** A name followed by neither a comma nor a new line is reported at the start of that token. */
  lemma ExtractRejectsMissingSeparator(define: TokenWithRange, open: TokenWithRange, name: TokenWithRange,
                                       notSeparator: TokenWithRange, rest: seq<TokenWithRange>)
    requires name.token.Identifier? && !IsNewLineOrComma(notSeparator)
    ensures ExtractDefinition([define, open, name, notSeparator] + rest)
         == Err(MessageWithLocation(FromRangeStart(notSeparator.range)))
  {
  }

  /** A statement that stops after its name is an unexpected end of document. */
  lemma ExtractRejectsTruncated(define: TokenWithRange, open: TokenWithRange, name: TokenWithRange)
    requires name.token.Identifier?
    ensures ExtractDefinition([define, open, name]) == Err(UnexpectedEndOfDocument)
    ensures ExtractDefinition([define, open]) == Err(UnexpectedEndOfDocument)
  {
  }

  // ---------------------------------------------------------------------
  // Properties of substitution

  /** Substitution is a flat map: it distributes over concatenation... */
  lemma {:induction false} ReplaceAllAppend(a: seq<TokenWithRange>, b: seq<TokenWithRange>, findId: string, replaceWith: seq<TokenWithRange>)
    ensures ReplaceAll(a + b, findId, replaceWith) == ReplaceAll(a, findId, replaceWith) + ReplaceAll(b, findId, replaceWith)
  {
    if a == [] {
      assert a + b == b;
    } else {
      assert (a + b)[0] == a[0] && (a + b)[1..] == a[1..] + b;
      ReplaceAllAppend(a[1..], b, findId, replaceWith);
    }
  }

  /**
   * ...and maps a single token to the replacement when it is the identifier
   * sought, even when the replacement mentions that identifier again, and
   * to itself otherwise.
   */
  lemma ReplaceAllSingle(t: TokenWithRange, findId: string, replaceWith: seq<TokenWithRange>)
    ensures t.token == Identifier(findId) ==> ReplaceAll([t], findId, replaceWith) == replaceWith
    ensures t.token != Identifier(findId) ==> ReplaceAll([t], findId, replaceWith) == [t]
  {
    assert [t][1..] == [];
  }

  predicate NoMention(ts: seq<TokenWithRange>, name: string)
  {
    forall k :: 0 <= k < |ts| ==> ts[k].token != Identifier(name)
  }

  /** No identifier `m` appears after substitution if it appeared neither in the tokens nor in the replacement. */
  lemma {:induction false} ReplaceAllKeepsAbsent(ts: seq<TokenWithRange>, findId: string, replaceWith: seq<TokenWithRange>, m: string)
    requires (NoMention(ts, m) || m == findId) && NoMention(replaceWith, m)
    ensures NoMention(ReplaceAll(ts, findId, replaceWith), m)
  {
    if ts != [] {
      ReplaceAllKeepsAbsent(ts[1..], findId, replaceWith, m);
      var head := if ts[0].token == Identifier(findId) then replaceWith else [ts[0]];
      var r := ReplaceAll(ts, findId, replaceWith);
      assert r == head + ReplaceAll(ts[1..], findId, replaceWith);
      forall k | 0 <= k < |r|
        ensures r[k].token != Identifier(m)
      {
        if k >= |head| {
          assert r[k] == ReplaceAll(ts[1..], findId, replaceWith)[k - |head|];
        }
      }
    }
  }

  lemma {:induction false} ReplaceIdentifiersKeepsAbsent(program: seq<TokenWithRange>, defs: seq<Definition>, m: string)
    requires NoMention(program, m) && forall i :: 0 <= i < |defs| ==> NoMention(defs[i].tokens, m)
    ensures NoMention(ReplaceIdentifiersSpec(program, defs), m)
    decreases |defs|
  {
    if defs != [] {
      ReplaceAllKeepsAbsent(program, defs[0].name, defs[0].tokens, m);
      var rest := SubstituteInto(defs[1..], defs[0]);
      forall i | 0 <= i < |rest|
        ensures NoMention(rest[i].tokens, m)
      {
        ReplaceAllKeepsAbsent(defs[i + 1].tokens, defs[0].name, defs[0].tokens, m);
      }
      ReplaceIdentifiersKeepsAbsent(ReplaceAll(program, defs[0].name, defs[0].tokens), rest, m);
    }
  }

  /** Every definition mentions only names defined before it (none of its own or later ones). */
  predicate OnlyEarlierReferences(defs: seq<Definition>)
  {
    forall j, i :: 0 <= j <= i < |defs| ==> NoMention(defs[j].tokens, defs[i].name)
  }

  /**
   * When every definition refers only to definitions declared before it,
   * expansion leaves no identifier that names a definition.
   */
  lemma {:induction false} ReplaceLeavesNoDefinedName(program: seq<TokenWithRange>, defs: seq<Definition>)
    requires OnlyEarlierReferences(defs)
    ensures forall i :: 0 <= i < |defs| ==> NoMention(ReplaceIdentifiersSpec(program, defs), defs[i].name)
    decreases |defs|
  {
    if defs != [] {
      var d := defs[0];
      var program' := ReplaceAll(program, d.name, d.tokens);
      var rest := SubstituteInto(defs[1..], d);
      forall j, i | 0 <= j <= i < |rest|
        ensures NoMention(rest[j].tokens, rest[i].name)
      {
        ReplaceAllKeepsAbsent(defs[j + 1].tokens, d.name, d.tokens, defs[i + 1].name);
      }
      ReplaceLeavesNoDefinedName(program', rest);
      forall i | 0 <= i < |defs|
        ensures NoMention(ReplaceIdentifiersSpec(program, defs), defs[i].name)
      {
        if i == 0 {
          ReplaceAllKeepsAbsent(program, d.name, d.tokens, d.name);
          forall k | 0 <= k < |rest|
            ensures NoMention(rest[k].tokens, d.name)
          {
            ReplaceAllKeepsAbsent(defs[k + 1].tokens, d.name, d.tokens, d.name);
          }
          ReplaceIdentifiersKeepsAbsent(program', rest, d.name);
        } else {
          assert rest[i - 1].name == defs[i].name;
        }
      }
    }
  }

  /**
   * `define(a, 'a')`, `define(b, a+)`, then `a, b`: `a` is substituted into
   * `b` first, so the program expands to `'a', 'a'+`.
   */
  lemma DeclarationOrderExample(r: Location)
    ensures var a := Definition("a", [TokenWithRange(Char('a'), r)]);
            var b := Definition("b", [TokenWithRange(Identifier("a"), r), TokenWithRange(Plus, r)]);
            var program := [TokenWithRange(Identifier("a"), r), TokenWithRange(Comma, r), TokenWithRange(Identifier("b"), r)];
            ReplaceIdentifiersSpec(program, [a, b]) ==
              [TokenWithRange(Char('a'), r), TokenWithRange(Comma, r), TokenWithRange(Char('a'), r), TokenWithRange(Plus, r)]
  {
    var ia, ib := TokenWithRange(Identifier("a"), r), TokenWithRange(Identifier("b"), r);
    var ca, plus, comma := TokenWithRange(Char('a'), r), TokenWithRange(Plus, r), TokenWithRange(Comma, r);
    var a := Definition("a", [ca]);
    var b := Definition("b", [ia, plus]);
    var b' := Definition("b", [ca, plus]);
    var p1 := [ca, comma, ib];
    ExampleFirstRound(r);
    assert [a, b][1..] == [b];
    assert ReplaceIdentifiersSpec([ia, comma, ib], [a, b]) == ReplaceIdentifiersSpec(p1, [b']);
    ExampleSecondRound(r);
    assert [b'][1..] == [];
    assert ReplaceIdentifiersSpec(p1, [b']) == ReplaceIdentifiersSpec([ca, comma, ca, plus], []);
  }

  /** The example's first round: `a` is substituted into `b` and into the program. */
  lemma ExampleFirstRound(r: Location)
    ensures var a := [TokenWithRange(Char('a'), r)];
            && SubstituteInto([Definition("b", [TokenWithRange(Identifier("a"), r), TokenWithRange(Plus, r)])], Definition("a", a))
               == [Definition("b", [TokenWithRange(Char('a'), r), TokenWithRange(Plus, r)])]
            && ReplaceAll([TokenWithRange(Identifier("a"), r), TokenWithRange(Comma, r), TokenWithRange(Identifier("b"), r)], "a", a)
               == [TokenWithRange(Char('a'), r), TokenWithRange(Comma, r), TokenWithRange(Identifier("b"), r)]
  {
    var ia, ib := TokenWithRange(Identifier("a"), r), TokenWithRange(Identifier("b"), r);
    var ca, comma := TokenWithRange(Char('a'), r), TokenWithRange(Comma, r);
    ExampleFirstRoundIntoB(r);
    ReplaceAllCons(ib, [], "a", [ca]);
    ReplaceAllCons(comma, [ib], "a", [ca]);
    ReplaceAllCons(ia, [comma, ib], "a", [ca]);
    assert [ib] + [] == [ib] && [comma] + [ib] == [comma, ib] && [ia] + [comma, ib] == [ia, comma, ib];
  }

  /** `a` substituted into the body of `b`. */
  lemma ExampleFirstRoundIntoB(r: Location)
    ensures ReplaceAll([TokenWithRange(Identifier("a"), r), TokenWithRange(Plus, r)], "a", [TokenWithRange(Char('a'), r)])
         == [TokenWithRange(Char('a'), r), TokenWithRange(Plus, r)]
  {
    var ia, ca, plus := TokenWithRange(Identifier("a"), r), TokenWithRange(Char('a'), r), TokenWithRange(Plus, r);
    ReplaceAllCons(plus, [], "a", [ca]);
    ReplaceAllCons(ia, [plus], "a", [ca]);
    assert [plus] + [] == [plus] && [ia] + [plus] == [ia, plus];
  }

  /** The example's second round: the substituted `b` is substituted into the program. */
  lemma ExampleSecondRound(r: Location)
    ensures var b := [TokenWithRange(Char('a'), r), TokenWithRange(Plus, r)];
            ReplaceAll([TokenWithRange(Char('a'), r), TokenWithRange(Comma, r), TokenWithRange(Identifier("b"), r)], "b", b)
            == [TokenWithRange(Char('a'), r), TokenWithRange(Comma, r), TokenWithRange(Char('a'), r), TokenWithRange(Plus, r)]
  {
    var ib := TokenWithRange(Identifier("b"), r);
    var ca, plus, comma := TokenWithRange(Char('a'), r), TokenWithRange(Plus, r), TokenWithRange(Comma, r);
    ReplaceAllCons(ib, [], "b", [ca, plus]);
    ReplaceAllCons(comma, [ib], "b", [ca, plus]);
    ReplaceAllCons(ca, [comma, ib], "b", [ca, plus]);
    assert [ib] + [] == [ib] && [comma] + [ib] == [comma, ib] && [ca] + [comma, ib] == [ca, comma, ib];
  }

  lemma ReplaceAllCons(t: TokenWithRange, rest: seq<TokenWithRange>, findId: string, replaceWith: seq<TokenWithRange>)
    ensures ReplaceAll([t] + rest, findId, replaceWith)
         == (if t.token == Identifier(findId) then replaceWith else [t]) + ReplaceAll(rest, findId, replaceWith)
  {
    assert ([t] + rest)[0] == t && ([t] + rest)[1..] == rest;
  }
}
