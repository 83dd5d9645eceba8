/**
 * The comment cleaner: the first pass over the token stream, which drops
 * every comment token and keeps everything else as it is.
 */
module CommentCleaner {
  import opened Tokens

  predicate IsComment(t: TokenWithRange) { t.token.Comment? }

  /** The tokens of `ts` that are not comments, in order. */
  function NonComments(ts: seq<TokenWithRange>): (r: seq<TokenWithRange>)
  {
    if ts == [] then []
    else NonComments(ts[..|ts| - 1]) + (if IsComment(ts[|ts| - 1]) then [] else [ts[|ts| - 1]])
  }

  /** The number of comment tokens in `ts`. */
  function CountComments(ts: seq<TokenWithRange>): nat
  {
    if ts == [] then 0
    else CountComments(ts[..|ts| - 1]) + (if IsComment(ts[|ts| - 1]) then 1 else 0)
  }

  /** The indices of the tokens of `ts` that are not comments, in increasing order. */
  function KeptIndices(ts: seq<TokenWithRange>): seq<nat>
  {
    if ts == [] then []
    else KeptIndices(ts[..|ts| - 1]) + (if IsComment(ts[|ts| - 1]) then [] else [|ts| - 1])
  }

  /** Reads the tokens one by one and keeps those that are not comments. */
  method Clean(tokens: seq<TokenWithRange>) returns (cleanTokens: seq<TokenWithRange>)
    ensures cleanTokens == NonComments(tokens)
  {
    cleanTokens := [];
    var i := 0;
    while i < |tokens|
      invariant i <= |tokens|
      invariant cleanTokens == NonComments(tokens[..i])
    {
      var tr := tokens[i];
      assert tokens[..i + 1][..i] == tokens[..i];
      if !tr.token.Comment? {
        cleanTokens := cleanTokens + [tr];
      }
      i := i + 1;
    }
    assert tokens[..i] == tokens;
  }

  /** The output holds no comment. */
  lemma {:induction false} NoCommentLeft(ts: seq<TokenWithRange>)
    ensures forall k :: 0 <= k < |NonComments(ts)| ==> !IsComment(NonComments(ts)[k])
  {
    if ts != [] {
      NoCommentLeft(ts[..|ts| - 1]);
    }
  }

  /** The output is as long as the input less its comments. */
  lemma {:induction false} CleanLength(ts: seq<TokenWithRange>)
    ensures |NonComments(ts)| == |ts| - CountComments(ts)
    ensures CountComments(ts) <= |ts|
  {
    if ts != [] {
      CleanLength(ts[..|ts| - 1]);
    }
  }

  /** One kept index per output token. */
  lemma {:induction false} KeptIndicesLength(ts: seq<TokenWithRange>)
    ensures |KeptIndices(ts)| == |NonComments(ts)|
  {
    if ts != [] {
      KeptIndicesLength(ts[..|ts| - 1]);
    }
  }

  /** The kept indices are input positions, in increasing order. */
  lemma {:induction false} KeptIndicesIncrease(ts: seq<TokenWithRange>)
    ensures forall k :: 0 <= k < |KeptIndices(ts)| ==> KeptIndices(ts)[k] < |ts|
    ensures forall k, l :: 0 <= k < l < |KeptIndices(ts)| ==> KeptIndices(ts)[k] < KeptIndices(ts)[l]
  {
    if ts != [] {
      KeptIndicesIncrease(ts[..|ts| - 1]);
    }
  }

  /** The k-th output token is the input token at the k-th kept index. */
  lemma {:induction false} KeptIndicesPick(ts: seq<TokenWithRange>)
    requires |KeptIndices(ts)| == |NonComments(ts)|
    requires forall k :: 0 <= k < |KeptIndices(ts)| ==> KeptIndices(ts)[k] < |ts|
    ensures forall k :: 0 <= k < |KeptIndices(ts)| ==> NonComments(ts)[k] == ts[KeptIndices(ts)[k]]
  {
    if ts != [] {
      var init := ts[..|ts| - 1];
      KeptIndicesLength(init);
      KeptIndicesIncrease(init);
      KeptIndicesPick(init);
      forall k | 0 <= k < |KeptIndices(init)|
        ensures NonComments(ts)[k] == ts[KeptIndices(ts)[k]]
      {
        assert ts[KeptIndices(init)[k]] == init[KeptIndices(init)[k]];
      }
    }
  }

  /** An index is kept exactly when its token is not a comment. */
  lemma {:induction false} KeptIndicesExact(ts: seq<TokenWithRange>)
    ensures forall m :: 0 <= m < |ts| ==> (m in KeptIndices(ts) <==> !IsComment(ts[m]))
  {
    if ts != [] {
      var init := ts[..|ts| - 1];
      KeptIndicesExact(init);
      KeptIndicesIncrease(init);
      forall m | 0 <= m < |ts|
        ensures m in KeptIndices(ts) <==> !IsComment(ts[m])
      {
        if m < |init| {
          assert ts[m] == init[m];
        } else {
          assert m !in KeptIndices(init);
        }
      }
    }
  }

  /**
   * Every token that is not a comment is kept, unchanged (range included)
   * and in its original order: the k-th output token is the input token at
   * the k-th kept index, the kept indices increase, and they are exactly the
   * indices of the tokens that are not comments.
   */
  lemma CleanKeepsOthersInOrder(ts: seq<TokenWithRange>)
    ensures |KeptIndices(ts)| == |NonComments(ts)|
    ensures forall k :: 0 <= k < |KeptIndices(ts)| ==>
              KeptIndices(ts)[k] < |ts| && NonComments(ts)[k] == ts[KeptIndices(ts)[k]]
    ensures forall k, l :: 0 <= k < l < |KeptIndices(ts)| ==> KeptIndices(ts)[k] < KeptIndices(ts)[l]
    ensures forall m :: 0 <= m < |ts| ==> (m in KeptIndices(ts) <==> !IsComment(ts[m]))
  {
    KeptIndicesLength(ts);
    KeptIndicesIncrease(ts);
    KeptIndicesPick(ts);
    KeptIndicesExact(ts);
  }

  /** Cleaning twice is cleaning once. */
  lemma {:induction false} CleanIdempotent(ts: seq<TokenWithRange>)
    ensures NonComments(NonComments(ts)) == NonComments(ts)
  {
    NoCommentLeft(ts);
    NoCommentsUnchanged(NonComments(ts));
  }

  /** A stream without comments is left as it is. */
  lemma {:induction false} NoCommentsUnchanged(ts: seq<TokenWithRange>)
    requires forall k :: 0 <= k < |ts| ==> !IsComment(ts[k])
    ensures NonComments(ts) == ts
  {
    if ts != [] {
      NoCommentsUnchanged(ts[..|ts| - 1]);
    }
  }

  /** Cleaning distributes over concatenation. */
  lemma {:induction false} CleanAppend(a: seq<TokenWithRange>, b: seq<TokenWithRange>)
    ensures NonComments(a + b) == NonComments(a) + NonComments(b)
    decreases |b|
  {
    if b == [] {
      assert a + b == a;
    } else {
      assert (a + b)[..|a + b| - 1] == a + b[..|b| - 1];
      CleanAppend(a, b[..|b| - 1]);
    }
  }
}
