/**
 * Properties of the compiler's fragments: the shape of each construction
 * (which nodes it adds and which transitions, in which order), the
 * equivalences between quantifier forms, the meaning of charset flattening,
 * and the program's outer capture group and fixed ends.
 */
module CompilerProperties {
  import opened Errors
  import Ast
  import Tokens
  import opened Route
  import opened Fragments
  import Compiler

  /** The transitions of node `n` on the current line. */
  function Items(t: Building, n: nat): seq<TransitionItem>
    requires t.Valid() && n < t.NodeCount()
  {
    t.CurrentLine().nodes[n].transitionItems
  }

  /** Nodes below `n` of the current line are those of `s`. */
  predicate SameBelow(s: Building, t: Building, n: nat)
    requires s.Valid() && t.Valid() && n <= s.NodeCount() && n <= t.NodeCount()
  {
    t.CurrentLine().nodes[..n] == s.CurrentLine().nodes[..n]
  }

  // ---------------------------------------------------------------------
  // Building blocks

  /** `Single` adds two nodes, the first with one transition `t` to the second. */
  lemma SingleShape(s: Building, t: Transition)
    requires s.Valid()
    ensures var (port, s1) := Single(s, t);
      var n := s.NodeCount();
      && port == Port(n, n + 1) && s1.NodeCount() == n + 2
      && Items(s1, n) == [TransitionItem(t, n + 1)] && Items(s1, n + 1) == []
      && SameBelow(s, s1, n)
  {
    var n := s.NodeCount();
    var (s1, a) := s.NewNode();
    var (s2, b) := s1.NewNode();
    assert s2.CurrentLine().nodes[..n] == s.CurrentLine().nodes;
  }

  /**
   * `Wrap` adds an entry node whose only transition is `enter` into the
   * fragment, and an exit node with none; `leave` is appended to the
   * fragment's exit node, and no other node changes.
   */
  lemma WrapShape(port: Port, enter: Transition, leave: Transition, s: Building)
    requires s.Valid() && port.inNodeIndex < s.NodeCount() && port.outNodeIndex < s.NodeCount()
    ensures var (p, s1) := Wrap(port, enter, leave, s);
      var n := s.NodeCount();
      && p == Port(n, n + 1) && s1.NodeCount() == n + 2
      && Items(s1, n) == [TransitionItem(enter, port.inNodeIndex)] && Items(s1, n + 1) == []
      && Items(s1, port.outNodeIndex) == Items(s, port.outNodeIndex) + [TransitionItem(leave, n + 1)]
      && (forall k :: 0 <= k < n && k != port.outNodeIndex ==> Items(s1, k) == Items(s, k))
  {
  }

  /**
   * Alternation's entry jumps to the left fragment before the right one, and
   * each fragment's exit gets a jump to the new exit node.
   */
  lemma BranchShape(left: Port, right: Port, s: Building)
    requires s.Valid()
    requires left.inNodeIndex < s.NodeCount() && left.outNodeIndex < s.NodeCount()
    requires right.inNodeIndex < s.NodeCount() && right.outNodeIndex < s.NodeCount()
    requires left.outNodeIndex != right.outNodeIndex
    ensures var (p, s1) := Branch(left, right, s);
      var n := s.NodeCount();
      && p == Port(n, n + 1) && s1.NodeCount() == n + 2
      && Items(s1, n) == [TransitionItem(Jump, left.inNodeIndex), TransitionItem(Jump, right.inNodeIndex)]
      && Items(s1, n + 1) == []
      && Items(s1, left.outNodeIndex) == Items(s, left.outNodeIndex) + [TransitionItem(Jump, n + 1)]
      && Items(s1, right.outNodeIndex) == Items(s, right.outNodeIndex) + [TransitionItem(Jump, n + 1)]
  {
  }

  /**
   * An optional fragment's entry lists the jump into the fragment before the
   * jump past it when greedy, and the jump past it first when lazy.
   */
  lemma OptionalShape(port: Port, lazy: bool, s: Building, s0: Building)
    requires s0.Valid() && s.Valid() && Grows(s0, s) && Fresh(s0, port, s)
    ensures var (p, s1) := ContinueOptional(port, lazy, s, s0);
      var n := s.NodeCount();
      && p == Port(n, n + 1) && s1.NodeCount() == n + 2
      && Items(s1, n) == (if lazy then [TransitionItem(Jump, n + 1), TransitionItem(Jump, port.inNodeIndex)]
                         else [TransitionItem(Jump, port.inNodeIndex), TransitionItem(Jump, n + 1)])
      && Items(s1, n + 1) == []
      && Items(s1, port.outNodeIndex) == Items(s, port.outNodeIndex) + [TransitionItem(Jump, n + 1)]
  {
  }

  /** Appending to node `source` changes only that node's list, at its end. */
  lemma AppendItems(s: Building, source: nat, target: nat, t: Transition, k: nat)
    requires s.Valid() && source < s.NodeCount() && k < s.NodeCount()
    ensures Items(s.Append(source, target, t), k) ==
      if k == source then Items(s, k) + [TransitionItem(t, target)] else Items(s, k)
  {
  }

  /** A new node has no transitions, and the others keep theirs. */
  lemma NewNodeItems(s: Building, k: nat)
    requires s.Valid()
    ensures k < s.NodeCount() ==> Items(s.NewNode().0, k) == Items(s, k)
    ensures k == s.NodeCount() ==> Items(s.NewNode().0, k) == []
  {
  }

  /** The first part of `Loop`: the counter, three nodes and the transitions into the fragment. */
  ghost function LoopHead(port: Port, s: Building): (h: Building)
    requires s.Valid() && port.inNodeIndex < s.NodeCount() && port.outNodeIndex < s.NodeCount()
  {
    var (s1, counter) := s.NewCounter();
    var (s2, inNode) := s1.NewNode();
    var (s3, leftNode) := s2.NewNode();
    var (s4, rightNode) := s3.NewNode();
    var s5 := s4.Append(inNode, leftNode, CounterReset(counter));
    var s6 := s5.Append(leftNode, port.inNodeIndex, Jump);
    s6.Append(port.outNodeIndex, rightNode, CounterInc(counter))
  }

  lemma LoopHeadShape(port: Port, s: Building)
    requires s.Valid() && port.inNodeIndex < s.NodeCount() && port.outNodeIndex < s.NodeCount()
    ensures var h := LoopHead(port, s);
      var n := s.NodeCount();
      var counter := s.route.numberOfCounters;
      && h.Valid() && h.NodeCount() == n + 3
      && Items(h, n) == [TransitionItem(CounterReset(counter), n + 1)]
      && Items(h, n + 1) == [TransitionItem(Jump, port.inNodeIndex)]
      && Items(h, n + 2) == []
      && Items(h, port.outNodeIndex) == Items(s, port.outNodeIndex) + [TransitionItem(CounterInc(counter), n + 2)]
  {
    var n := s.NodeCount();
    var o := port.outNodeIndex;
    var (s1, counter) := s.NewCounter();
    var (s2, inNode) := s1.NewNode();
    var (s3, leftNode) := s2.NewNode();
    var (s4, rightNode) := s3.NewNode();
    var s5 := s4.Append(inNode, leftNode, CounterReset(counter));
    var s6 := s5.Append(leftNode, port.inNodeIndex, Jump);
    var s7 := s6.Append(o, rightNode, CounterInc(counter));
    forall k | k in {n, n + 1, n + 2, o}
      ensures Items(s7, k) == Items(s4, k) + (if k == n then [TransitionItem(CounterReset(counter), n + 1)] else [])
                             + (if k == n + 1 then [TransitionItem(Jump, port.inNodeIndex)] else [])
                             + (if k == o then [TransitionItem(CounterInc(counter), n + 2)] else [])
    {
      AppendItems(s4, inNode, leftNode, CounterReset(counter), k);
      AppendItems(s5, leftNode, port.inNodeIndex, Jump, k);
      AppendItems(s6, o, rightNode, CounterInc(counter), k);
    }
    forall k | k in {n, n + 1, n + 2, o}
      ensures Items(s4, k) == if k < n then Items(s, k) else []
    {
      NewNodeItems(s1, k); NewNodeItems(s2, k); NewNodeItems(s3, k);
    }
  }

  /** The rest of the lazy `Loop` after its head `h`: the exit node and the transitions out of node `n + 2`. */
  ghost function LazyTail(h: Building, n: nat, counter: nat, repetition: RepetitionType): (r: (Port, Building))
    requires h.Valid() && h.NodeCount() == n + 3
    ensures r.0 == Port(n, n + 3) && r.1.Valid() && r.1.NodeCount() == n + 4
  {
    var (s8, outNode) := h.NewNode();
    var s9 := s8.Append(n + 2, outNode, CounterCheck(counter, repetition));
    (Port(n, outNode), s9.Append(n + 2, n + 1, Repetition(counter, repetition)))
  }

  /**
   * What a lazy loop's tail adds after head `h`: node `n + 2` first leaves
   * through the exit `n + 3` when the count allows, and only then goes round
   * again.
   */
  predicate LazyShaped(r: (Port, Building), h: Building, n: nat, counter: nat, repetition: RepetitionType)
    requires h.Valid() && h.NodeCount() == n + 3
  {
    var (p, s1) := r;
    && p == Port(n, n + 3) && s1.Valid() && s1.NodeCount() == n + 4
    && (forall k :: 0 <= k < n + 2 ==> Items(s1, k) == Items(h, k))
    && Items(s1, n + 2) == [TransitionItem(CounterCheck(counter, repetition), n + 3),
                            TransitionItem(Repetition(counter, repetition), n + 1)]
    && Items(s1, n + 3) == []
  }

  lemma LazyTailItems(h: Building, n: nat, counter: nat, repetition: RepetitionType, k: nat)
    requires h.Valid() && h.NodeCount() == n + 3 && Items(h, n + 2) == [] && k < n + 4
    ensures Items(LazyTail(h, n, counter, repetition).1, k) ==
      if k < n + 2 then Items(h, k)
      else if k == n + 2 then [TransitionItem(CounterCheck(counter, repetition), n + 3),
                               TransitionItem(Repetition(counter, repetition), n + 1)]
      else []
  {
    var (s8, outNode) := h.NewNode();
    var s9 := s8.Append(n + 2, outNode, CounterCheck(counter, repetition));
    NewNodeItems(h, k);
    AppendItems(s8, n + 2, outNode, CounterCheck(counter, repetition), k);
    AppendItems(s9, n + 2, n + 1, Repetition(counter, repetition), k);
  }

  lemma LazyTailShape(h: Building, n: nat, counter: nat, repetition: RepetitionType)
    requires h.Valid() && h.NodeCount() == n + 3 && Items(h, n + 2) == []
    ensures LazyShaped(LazyTail(h, n, counter, repetition), h, n, counter, repetition)
  {
    forall k | 0 <= k < n + 4 {
      LazyTailItems(h, n, counter, repetition, k);
    }
  }

  /**
   * The rest of the greedy `Loop` after its head `h`: an anchor node, a
   * branch node and the exit node, and the transitions out of node `n + 2`.
   */
  ghost function GreedyTail(h: Building, n: nat, counter: nat, repetition: RepetitionType): (r: (Port, Building))
    requires h.Valid() && h.NodeCount() == n + 3
    ensures r.0 == Port(n, n + 5) && r.1.Valid() && r.1.NodeCount() == n + 6
  {
    var (s8, anchorNode) := h.NewNode();
    var (s9, branchNode) := s8.NewNode();
    var (s10, outNode) := s9.NewNode();
    var s11 := s10.Append(n + 2, n + 1, RepetitionAnchor(counter, repetition));
    var s12 := s11.Append(n + 2, anchorNode, CounterCheck(counter, repetition));
    var s13 := s12.Append(anchorNode, branchNode, Jump);
    var s14 := s13.Append(branchNode, outNode, Jump);
    (Port(n, outNode), s14.Append(branchNode, anchorNode, Backtrack(counter, anchorNode)))
  }

  /**
   * What a greedy loop's tail adds after head `h`: node `n + 2` first goes
   * round again, leaving an anchor, then checks the count and goes to the
   * anchor node `n + 3`, which jumps to the branch node `n + 4`; that one
   * leaves through the exit `n + 5` or backtracks to the anchor.
   */
  predicate GreedyShaped(r: (Port, Building), h: Building, n: nat, counter: nat, repetition: RepetitionType)
    requires h.Valid() && h.NodeCount() == n + 3
  {
    var (p, s1) := r;
    && p == Port(n, n + 5) && s1.Valid() && s1.NodeCount() == n + 6
    && (forall k :: 0 <= k < n + 2 ==> Items(s1, k) == Items(h, k))
    && Items(s1, n + 2) == [TransitionItem(RepetitionAnchor(counter, repetition), n + 1),
                            TransitionItem(CounterCheck(counter, repetition), n + 3)]
    && Items(s1, n + 3) == [TransitionItem(Jump, n + 4)]
    && Items(s1, n + 4) == [TransitionItem(Jump, n + 5), TransitionItem(Backtrack(counter, n + 3), n + 3)]
    && Items(s1, n + 5) == []
  }

  lemma GreedyTailItems(h: Building, n: nat, counter: nat, repetition: RepetitionType, k: nat)
    requires h.Valid() && h.NodeCount() == n + 3 && Items(h, n + 2) == [] && k < n + 6
    ensures Items(GreedyTail(h, n, counter, repetition).1, k) ==
      if k < n + 2 then Items(h, k)
      else if k == n + 2 then [TransitionItem(RepetitionAnchor(counter, repetition), n + 1),
                               TransitionItem(CounterCheck(counter, repetition), n + 3)]
      else if k == n + 3 then [TransitionItem(Jump, n + 4)]
      else if k == n + 4 then [TransitionItem(Jump, n + 5), TransitionItem(Backtrack(counter, n + 3), n + 3)]
      else []
  {
    var (s8, anchorNode) := h.NewNode();
    var (s9, branchNode) := s8.NewNode();
    var (s10, outNode) := s9.NewNode();
    var s11 := s10.Append(n + 2, n + 1, RepetitionAnchor(counter, repetition));
    var s12 := s11.Append(n + 2, anchorNode, CounterCheck(counter, repetition));
    var s13 := s12.Append(anchorNode, branchNode, Jump);
    var s14 := s13.Append(branchNode, outNode, Jump);
    NewNodeItems(h, k); NewNodeItems(s8, k); NewNodeItems(s9, k);
    AppendItems(s10, n + 2, n + 1, RepetitionAnchor(counter, repetition), k);
    AppendItems(s11, n + 2, anchorNode, CounterCheck(counter, repetition), k);
    AppendItems(s12, anchorNode, branchNode, Jump, k);
    AppendItems(s13, branchNode, outNode, Jump, k);
    AppendItems(s14, branchNode, anchorNode, Backtrack(counter, anchorNode), k);
  }

  lemma GreedyTailShape(h: Building, n: nat, counter: nat, repetition: RepetitionType)
    requires h.Valid() && h.NodeCount() == n + 3 && Items(h, n + 2) == []
    ensures GreedyShaped(GreedyTail(h, n, counter, repetition), h, n, counter, repetition)
  {
    forall k | 0 <= k < n + 6 {
      GreedyTailItems(h, n, counter, repetition, k);
    }
  }

  /** The lazy `Loop` is its head followed by the lazy tail. */
  lemma LazyLoopSplits(port: Port, repetition: RepetitionType, s: Building)
    requires s.Valid() && port.inNodeIndex < s.NodeCount() && port.outNodeIndex < s.NodeCount()
    ensures LoopHead(port, s).Valid() && LoopHead(port, s).NodeCount() == s.NodeCount() + 3
    ensures Fragments.Loop(port, repetition, true, s) ==
      LazyTail(LoopHead(port, s), s.NodeCount(), s.route.numberOfCounters, repetition)
  {
    LoopHeadShape(port, s);
  }

  /** The greedy `Loop` is its head followed by the greedy tail. */
  lemma GreedyLoopSplits(port: Port, repetition: RepetitionType, s: Building)
    requires s.Valid() && port.inNodeIndex < s.NodeCount() && port.outNodeIndex < s.NodeCount()
    ensures LoopHead(port, s).Valid() && LoopHead(port, s).NodeCount() == s.NodeCount() + 3
    ensures Fragments.Loop(port, repetition, false, s) ==
      GreedyTail(LoopHead(port, s), s.NodeCount(), s.route.numberOfCounters, repetition)
  {
    LoopHeadShape(port, s);
  }

  /**
   * The lazy loop around a fragment: the head of `LoopHeadShape`, then after
   * each pass the exit is tried before going round again.
   */
  lemma LazyLoopShape(port: Port, repetition: RepetitionType, s: Building)
    requires s.Valid() && port.inNodeIndex < s.NodeCount() && port.outNodeIndex < s.NodeCount()
    ensures LoopHead(port, s).Valid() && LoopHead(port, s).NodeCount() == s.NodeCount() + 3
    ensures LazyShaped(Fragments.Loop(port, repetition, true, s), LoopHead(port, s), s.NodeCount(), s.route.numberOfCounters, repetition)
  {
    LoopHeadShape(port, s);
    LazyTailShape(LoopHead(port, s), s.NodeCount(), s.route.numberOfCounters, repetition);
    LazyLoopSplits(port, repetition, s);
  }

  /**
   * The greedy loop around a fragment: the head of `LoopHeadShape`, then
   * after each pass going round again is tried first, with an anchor to
   * backtrack to, and the exit after it.
   */
  lemma GreedyLoopShape(port: Port, repetition: RepetitionType, s: Building)
    requires s.Valid() && port.inNodeIndex < s.NodeCount() && port.outNodeIndex < s.NodeCount()
    ensures LoopHead(port, s).Valid() && LoopHead(port, s).NodeCount() == s.NodeCount() + 3
    ensures GreedyShaped(Fragments.Loop(port, repetition, false, s), LoopHead(port, s), s.NodeCount(), s.route.numberOfCounters, repetition)
  {
    LoopHeadShape(port, s);
    GreedyTailShape(LoopHead(port, s), s.NodeCount(), s.route.numberOfCounters, repetition);
    GreedyLoopSplits(port, repetition, s);
  }

  // ---------------------------------------------------------------------
  // Quantifiers: the forms that compile alike

  /** The expression `name(e, args...)`. */
  function Call(name: Ast.FunctionName, e: Ast.Expression, args: seq<Ast.FunctionCallArg>): Ast.Expression
  {
    Ast.Expression.FunctionCall(Ast.FunctionCall.FunctionCall(name, e, args))
  }

  function Num(n: nat): Ast.FunctionCallArg
    requires n < 0x1_0000_0000
  {
    Ast.FunctionCallArg.Number(n as Tokens.u32)
  }

  lemma CallUnfolds(name: Ast.FunctionName, e: Ast.Expression, args: seq<Ast.FunctionCallArg>, s: Building)
    requires s.Valid()
    ensures Emit(Call(name, e, args), s) == EmitFunctionCall(Ast.FunctionCall.FunctionCall(name, e, args), s)
  {
  }

  /** A range whose lower bound exceeds its upper bound is refused. */
  lemma ReversedRangeRefused(e: Ast.Expression, from: nat, to: nat, lazy: bool, s: Building)
    requires s.Valid() && from < 0x1_0000_0000 && to < 0x1_0000_0000 && from > to
    ensures Emit(Call(if lazy then Ast.FunctionName.RepeatRangeLazy else Ast.FunctionName.RepeatRange, e, [Num(from), Num(to)]), s) == Err(Message)
  {
    CallUnfolds(if lazy then Ast.FunctionName.RepeatRangeLazy else Ast.FunctionName.RepeatRange, e, [Num(from), Num(to)], s);
  }

  /** `{0}` and `{0,0}` match the empty string: a single jump. */
  lemma RepeatZeroIsEmpty(e: Ast.Expression, lazy: bool, s: Building)
    requires s.Valid()
    ensures Emit(Call(Ast.FunctionName.Repeat, e, [Num(0)]), s) == Ok(EmitEmpty(s))
    ensures Emit(Call(if lazy then Ast.FunctionName.RepeatRangeLazy else Ast.FunctionName.RepeatRange, e, [Num(0), Num(0)]), s) == Ok(EmitEmpty(s))
  {
    CallUnfolds(Ast.FunctionName.Repeat, e, [Num(0)], s);
    CallUnfolds(if lazy then Ast.FunctionName.RepeatRangeLazy else Ast.FunctionName.RepeatRange, e, [Num(0), Num(0)], s);
  }

  /** `{1}` and `{1,1}` are the expression itself. */
  lemma RepeatOneIsExpression(e: Ast.Expression, lazy: bool, s: Building)
    requires s.Valid()
    ensures Emit(Call(Ast.FunctionName.Repeat, e, [Num(1)]), s) == Emit(e, s)
    ensures Emit(Call(if lazy then Ast.FunctionName.RepeatRangeLazy else Ast.FunctionName.RepeatRange, e, [Num(1), Num(1)]), s) == Emit(e, s)
  {
    CallUnfolds(Ast.FunctionName.Repeat, e, [Num(1)], s);
    CallUnfolds(if lazy then Ast.FunctionName.RepeatRangeLazy else Ast.FunctionName.RepeatRange, e, [Num(1), Num(1)], s);
  }

  /** `{m,m}`, greedy or lazy, compiles as `{m}`. */
  lemma RepeatRangeSameIsRepeat(e: Ast.Expression, m: nat, lazy: bool, s: Building)
    requires s.Valid() && m < 0x1_0000_0000
    ensures Emit(Call(if lazy then Ast.FunctionName.RepeatRangeLazy else Ast.FunctionName.RepeatRange, e, [Num(m), Num(m)]), s)
         == Emit(Call(Ast.FunctionName.Repeat, e, [Num(m)]), s)
  {
    CallUnfolds(Ast.FunctionName.Repeat, e, [Num(m)], s);
    CallUnfolds(if lazy then Ast.FunctionName.RepeatRangeLazy else Ast.FunctionName.RepeatRange, e, [Num(m), Num(m)], s);
  }

  /** `{0,1}` compiles as `?` (and its lazy form as `??`). */
  lemma RepeatRangeZeroOneIsOptional(e: Ast.Expression, lazy: bool, s: Building)
    requires s.Valid()
    ensures Emit(Call(if lazy then Ast.FunctionName.RepeatRangeLazy else Ast.FunctionName.RepeatRange, e, [Num(0), Num(1)]), s)
         == Emit(Call(if lazy then Ast.FunctionName.OptionalLazy else Ast.FunctionName.Optional, e, []), s)
  {
    CallUnfolds(if lazy then Ast.FunctionName.RepeatRangeLazy else Ast.FunctionName.RepeatRange, e, [Num(0), Num(1)], s);
    CallUnfolds(if lazy then Ast.FunctionName.OptionalLazy else Ast.FunctionName.Optional, e, [], s);
  }

  /** `{0,}` compiles as `*`, greedy or lazy alike. */
  lemma AtLeastZeroIsZeroOrMore(e: Ast.Expression, lazy: bool, s: Building)
    requires s.Valid()
    ensures Emit(Call(if lazy then Ast.FunctionName.AtLeastLazy else Ast.FunctionName.AtLeast, e, [Num(0)]), s)
         == Emit(Call(if lazy then Ast.FunctionName.ZeroOrMoreLazy else Ast.FunctionName.ZeroOrMore, e, []), s)
  {
    CallUnfolds(if lazy then Ast.FunctionName.AtLeastLazy else Ast.FunctionName.AtLeast, e, [Num(0)], s);
    CallUnfolds(if lazy then Ast.FunctionName.ZeroOrMoreLazy else Ast.FunctionName.ZeroOrMore, e, [], s);
  }

  /** `{1,}` compiles as `+`, greedy or lazy alike. */
  lemma AtLeastOneIsOneOrMore(e: Ast.Expression, lazy: bool, s: Building)
    requires s.Valid()
    ensures Emit(Call(if lazy then Ast.FunctionName.AtLeastLazy else Ast.FunctionName.AtLeast, e, [Num(1)]), s)
         == Emit(Call(if lazy then Ast.FunctionName.OneOrMoreLazy else Ast.FunctionName.OneOrMore, e, []), s)
  {
    CallUnfolds(if lazy then Ast.FunctionName.AtLeastLazy else Ast.FunctionName.AtLeast, e, [Num(1)], s);
    CallUnfolds(if lazy then Ast.FunctionName.OneOrMoreLazy else Ast.FunctionName.OneOrMore, e, [], s);
  }

  // ---------------------------------------------------------------------
  // Groups

  lemma GroupUnfolds(es: seq<Ast.Expression>, s: Building)
    requires s.Valid()
    ensures Emit(Ast.Expression.Group(es), s) == EmitGroup(es, s)
  {
  }

  /** An empty group matches the empty string: a single jump. */
  lemma EmptyGroupIsEmpty(s: Building)
    requires s.Valid()
    ensures Emit(Ast.Expression.Group([]), s) == Ok(EmitEmpty(s))
  {
    GroupUnfolds([], s);
    assert EmitAll([], s) == Ok(([], s));
  }

  /** A group of one expression is that expression. */
  lemma SingletonGroupIsExpression(e: Ast.Expression, s: Building)
    requires s.Valid()
    ensures Emit(Ast.Expression.Group([e]), s) == Emit(e, s)
  {
    GroupUnfolds([e], s);
    var es := [e];
    assert es[..|es| - 1] == [] && es[|es| - 1] == e;
    assert EmitAll(es[..|es| - 1], s) == Ok(([], s));
    match Emit(e, s)
    case Err(err) =>
      assert EmitAll(es, s) == Err(err);
    case Ok((port, s1)) =>
      assert [] + [port] == [port];
      assert EmitAll(es, s) == Ok(([port], s1));
  }

  /** The jumps the first `k` links append to node `n`, in order. */
  function LinkJumpsAt(ports: seq<Port>, k: nat, n: nat): seq<TransitionItem>
    requires k < |ports|
  {
    if k == 0 then []
    else LinkJumpsAt(ports, k - 1, n) + (if ports[k - 1].outNodeIndex == n then [TransitionItem(Jump, ports[k].inNodeIndex)] else [])
  }

  lemma {:induction false} LinkItems(ports: seq<Port>, k: nat, s: Building, s0: Building, n: nat)
    requires PortsIn(ports, s0, s) && k < |ports| && n < s.NodeCount()
    ensures Items(Link(ports, k, s, s0), n) == Items(s, n) + LinkJumpsAt(ports, k, n)
  {
    if k > 0 {
      LinkItems(ports, k - 1, s, s0, n);
      var t0 := Link(ports, k - 1, s, s0);
      LinkStep(ports, k, s, s0);
      AppendItems(t0, ports[k - 1].outNodeIndex, ports[k].inNodeIndex, Jump, n);
      var extra := if ports[k - 1].outNodeIndex == n then [TransitionItem(Jump, ports[k].inNodeIndex)] else [];
      assert LinkJumpsAt(ports, k, n) == LinkJumpsAt(ports, k - 1, n) + extra;
      assert Items(Link(ports, k, s, s0), n) == Items(t0, n) + extra;
      assert Items(s, n) + LinkJumpsAt(ports, k - 1, n) + extra == Items(s, n) + (LinkJumpsAt(ports, k - 1, n) + extra);
    } else {
      assert Link(ports, 0, s, s0) == s;
      assert Items(s, n) + [] == Items(s, n);
    }
  }

  lemma LinkStep(ports: seq<Port>, k: nat, s: Building, s0: Building)
    requires PortsIn(ports, s0, s) && 0 < k < |ports|
    ensures var t0 := Link(ports, k - 1, s, s0);
      && ports[k - 1].outNodeIndex < t0.NodeCount()
      && Link(ports, k, s, s0) == t0.Append(ports[k - 1].outNodeIndex, ports[k].inNodeIndex, Jump)
  {
  }

  /** Fragment exits are distinct, so each gets exactly one jump and other nodes none. */
  lemma {:induction false} LinkJumpsAtNode(ports: seq<Port>, k: nat, s: Building, s0: Building, n: nat)
    requires PortsIn(ports, s0, s) && k < |ports|
    ensures forall i :: 0 <= i < k && ports[i].outNodeIndex == n ==>
      LinkJumpsAt(ports, k, n) == [TransitionItem(Jump, ports[i + 1].inNodeIndex)]
    ensures (forall i :: 0 <= i < k ==> ports[i].outNodeIndex != n) ==> LinkJumpsAt(ports, k, n) == []
  {
    if k > 0 {
      LinkJumpsAtNode(ports, k - 1, s, s0, n);
      if ports[k - 1].outNodeIndex == n {
        forall i | 0 <= i < k - 1
          ensures ports[i].outNodeIndex != n
        {
          assert ports[i].outNodeIndex < ports[k - 1].outNodeIndex;
        }
      }
    }
  }

  /**
   * Linking the first `k` fragments appends one jump to the exit node of
   * each of them, to the next fragment's entry, and changes no other node.
   */
  lemma LinkJumps(ports: seq<Port>, k: nat, s: Building, s0: Building)
    requires PortsIn(ports, s0, s) && k < |ports|
    ensures var t := Link(ports, k, s, s0);
      && (forall i :: 0 <= i < k ==>
            Items(t, ports[i].outNodeIndex) == Items(s, ports[i].outNodeIndex) + [TransitionItem(Jump, ports[i + 1].inNodeIndex)])
      && (forall n :: 0 <= n < s.NodeCount() && (forall i :: 0 <= i < k ==> ports[i].outNodeIndex != n) ==>
            Items(t, n) == Items(s, n))
  {
    forall n | 0 <= n < s.NodeCount()
      ensures Items(Link(ports, k, s, s0), n) == Items(s, n) + LinkJumpsAt(ports, k, n)
      ensures (forall i :: 0 <= i < k ==> ports[i].outNodeIndex != n) ==> LinkJumpsAt(ports, k, n) == []
    {
      LinkItems(ports, k, s, s0, n);
      LinkJumpsAtNode(ports, k, s, s0, n);
    }
    forall i | 0 <= i < k
      ensures LinkJumpsAt(ports, k, ports[i].outNodeIndex) == [TransitionItem(Jump, ports[i + 1].inNodeIndex)]
    {
      LinkJumpsAtNode(ports, k, s, s0, ports[i].outNodeIndex);
    }
  }

  /**
   * A group of two or more expressions: its entry is the first fragment's,
   * its exit the last one's, and each fragment's exit jumps to the next
   * fragment's entry.
   */
  lemma GroupChains(es: seq<Ast.Expression>, s: Building)
    requires s.Valid() && |es| >= 2
    ensures var r := EmitAll(es, s);
      r.Ok? ==>
        var (ports, s1) := r.value;
        var t := EmitGroup(es, s).value;
        && EmitGroup(es, s).Ok?
        && t.0 == Port(ports[0].inNodeIndex, ports[|ports| - 1].outNodeIndex)
        && (forall i :: 0 <= i < |ports| - 1 ==>
              Items(t.1, ports[i].outNodeIndex) == Items(s1, ports[i].outNodeIndex) + [TransitionItem(Jump, ports[i + 1].inNodeIndex)])
  {
    if EmitAll(es, s).Ok? {
      var (ports, s1) := EmitAll(es, s).value;
      LinkJumps(ports, |ports| - 1, s1, s);
    }
  }

  // ---------------------------------------------------------------------
  // Charsets

  predicate NegativePreset(name: Ast.PresetCharSetName)
  {
    name.CharNotWord? || name.CharNotSpace? || name.CharNotDigit?
  }

  /** A charset element the compiler refuses: a negative preset, or a nested charset that is negative or holds one. */
  predicate ElementRefused(element: Ast.CharSetElement)
    decreases element
  {
    match element
    case PresetCharSet(name) => NegativePreset(name)
    case CharSet(charset) => charset.negative || AnyRefused(charset.elements)
    case _ => false
  }

  predicate AnyRefused(elements: seq<Ast.CharSetElement>)
    decreases elements
  {
    elements != [] && (ElementRefused(elements[0]) || AnyRefused(elements[1..]))
  }

  /** The item of a preset, whichever its sign. */
  function PresetItem(name: Ast.PresetCharSetName): CharSetItem
  {
    match name
    case CharWord => PresetWord
    case CharNotWord => PresetWord
    case CharSpace => PresetSpace
    case CharNotSpace => PresetSpace
    case CharDigit => PresetDigit
    case CharNotDigit => PresetDigit
  }

  /** The items an element stands for, nested charsets spliced in place. */
  function FlattenElement(element: Ast.CharSetElement): seq<CharSetItem>
    decreases element
  {
    match element
    case Char(c) => [CharSetItem.Char(c)]
    case CharRange(range) => [CharSetItem.Range(range.start, range.endIncluded)]
    case PresetCharSet(name) => [PresetItem(name)]
    case CharSet(charset) => FlattenAll(charset.elements)
  }

  function FlattenAll(elements: seq<Ast.CharSetElement>): seq<CharSetItem>
    decreases elements
  {
    if elements == [] then [] else FlattenElement(elements[0]) + FlattenAll(elements[1..])
  }

  /**
   * Appending a charset's elements fails exactly when one of them is
   * refused, and otherwise appends their flattened items, in order.
   */
  lemma {:induction false} AppendElementsFlattens(elements: seq<Ast.CharSetElement>, items: seq<CharSetItem>)
    ensures AppendElements(elements, items).Err? <==> AnyRefused(elements)
    ensures AppendElements(elements, items).Ok? ==> AppendElements(elements, items).value == items + FlattenAll(elements)
    decreases elements, 1
  {
    if elements != [] {
      AppendElementFlattens(elements[0], items);
      if !ElementRefused(elements[0]) {
        var items1 := items + FlattenElement(elements[0]);
        AppendElementsFlattens(elements[1..], items1);
        assert items1 + FlattenAll(elements[1..]) == items + FlattenAll(elements);
      }
    }
  }

  lemma {:induction false} AppendElementFlattens(element: Ast.CharSetElement, items: seq<CharSetItem>)
    ensures AppendElement(element, items).Err? <==> ElementRefused(element)
    ensures AppendElement(element, items).Ok? ==> AppendElement(element, items).value == items + FlattenElement(element)
    decreases element, 3
  {
    match element
    case Char(_) =>
    case CharRange(_) =>
    case PresetCharSet(name) =>
    case CharSet(charset) =>
      AppendElementsFlattens(charset.elements, items);
  }

  /** A charset literal compiles to one charset transition over its flattened items, unless it holds a refused element. */
  lemma CharSetLiteral(charset: Ast.CharSet, s: Building)
    requires s.Valid()
    ensures Emit(Ast.Expression.Literal(Ast.Literal.CharSet(charset)), s).Err? <==> AnyRefused(charset.elements)
    ensures !AnyRefused(charset.elements) ==>
      Emit(Ast.Expression.Literal(Ast.Literal.CharSet(charset)), s) == Ok(Single(s, Transition.CharSet(FlattenAll(charset.elements), charset.negative)))
  {
    AppendElementsFlattens(charset.elements, []);
    assert [] + FlattenAll(charset.elements) == FlattenAll(charset.elements);
    assert Emit(Ast.Expression.Literal(Ast.Literal.CharSet(charset)), s) == EmitLiteral(Ast.Literal.CharSet(charset), s);
  }

  // ---------------------------------------------------------------------
  // Back-references

  /**
   * A back-reference compiles to a transition to the first earlier group
   * of that name, and is refused when there is none.
   */
  lemma BackreferenceResolves(name: string, s: Building)
    requires s.Valid()
    ensures var r := Emit(Ast.Expression.Identifier(name), s);
      var groups := s.route.captureGroups;
      && (r.Err? <==> forall k :: 0 <= k < |groups| ==> groups[k].name != Some(name))
      && (r.Ok? ==> exists g :: 0 <= g < |groups| && groups[g].name == Some(name)
                      && (forall k :: 0 <= k < g ==> groups[k].name != Some(name))
                      && r == Ok(Single(s, BackReference(g))))
  {
    var r := Emit(Ast.Expression.Identifier(name), s);
    assert r == EmitBackreference(name, s);
    if r.Ok? {
      var g := IndexByName(s.route.captureGroups, name).value;
      assert r == Ok(Single(s, BackReference(g)));
    }
  }

  // ---------------------------------------------------------------------
  // The program

  /** A `start` anywhere but first, or an `end` anywhere but last, fails the whole program. */
  lemma MisplacedAssertionRefused(es: seq<Ast.Expression>, i: nat, s: Building)
    requires s.Valid() && i < |es| && Misplaced(es, i)
    ensures EmitProgram(Ast.Program(es), s).Err?
  {
    var s1 := s.NewCaptureGroup(None).0;
    assert ProgramItems(es, i + 1, s1).Err?;
    Compiler.ProgramItemsPrefixErr(es, i + 1, |es|, s1);
  }

  /**
   * Closing the program wraps its sequenced fragments in the capture nodes
   * of the program's group; those two new nodes become the line's start
   * and end, and the fixed flags are set as given.
   */
  lemma CloseProgramShape(ports: seq<Port>, groupIndex: nat, fixedStart: bool, fixedEnd: bool, s: Building, s0: Building)
    requires PortsIn(ports, s0, s)
    ensures var t := CloseProgram(ports, groupIndex, fixedStart, fixedEnd, s, s0);
      var (p, s1) := Sequence(ports, s, s0);
      var n := s1.NodeCount();
      var line := t.CurrentLine();
      && t.NodeCount() == n + 2 && t.route.captureGroups == s1.route.captureGroups
      && line.startNodeIndex == n && line.endNodeIndex == n + 1
      && line.fixedStart == fixedStart && line.fixedEnd == fixedEnd
      && Items(t, n) == [TransitionItem(CaptureStart(groupIndex), p.inNodeIndex)]
      && Items(t, n + 1) == []
      && Items(t, p.outNodeIndex) == Items(s1, p.outNodeIndex) + [TransitionItem(CaptureEnd(groupIndex), n + 1)]
  {
    var (p, s1) := Sequence(ports, s, s0);
    WrapShape(p, CaptureStart(groupIndex), CaptureEnd(groupIndex), s1);
  }

  /**
   * A compiled program: its capture group, unnamed, is the first one it
   * adds; the line's start node enters that group and its end node has no
   * transitions; the line is fixed at the start exactly when the program
   * begins with `start`, and at the end exactly when it ends with `end`.
   */
  lemma ProgramShape(es: seq<Ast.Expression>, s: Building)
    requires s.Valid()
    ensures var r := EmitProgram(Ast.Program(es), s);
      r.Ok? ==>
        var t := r.value;
        var g := |s.route.captureGroups|;
        var line := t.CurrentLine();
        && t.currentLineIndex == s.currentLineIndex
        && g < |t.route.captureGroups| && t.route.captureGroups[g] == CaptureGroup(None)
        && (line.fixedStart <==> |es| > 0 && es[0] == Ast.Expression.Assertion(Ast.AssertionName.Start))
        && (line.fixedEnd <==> |es| > 0 && es[|es| - 1] == Ast.Expression.Assertion(Ast.AssertionName.End))
        && line.startNodeIndex < |line.nodes| && line.endNodeIndex < |line.nodes|
        && |line.nodes[line.startNodeIndex].transitionItems| == 1
        && line.nodes[line.startNodeIndex].transitionItems[0].transition == CaptureStart(g)
        && line.nodes[line.endNodeIndex].transitionItems == []
  {
    var (s1, g) := s.NewCaptureGroup(None);
    var items := ProgramItems(es, |es|, s1);
    if items.Ok? {
      var (ports, s2) := items.value;
      var fixedStart := |es| > 0 && es[0] == Ast.Expression.Assertion(Ast.AssertionName.Start);
      var fixedEnd := |es| > 0 && es[|es| - 1] == Ast.Expression.Assertion(Ast.AssertionName.End);
      assert EmitProgram(Ast.Program(es), s) == Ok(CloseProgram(ports, g, fixedStart, fixedEnd, s2, s1));
      CloseProgramShape(ports, g, fixedStart, fixedEnd, s2, s1);
      var s3 := Sequence(ports, s2, s1).1;
      assert s1.route.captureGroups <= s3.route.captureGroups;
    }
  }

  /**
   * A compiled route: group 0 is the whole program and is unnamed; line 0
   * is the main line, fixed at the start or end exactly when the program
   * begins with `start` or ends with `end`.
   */
  lemma CompiledRoute(program: Ast.Program)
    ensures var r := Compile(program);
      var es := program.expressions;
      r.Ok? ==>
        && |r.value.lines| >= 1 && |r.value.captureGroups| >= 1
        && r.value.captureGroups[0] == CaptureGroup(None)
        && (r.value.lines[0].fixedStart <==> |es| > 0 && es[0] == Ast.Expression.Assertion(Ast.AssertionName.Start))
        && (r.value.lines[0].fixedEnd <==> |es| > 0 && es[|es| - 1] == Ast.Expression.Assertion(Ast.AssertionName.End))
  {
    var s := Building(RouteValue([EmptyLine], [], 0), 0);
    assert program == Ast.Program(program.expressions);
    ProgramShape(program.expressions, s);
  }

  // ---------------------------------------------------------------------
  // Capture groups

  /**
   * A capture group takes the next group index before its expression is
   * emitted; the group keeps its name, and the wrapping nodes start and end
   * the capture around the expression's fragment.
   */
  lemma CaptureGroupShape(e: Ast.Expression, name: Option<string>, s: Building)
    requires s.Valid()
    ensures var (s1, g) := s.NewCaptureGroup(name);
      && g == |s.route.captureGroups|
      && (EmitCaptureGroup(e, name, s).Ok? <==> Emit(e, s1).Ok?)
      && (Emit(e, s1).Ok? ==>
            var (port, s2) := Emit(e, s1).value;
            var (p, t) := EmitCaptureGroup(e, name, s).value;
            && t.route.captureGroups == s2.route.captureGroups
            && g < |t.route.captureGroups| && t.route.captureGroups[g] == CaptureGroup(name)
            && Items(t, p.inNodeIndex) == [TransitionItem(CaptureStart(g), port.inNodeIndex)]
            && Items(t, port.outNodeIndex) == Items(s2, port.outNodeIndex) + [TransitionItem(CaptureEnd(g), p.outNodeIndex)])
  {
    var (s1, g) := s.NewCaptureGroup(name);
    if Emit(e, s1).Ok? {
      var (port, s2) := Emit(e, s1).value;
      Compiler.CaptureGroupStep(e, name, s, port, s2);
      WrapShape(port, CaptureStart(g), CaptureEnd(g), s2);
      assert s1.route.captureGroups <= s2.route.captureGroups;
    }
  }

  /** `name(e, x)` is a capture group named `x`; without an identifier argument it is refused. */
  lemma NameCall(e: Ast.Expression, args: seq<Ast.FunctionCallArg>, s: Building)
    requires s.Valid()
    ensures Emit(Call(Ast.FunctionName.Name, e, args), s) ==
      if |args| > 0 && args[0].Identifier? then EmitCaptureGroup(e, Some(args[0].identifier), s) else Err(Message)
  {
    CallUnfolds(Ast.FunctionName.Name, e, args, s);
  }

  /** `index(e)` is an unnamed capture group. */
  lemma IndexCall(e: Ast.Expression, s: Building)
    requires s.Valid()
    ensures Emit(Call(Ast.FunctionName.Index, e, []), s) == EmitCaptureGroup(e, None, s)
  {
    CallUnfolds(Ast.FunctionName.Index, e, [], s);
  }

  /**
   * Groups are numbered from the outside in: in `index(name(e, x))` the
   * unnamed outer group gets the next index and the inner group `x` the
   * one after it.
   */
  lemma NestedGroupsNumberedOutsideIn(e: Ast.Expression, x: string, s: Building)
    requires s.Valid()
    ensures var r := Emit(Call(Ast.FunctionName.Index, Call(Ast.FunctionName.Name, e, [Ast.FunctionCallArg.Identifier(x)]), []), s);
      var g := |s.route.captureGroups|;
      r.Ok? ==>
        && g + 1 < |r.value.1.route.captureGroups|
        && r.value.1.route.captureGroups[g] == CaptureGroup(None)
        && r.value.1.route.captureGroups[g + 1] == CaptureGroup(Some(x))
  {
    var inner := Call(Ast.FunctionName.Name, e, [Ast.FunctionCallArg.Identifier(x)]);
    IndexCall(inner, s);
    var (s1, g) := s.NewCaptureGroup(None);
    CaptureGroupShape(inner, None, s);
    NameCall(e, [Ast.FunctionCallArg.Identifier(x)], s1);
    CaptureGroupShape(e, Some(x), s1);
  }

  // ---------------------------------------------------------------------
  // Look-around assertions

  /** `Wrap` works on the current line only. */
  lemma WrapKeepsOtherLines(port: Port, enter: Transition, leave: Transition, s: Building, l: nat)
    requires s.Valid() && port.inNodeIndex < s.NodeCount() && port.outNodeIndex < s.NodeCount()
    requires l < |s.route.lines| && l != s.currentLineIndex
    ensures var t := Wrap(port, enter, leave, s).1;
      l < |t.route.lines| && t.route.lines[l] == s.route.lines[l]
  {
  }

  /**
   * A look-ahead (`is_before(current, next)`, or `is_not_before` when
   * negative): `current`'s fragment is entered by a jump,
   * and its exit leads out through the look-ahead assertion on the new line
   * holding `next`, a line fixed at its start and not at its end.
   */
  lemma LookaheadShape(call: Ast.FunctionCall, current: Ast.Expression, next: Ast.Expression, negative: bool, s: Building)
    requires s.Valid()
    requires current == call.expression && |call.args| > 0 && call.args[0] == Ast.FunctionCallArg.Expression(next)
    ensures var r := EmitLookahead(call, current, next, negative, s);
      r.Ok? ==>
        && Emit(current, s).Ok?
        && var (port, s1) := Emit(current, s).value;
           var l := |s1.route.lines|;
           var (p, t) := r.value;
           && t.currentLineIndex == s.currentLineIndex
           && l < |t.route.lines| && t.route.lines[l].fixedStart && !t.route.lines[l].fixedEnd
           && port.inNodeIndex < t.NodeCount() && port.outNodeIndex < t.NodeCount()
           && Items(t, p.inNodeIndex) == [TransitionItem(Jump, port.inNodeIndex)]
           && |Items(t, port.outNodeIndex)| > 0
           && Items(t, port.outNodeIndex)[|Items(t, port.outNodeIndex)| - 1] == TransitionItem(LookAheadAssertion(l, negative), p.outNodeIndex)
  {
    var r := EmitLookahead(call, current, next, negative, s);
    if r.Ok? {
      var (port, s1) := Emit(current, s).value;
      var sub := SubLine(s1);
      var (subPort, s2) := Emit(next, sub).value;
      var s3 := s2.WithLineEnds(subPort.inNodeIndex, subPort.outNodeIndex, true, false);
      var s4 := Building(s3.route, s.currentLineIndex);
      assert r == Ok(Wrap(port, Jump, LookAheadAssertion(sub.currentLineIndex, negative), s4));
      WrapShape(port, Jump, LookAheadAssertion(sub.currentLineIndex, negative), s4);
      WrapKeepsOtherLines(port, Jump, LookAheadAssertion(sub.currentLineIndex, negative), s4, sub.currentLineIndex);
    }
  }

  /**
   * A look-behind (`is_after(current, previous)`, or `is_not_after` when
   * negative): the new line holding `previous` is the
   * next line index; `current`'s fragment is entered only through the
   * look-behind assertion on that line, whose pattern length is always 0.
   */
  lemma LookbehindShape(call: Ast.FunctionCall, current: Ast.Expression, previous: Ast.Expression, negative: bool, s: Building)
    requires s.Valid()
    requires current == call.expression && |call.args| > 0 && call.args[0] == Ast.FunctionCallArg.Expression(previous)
    ensures var r := EmitLookbehind(call, current, previous, negative, s);
      r.Ok? ==>
        var (p, t) := r.value;
        && t.currentLineIndex == s.currentLineIndex
        && |s.route.lines| < |t.route.lines|
        && |Items(t, p.inNodeIndex)| == 1
        && Items(t, p.inNodeIndex)[0].transition == LookBehindAssertion(|s.route.lines|, negative, 0)
        && Items(t, p.outNodeIndex) == []
  {
    var r := EmitLookbehind(call, current, previous, negative, s);
    if r.Ok? {
      var sub := SubLine(s);
      var (subPort, s1) := Emit(previous, sub).value;
      var s2 := s1.WithLineEnds(subPort.inNodeIndex, subPort.outNodeIndex, true, true);
      var s3 := Building(s2.route, s.currentLineIndex);
      var (port, s4) := Emit(current, s3).value;
      assert r == Ok(Wrap(port, LookBehindAssertion(sub.currentLineIndex, negative, 0), Jump, s4));
      WrapShape(port, LookBehindAssertion(sub.currentLineIndex, negative, 0), Jump, s4);
    }
  }
}
