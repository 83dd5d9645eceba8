/**
 * The compiler's emitting routines, specified on values: the route as a
 * value and the index of the line being emitted into.  Every expression
 * becomes a fragment of nodes on the current line with one entry node and
 * one exit node (its `Port`); fragments are joined with jump transitions,
 * and each look-around assertion gets a line of its own, Thompson style.
 * The `Compiler` class runs the same routines on the `Route` object and is
 * proved to agree with these functions.
 */
module Fragments {
  import opened Errors
  import Ast
  import opened Route

  /** `usize::MAX`, the upper bound of an unbounded repetition. */
  const UsizeMax: nat := 0xFFFF_FFFF_FFFF_FFFF

  /** The entry and exit nodes of a fragment. */
  datatype Port = Port(inNodeIndex: nat, outNodeIndex: nat)

  /** The route being built and the index of the line being emitted into. */
  datatype Building = Building(route: RouteValue, currentLineIndex: nat)
  {
    predicate Valid()
    {
      currentLineIndex < |route.lines|
    }

    function CurrentLine(): Line
      requires Valid()
    {
      route.lines[currentLineIndex]
    }

    function NodeCount(): nat
      requires Valid()
    {
      |CurrentLine().nodes|
    }

    /** A new node on the current line, and its index. */
    function NewNode(): (r: (Building, nat))
      requires Valid()
      ensures r.0.Valid() && Grows(this, r.0)
      ensures r.1 == NodeCount() && r.0.NodeCount() == NodeCount() + 1
      ensures r.0.CurrentLine() == CurrentLine().NewNode().0
    {
      var (line, idx) := CurrentLine().NewNode();
      (this.(route := route.(lines := route.lines[currentLineIndex := line])), idx)
    }

    /** A transition appended to node `source` of the current line. */
    function Append(source: nat, target: nat, t: Transition): (r: Building)
      requires Valid() && source < NodeCount()
      ensures r.Valid() && Grows(this, r) && r.NodeCount() == NodeCount()
      ensures r.CurrentLine() == CurrentLine().AppendTransition(source, target, t).0
    {
      this.(route := route.(lines := route.lines[currentLineIndex := CurrentLine().AppendTransition(source, target, t).0]))
    }

    /** The current line with its start and end nodes and its fixed flags set. */
    function WithLineEnds(start: nat, end: nat, fixedStart: bool, fixedEnd: bool): (r: Building)
      requires Valid()
      ensures r.Valid() && Grows(this, r) && r.NodeCount() == NodeCount()
      ensures r.CurrentLine() == Line(CurrentLine().nodes, start, end, fixedStart, fixedEnd)
    {
      this.(route := route.(lines := route.lines[currentLineIndex := Line(CurrentLine().nodes, start, end, fixedStart, fixedEnd)]))
    }

    function NewCaptureGroup(name: Option<string>): (r: (Building, nat))
      requires Valid()
      ensures r.0.Valid() && Grows(this, r.0) && r.0.CurrentLine() == CurrentLine()
      ensures r.1 == |route.captureGroups| && r.0.route.captureGroups == route.captureGroups + [CaptureGroup(name)]
    {
      var (rv, idx) := route.WithCaptureGroup(name);
      (this.(route := rv), idx)
    }

    function NewCounter(): (r: (Building, nat))
      requires Valid()
      ensures r.0.Valid() && Grows(this, r.0) && r.0.CurrentLine() == CurrentLine()
      ensures r.1 == route.numberOfCounters
    {
      var (rv, idx) := route.WithCounter();
      (this.(route := rv), idx)
    }
  }

  /** `t` holds everything `s` holds: no line, node or capture group is lost. */
  predicate Extends(s: Building, t: Building)
  {
    && |s.route.lines| <= |t.route.lines|
    && (forall k :: 0 <= k < |s.route.lines| ==> |s.route.lines[k].nodes| <= |t.route.lines[k].nodes|)
    && s.route.captureGroups <= t.route.captureGroups
  }

  /** `t` extends `s` and emits into the same line. */
  predicate Grows(s: Building, t: Building)
  {
    Extends(s, t) && t.currentLineIndex == s.currentLineIndex
  }

  /** A fragment's nodes on the current line: both are new. */
  predicate Fresh(s: Building, p: Port, t: Building)
    requires s.Valid() && t.Valid()
  {
    && s.NodeCount() <= p.inNodeIndex < t.NodeCount()
    && s.NodeCount() <= p.outNodeIndex < t.NodeCount()
  }

  /** What every emitter guarantees when it succeeds. */
  predicate Emitted(s: Building, r: Result<(Port, Building)>)
    requires s.Valid()
  {
    r.Ok? ==> r.value.1.Valid() && Grows(s, r.value.1) && Fresh(s, r.value.0, r.value.1)
  }

  /** Two new nodes joined by `t`. */
  function Single(s: Building, t: Transition): (r: (Port, Building))
    requires s.Valid()
    ensures Emitted(s, Ok(r))
  {
    var (s1, inNode) := s.NewNode();
    var (s2, outNode) := s1.NewNode();
    (Port(inNode, outNode), s2.Append(inNode, outNode, t))
  }

  /**
   * Two new nodes around the fragment at `port`: `enter` from the new entry
   * to the fragment's entry, `leave` from the fragment's exit to the new exit.
   */
  function Wrap(port: Port, enter: Transition, leave: Transition, s: Building): (r: (Port, Building))
    requires s.Valid() && port.inNodeIndex < s.NodeCount() && port.outNodeIndex < s.NodeCount()
    ensures Emitted(s, Ok(r))
  {
    var (s1, inNode) := s.NewNode();
    var (s2, outNode) := s1.NewNode();
    var s3 := s2.Append(inNode, port.inNodeIndex, enter);
    (Port(inNode, outNode), s3.Append(port.outNodeIndex, outNode, leave))
  }

  // ---------------------------------------------------------------------
  // The program

  /** The whole compilation: a route with one line, then the program emitted into it. */
  function Compile(program: Ast.Program): Result<RouteValue>
  {
    match EmitProgram(program, Building(RouteValue([EmptyLine], [], 0), 0))
    case Err(e) => Err(e)
    case Ok(t) => Ok(t.route)
  }

  /**
   * Capture group 0 for the program, its expressions in sequence (`start`
   * only first and `end` only last), wrapped in capture nodes that become
   * the line's start and end.
   */
  function EmitProgram(program: Ast.Program, s: Building): (r: Result<Building>)
    requires s.Valid()
    ensures r.Ok? ==> r.value.Valid() && Grows(s, r.value)
  {
    var es := program.expressions;
    var (s1, groupIndex) := s.NewCaptureGroup(None);
    match ProgramItems(es, |es|, s1)
    case Err(e) => Err(e)
    case Ok((ports, s2)) =>
      var fixedStart := |es| > 0 && es[0] == Ast.Expression.Assertion(Ast.AssertionName.Start);
      var fixedEnd := |es| > 0 && es[|es| - 1] == Ast.Expression.Assertion(Ast.AssertionName.End);
      Ok(CloseProgram(ports, groupIndex, fixedStart, fixedEnd, s2, s1))
  }

  /**
   * The program's fragments, emitted since `s0`, joined in sequence and
   * wrapped in the capture nodes of group `groupIndex`, which become the
   * line's start and end.
   */
  function CloseProgram(ports: seq<Port>, groupIndex: nat, fixedStart: bool, fixedEnd: bool, s: Building, s0: Building): (r: Building)
    requires PortsIn(ports, s0, s)
    ensures r.Valid() && Grows(s, r) && Grows(s0, r)
  {
    var (programPort, s1) := Sequence(ports, s, s0);
    var (port, s2) := Wrap(programPort, CaptureStart(groupIndex), CaptureEnd(groupIndex), s1);
    s2.WithLineEnds(port.inNodeIndex, port.outNodeIndex, fixedStart, fixedEnd)
  }

  /** `start` anywhere but first, or `end` anywhere but last, is refused. */
  predicate Misplaced(es: seq<Ast.Expression>, i: nat)
    requires i < |es|
  {
    || (es[i] == Ast.Expression.Assertion(Ast.AssertionName.Start) && i != 0)
    || (es[i] == Ast.Expression.Assertion(Ast.AssertionName.End) && i != |es| - 1)
  }

  /** The first `k` expressions of the program, each checked and then emitted. */
  function ProgramItems(es: seq<Ast.Expression>, k: nat, s: Building): (r: Result<(seq<Port>, Building)>)
    requires k <= |es| && s.Valid()
    ensures r.Ok? ==> |r.value.0| == k && PortsIn(r.value.0, s, r.value.1)
  {
    if k == 0 then Ok(([], s))
    else
      match ProgramItems(es, k - 1, s)
      case Err(e) => Err(e)
      case Ok((ports, s1)) =>
        if Misplaced(es, k - 1) then Err(Message)
        else
          match Emit(es[k - 1], s1)
          case Err(e) => Err(e)
          case Ok((port, s2)) => Ok((ports + [port], s2))
  }

  /**
   * Fragments emitted one after another from `s`: each one's nodes are new
   * when it is emitted, so their node ranges follow one another.
   */
  predicate PortsIn(ports: seq<Port>, s: Building, t: Building)
  {
    && s.Valid() && t.Valid() && Grows(s, t)
    && (forall i :: 0 <= i < |ports| ==> Fresh(s, ports[i], t))
    && (forall i, j :: 0 <= i < j < |ports| ==>
          ports[i].inNodeIndex < ports[j].inNodeIndex && ports[i].outNodeIndex < ports[j].inNodeIndex &&
          ports[i].inNodeIndex < ports[j].outNodeIndex && ports[i].outNodeIndex < ports[j].outNodeIndex)
  }

  /**
   * Fragments joined in order: none is an empty fragment, one is itself, and
   * more are linked out-to-in by jumps.  `s0` is where the fragments began.
   */
  function Sequence(ports: seq<Port>, s: Building, s0: Building): (r: (Port, Building))
    requires PortsIn(ports, s0, s)
    ensures r.1.Valid() && Grows(s, r.1)
    ensures Fresh(s0, r.0, r.1)
  {
    if |ports| == 0 then EmitEmpty(s)
    else if |ports| == 1 then (ports[0], s)
    else (Port(ports[0].inNodeIndex, ports[|ports| - 1].outNodeIndex), Link(ports, |ports| - 1, s, s0))
  }

  /** The first `k` jumps from each fragment's exit to the next one's entry. */
  function Link(ports: seq<Port>, k: nat, s: Building, s0: Building): (r: Building)
    requires PortsIn(ports, s0, s) && k < |ports|
    ensures r.Valid() && Grows(s, r) && r.NodeCount() == s.NodeCount()
  {
    if k == 0 then s
    else Link(ports, k - 1, s, s0).Append(ports[k - 1].outNodeIndex, ports[k].inNodeIndex, Jump)
  }

  // ---------------------------------------------------------------------
  // Expressions

  function Emit(e: Ast.Expression, s: Building): (r: Result<(Port, Building)>)
    requires s.Valid()
    ensures Emitted(s, r)
    decreases e, 1
  {
    match e
    case Literal(literal) => EmitLiteral(literal, s)
    case Identifier(name) => EmitBackreference(name, s)
    case Assertion(name) => Ok(Single(s, Assertion(name)))
    case Group(es) => EmitGroup(es, s)
    case FunctionCall(call) => EmitFunctionCall(call, s)
    case Or(left, right) => EmitLogicOr(left, right, s)
  }

  /** The expressions of a group, emitted in order. */
  function EmitAll(es: seq<Ast.Expression>, s: Building): (r: Result<(seq<Port>, Building)>)
    requires s.Valid()
    ensures r.Ok? ==> |r.value.0| == |es| && PortsIn(r.value.0, s, r.value.1)
    decreases es, 2
  {
    if es == [] then Ok(([], s))
    else
      match EmitAll(es[..|es| - 1], s)
      case Err(e) => Err(e)
      case Ok((ports, s1)) =>
        match Emit(es[|es| - 1], s1)
        case Err(e) => Err(e)
        case Ok((port, s2)) => Ok((ports + [port], s2))
  }

  function EmitGroup(es: seq<Ast.Expression>, s: Building): (r: Result<(Port, Building)>)
    requires s.Valid()
    ensures Emitted(s, r)
    decreases es, 3
  {
    match EmitAll(es, s)
    case Err(e) => Err(e)
    case Ok((ports, s1)) => Ok(Sequence(ports, s1, s))
  }

  /** Two new nodes and one jump between them. */
  function EmitEmpty(s: Building): (r: (Port, Building))
    requires s.Valid()
    ensures Emitted(s, Ok(r))
  {
    Single(s, Jump)
  }

  /** The left fragment, the right one, then an entry jumping to both and an exit both jump to. */
  function EmitLogicOr(left: Ast.Expression, right: Ast.Expression, s: Building): (r: Result<(Port, Building)>)
    requires s.Valid()
    ensures Emitted(s, r)
    decreases Ast.Or(left, right), 0
  {
    match Emit(left, s)
    case Err(e) => Err(e)
    case Ok((leftPort, s1)) =>
      match Emit(right, s1)
      case Err(e) => Err(e)
      case Ok((rightPort, s2)) => Ok(Branch(leftPort, rightPort, s2))
  }

  /** An entry jumping to the left fragment, then to the right one, and an exit both jump to. */
  function Branch(left: Port, right: Port, s: Building): (r: (Port, Building))
    requires s.Valid()
    requires left.inNodeIndex < s.NodeCount() && left.outNodeIndex < s.NodeCount()
    requires right.inNodeIndex < s.NodeCount() && right.outNodeIndex < s.NodeCount()
    ensures Emitted(s, Ok(r))
  {
    var (s1, inNode) := s.NewNode();
    var (s2, outNode) := s1.NewNode();
    var s3 := s2.Append(inNode, left.inNodeIndex, Jump);
    var s4 := s3.Append(inNode, right.inNodeIndex, Jump);
    var s5 := s4.Append(left.outNodeIndex, outNode, Jump);
    (Port(inNode, outNode), s5.Append(right.outNodeIndex, outNode, Jump))
  }

  // ---------------------------------------------------------------------
  // Literals

  function EmitLiteral(literal: Ast.Literal, s: Building): (r: Result<(Port, Building)>)
    requires s.Valid()
    ensures Emitted(s, r)
  {
    match literal
    case Char(c) => Ok(Single(s, Transition.Char(c)))
    case String(text) => Ok(Single(s, Transition.String(text)))
    case CharSet(charset) =>
      (match AppendElements(charset.elements, [])
       case Err(e) => Err(e)
       case Ok(items) => Ok(Single(s, Transition.CharSet(items, charset.negative))))
    case PresetCharSet(name) => Ok(Single(s, PresetCharSetTransition(name)))
    case Special(_) => Ok(Single(s, SpecialChar))
  }

  /** The charset transition of a preset: the positive preset, negated for the `char_not_*` names. */
  function PresetCharSetTransition(name: Ast.PresetCharSetName): (t: Transition)
    ensures t.CharSet? && |t.items| == 1
    ensures t.negative <==> name in {Ast.PresetCharSetName.CharNotWord, Ast.PresetCharSetName.CharNotSpace, Ast.PresetCharSetName.CharNotDigit}
  {
    match name
    case CharWord => Transition.CharSet([PresetWord], false)
    case CharNotWord => Transition.CharSet([PresetWord], true)
    case CharSpace => Transition.CharSet([PresetSpace], false)
    case CharNotSpace => Transition.CharSet([PresetSpace], true)
    case CharDigit => Transition.CharSet([PresetDigit], false)
    case CharNotDigit => Transition.CharSet([PresetDigit], true)
  }

  /** A preset inside a charset: only the positive ones are accepted. */
  function AppendPresetCharSetPositiveOnly(name: Ast.PresetCharSetName, items: seq<CharSetItem>): (r: Result<seq<CharSetItem>>)
    ensures r.Err? <==> name in {Ast.PresetCharSetName.CharNotWord, Ast.PresetCharSetName.CharNotSpace, Ast.PresetCharSetName.CharNotDigit}
    ensures r.Ok? ==> |r.value| == |items| + 1 && r.value[..|items|] == items
  {
    match name
    case CharWord => Ok(items + [PresetWord])
    case CharSpace => Ok(items + [PresetSpace])
    case CharDigit => Ok(items + [PresetDigit])
    case _ => Err(Message)
  }

  /** The items of a charset's elements appended after `items`, nested charsets flattened. */
  function AppendElements(elements: seq<Ast.CharSetElement>, items: seq<CharSetItem>): (r: Result<seq<CharSetItem>>)
    ensures r.Ok? ==> items <= r.value
    decreases elements, 0
  {
    if elements == [] then Ok(items)
    else
      match AppendElement(elements[0], items)
      case Err(e) => Err(e)
      case Ok(items1) => AppendElements(elements[1..], items1)
  }

  /**
   * One element of a charset.  A nested charset is never negative when it
   * comes from the parser; the original asserts so, and a negative one is an
   * error here.
   */
  function AppendElement(element: Ast.CharSetElement, items: seq<CharSetItem>): (r: Result<seq<CharSetItem>>)
    ensures r.Ok? ==> items <= r.value
    decreases element, 2
  {
    match element
    case Char(c) => Ok(items + [CharSetItem.Char(c)])
    case CharRange(range) => Ok(items + [CharSetItem.Range(range.start, range.endIncluded)])
    case PresetCharSet(name) => AppendPresetCharSetPositiveOnly(name, items)
    case CharSet(charset) =>
      if charset.negative then Err(Message) else AppendElements(charset.elements, items)
  }

  /** A back-reference names an earlier capture group; an unknown name is an error. */
  function EmitBackreference(name: string, s: Building): (r: Result<(Port, Building)>)
    requires s.Valid()
    ensures Emitted(s, r)
  {
    match IndexByName(s.route.captureGroups, name)
    case None => Err(Message)
    case Some(index) => Ok(Single(s, BackReference(index)))
  }

  // ---------------------------------------------------------------------
  // Function calls

  /** Quantifiers whose repetition prefers fewer rounds. */
  predicate IsLazy(name: Ast.FunctionName)
  {
    name in {Ast.FunctionName.OptionalLazy, Ast.FunctionName.OneOrMoreLazy, Ast.FunctionName.ZeroOrMoreLazy,
             Ast.FunctionName.RepeatRangeLazy, Ast.FunctionName.AtLeastLazy}
  }

  /** The `i`-th argument as a number; a missing or different argument is an error. */
  function ArgNumber(args: seq<Ast.FunctionCallArg>, i: nat): (r: Result<nat>)
    ensures r.Ok? <==> i < |args| && args[i].Number?
    ensures r.Ok? ==> r.value == args[i].number
    ensures r.Err? ==> r.error == Message
  {
    if i < |args| && args[i].Number? then Ok(args[i].number) else Err(Message)
  }

  /**
   * The `i`-th argument as the original reads it: indexing the argument list
   * and taking the number out of it.  `None` stands for the panic the
   * original hits when the index is past the end or the argument is not a
   * number.  The parser does not check arity, so such calls do reach the
   * compiler; `ArgNumber` is what the model uses instead.
   */
  function ArgNumberAsWritten(args: seq<Ast.FunctionCallArg>, i: nat): (r: Option<nat>)
    ensures r.None? <==> ArgNumber(args, i).Err?
    ensures r.Some? ==> r.value == ArgNumber(args, i).value
  {
    if i >= |args| then None
    else
      match args[i]
      case Number(n) => Some(n)
      case _ => None
  }

  function EmitFunctionCall(call: Ast.FunctionCall, s: Building): (r: Result<(Port, Building)>)
    requires s.Valid()
    ensures Emitted(s, r)
    decreases call, 2
  {
    var expression := call.expression;
    var args := call.args;
    var lazy := IsLazy(call.name);
    match call.name
    case Optional => EmitOptional(expression, lazy, s)
    case OptionalLazy => EmitOptional(expression, lazy, s)
    case OneOrMore => EmitRepeatRange(expression, 1, UsizeMax, lazy, s)
    case OneOrMoreLazy => EmitRepeatRange(expression, 1, UsizeMax, lazy, s)
    case ZeroOrMore => EmitOptionalRepeatRange(expression, UsizeMax, lazy, s)
    case ZeroOrMoreLazy => EmitOptionalRepeatRange(expression, UsizeMax, lazy, s)
    case Repeat =>
      (match ArgNumber(args, 0)
       case Err(e) => Err(e)
       case Ok(times) => EmitRepeat(expression, times, s))
    case RepeatRange => EmitRepeatRangeCall(expression, args, lazy, s)
    case RepeatRangeLazy => EmitRepeatRangeCall(expression, args, lazy, s)
    case AtLeast => EmitAtLeast(expression, args, lazy, s)
    case AtLeastLazy => EmitAtLeast(expression, args, lazy, s)
    case IsBefore =>
      if |args| > 0 && args[0].Expression? then EmitLookahead(call, expression, args[0].expression, false, s) else Err(Message)
    case IsNotBefore =>
      if |args| > 0 && args[0].Expression? then EmitLookahead(call, expression, args[0].expression, true, s) else Err(Message)
    case IsAfter =>
      if |args| > 0 && args[0].Expression? then EmitLookbehind(call, expression, args[0].expression, false, s) else Err(Message)
    case IsNotAfter =>
      if |args| > 0 && args[0].Expression? then EmitLookbehind(call, expression, args[0].expression, true, s) else Err(Message)
    case Name =>
      if |args| > 0 && args[0].Identifier? then EmitCaptureGroup(expression, Some(args[0].identifier), s) else Err(Message)
    case Index => EmitCaptureGroup(expression, None, s)
  }

  /** `{m}`: nothing for 0, the bare expression for 1, a counted loop otherwise. */
  function EmitRepeat(expression: Ast.Expression, times: nat, s: Building): (r: Result<(Port, Building)>)
    requires s.Valid()
    ensures Emitted(s, r)
    decreases expression, 4
  {
    if times == 0 then Ok(EmitEmpty(s))
    else if times == 1 then Emit(expression, s)
    else EmitRepeatSpecified(expression, times, s)
  }

  /** `{m,n}`: refused when m > n; otherwise the cheapest equivalent form. */
  function EmitRepeatRangeCall(expression: Ast.Expression, args: seq<Ast.FunctionCallArg>, lazy: bool, s: Building): (r: Result<(Port, Building)>)
    requires s.Valid()
    ensures Emitted(s, r)
    decreases expression, 5
  {
    match ArgNumber(args, 0)
    case Err(e) => Err(e)
    case Ok(from) =>
      match ArgNumber(args, 1)
      case Err(e) => Err(e)
      case Ok(to) =>
        if from > to then Err(Message)
        else if from == 0 then
          if to == 0 then Ok(EmitEmpty(s))
          else if to == 1 then EmitOptional(expression, lazy, s)
          else EmitOptionalRepeatRange(expression, to, lazy, s)
        else if to == 1 then Emit(expression, s)
        else if from == to then EmitRepeatSpecified(expression, from, s)
        else EmitRepeatRange(expression, from, to, lazy, s)
  }

  /** `{m,}`: an optional unbounded loop for 0, a loop from m otherwise. */
  function EmitAtLeast(expression: Ast.Expression, args: seq<Ast.FunctionCallArg>, lazy: bool, s: Building): (r: Result<(Port, Building)>)
    requires s.Valid()
    ensures Emitted(s, r)
    decreases expression, 5
  {
    match ArgNumber(args, 0)
    case Err(e) => Err(e)
    case Ok(from) =>
      if from == 0 then EmitOptionalRepeatRange(expression, UsizeMax, lazy, s)
      else EmitRepeatRange(expression, from, UsizeMax, lazy, s)
  }

  /** `{0,to}`: a loop from 1 to `to`, made optional. */
  function EmitOptionalRepeatRange(expression: Ast.Expression, to: nat, lazy: bool, s: Building): (r: Result<(Port, Building)>)
    requires s.Valid() && to > 1
    ensures Emitted(s, r)
    decreases expression, 4
  {
    match EmitRepeatRange(expression, 1, to, lazy, s)
    case Err(e) => Err(e)
    case Ok((port, s1)) => Ok(ContinueOptional(port, lazy, s1, s))
  }

  function EmitOptional(expression: Ast.Expression, lazy: bool, s: Building): (r: Result<(Port, Building)>)
    requires s.Valid()
    ensures Emitted(s, r)
    decreases expression, 2
  {
    match Emit(expression, s)
    case Err(e) => Err(e)
    case Ok((port, s1)) => Ok(ContinueOptional(port, lazy, s1, s))
  }

  /**
   * An entry with a jump into the fragment and a jump past it, and an exit;
   * the lazy form lists the jump past first.  `s0` is where the fragment began.
   */
  function ContinueOptional(port: Port, lazy: bool, s: Building, s0: Building): (r: (Port, Building))
    requires s0.Valid() && s.Valid() && Grows(s0, s) && Fresh(s0, port, s)
    ensures Emitted(s0, Ok(r)) && Grows(s, r.1)
  {
    var (s1, inNode) := s.NewNode();
    var (s2, outNode) := s1.NewNode();
    var s3 := if lazy then s2.Append(inNode, outNode, Jump) else s2;
    var s4 := s3.Append(inNode, port.inNodeIndex, Jump);
    var s5 := s4.Append(port.outNodeIndex, outNode, Jump);
    var s6 := if lazy then s5 else s5.Append(inNode, outNode, Jump);
    (Port(inNode, outNode), s6)
  }

  /** `{m}` for m > 1; always the lazy loop shape. */
  function EmitRepeatSpecified(expression: Ast.Expression, times: nat, s: Building): (r: Result<(Port, Building)>)
    requires s.Valid() && times > 1
    ensures Emitted(s, r)
    decreases expression, 3
  {
    ContinueRepetition(expression, RepetitionType.Specified(times), true, s)
  }

  function EmitRepeatRange(expression: Ast.Expression, from: nat, to: nat, lazy: bool, s: Building): (r: Result<(Port, Building)>)
    requires s.Valid() && from > 0 && to > 1 && to > from
    ensures Emitted(s, r)
    decreases expression, 3
  {
    ContinueRepetition(expression, RepetitionType.Range(from, to), lazy, s)
  }

  /**
   * A counted loop around the fragment: reset the counter on entry, count
   * each pass, and leave when the count allows.  The greedy form leaves
   * through an anchor that can backtrack.
   */
  function ContinueRepetition(expression: Ast.Expression, repetition: RepetitionType, lazy: bool, s: Building): (r: Result<(Port, Building)>)
    requires s.Valid()
    ensures Emitted(s, r)
    decreases expression, 2
  {
    match Emit(expression, s)
    case Err(e) => Err(e)
    case Ok((port, s1)) => Ok(Loop(port, repetition, lazy, s1))
  }

  /** The counted loop around the fragment at `port`, with a new counter. */
  function Loop(port: Port, repetition: RepetitionType, lazy: bool, s: Building): (r: (Port, Building))
    requires s.Valid() && port.inNodeIndex < s.NodeCount() && port.outNodeIndex < s.NodeCount()
    ensures Emitted(s, Ok(r))
    ensures r.1.route.numberOfCounters == s.route.numberOfCounters + 1
  {
    var (s1, counter) := s.NewCounter();
    var (s2, inNode) := s1.NewNode();
    var (s3, leftNode) := s2.NewNode();
    var (s4, rightNode) := s3.NewNode();
    var s5 := s4.Append(inNode, leftNode, CounterReset(counter));
    var s6 := s5.Append(leftNode, port.inNodeIndex, Jump);
    var s7 := s6.Append(port.outNodeIndex, rightNode, CounterInc(counter));
    if lazy then
      var (s8, outNode) := s7.NewNode();
      var s9 := s8.Append(rightNode, outNode, CounterCheck(counter, repetition));
      (Port(inNode, outNode), s9.Append(rightNode, leftNode, Repetition(counter, repetition)))
    else
      var (s8, anchorNode) := s7.NewNode();
      var (s9, branchNode) := s8.NewNode();
      var (s10, outNode) := s9.NewNode();
      var s11 := s10.Append(rightNode, leftNode, RepetitionAnchor(counter, repetition));
      var s12 := s11.Append(rightNode, anchorNode, CounterCheck(counter, repetition));
      var s13 := s12.Append(anchorNode, branchNode, Jump);
      var s14 := s13.Append(branchNode, outNode, Jump);
      (Port(inNode, outNode), s14.Append(branchNode, anchorNode, Backtrack(counter, anchorNode)))
  }

  /**
   * The group index is taken before the inner expression is emitted, so an
   * enclosing group's index is smaller than those of the groups inside it.
   */
  function EmitCaptureGroup(expression: Ast.Expression, name: Option<string>, s: Building): (r: Result<(Port, Building)>)
    requires s.Valid()
    ensures Emitted(s, r)
    decreases expression, 2
  {
    var (s1, groupIndex) := s.NewCaptureGroup(name);
    match Emit(expression, s1)
    case Err(e) => Err(e)
    case Ok((port, s2)) => Ok(Wrap(port, CaptureStart(groupIndex), CaptureEnd(groupIndex), s2))
  }

  /** A new line whose start is fixed: the line to check ahead, emitted from `s`'s route. */
  function SubLine(s: Building): (r: Building)
    requires s.Valid()
    ensures r.Valid() && Extends(s, r) && r.currentLineIndex == |s.route.lines|
    ensures r.NodeCount() == 0
  {
    var (rv, sub) := s.route.WithNewLine();
    Building(rv, sub)
  }

  /**
   * `current` then an assertion, checked after it, that `next` matches (or,
   * when negative, does not) on a line of its own.
   */
  function EmitLookahead(ghost call: Ast.FunctionCall, current: Ast.Expression, next: Ast.Expression, negative: bool, s: Building): (r: Result<(Port, Building)>)
    requires s.Valid()
    requires current == call.expression && |call.args| > 0 && call.args[0] == Ast.FunctionCallArg.Expression(next)
    ensures Emitted(s, r)
    decreases call, 1
  {
    match Emit(current, s)
    case Err(e) => Err(e)
    case Ok((port, s1)) =>
      var sub := SubLine(s1);
      match Emit(next, sub)
      case Err(e) => Err(e)
      case Ok((subPort, s2)) =>
        var s3 := s2.WithLineEnds(subPort.inNodeIndex, subPort.outNodeIndex, true, false);
        var s4 := Building(s3.route, s.currentLineIndex);
        Ok(Wrap(port, Jump, LookAheadAssertion(sub.currentLineIndex, negative), s4))
  }

  /**
   * An assertion, checked before `current`, that `previous` matches (or,
   * when negative, does not) on a line of its own, fixed at both ends; the
   * pattern length is always 0.
   */
  function EmitLookbehind(ghost call: Ast.FunctionCall, current: Ast.Expression, previous: Ast.Expression, negative: bool, s: Building): (r: Result<(Port, Building)>)
    requires s.Valid()
    requires current == call.expression && |call.args| > 0 && call.args[0] == Ast.FunctionCallArg.Expression(previous)
    ensures Emitted(s, r)
    decreases call, 1
  {
    var sub := SubLine(s);
    match Emit(previous, sub)
    case Err(e) => Err(e)
    case Ok((subPort, s1)) =>
      var s2 := s1.WithLineEnds(subPort.inNodeIndex, subPort.outNodeIndex, true, true);
      var s3 := Building(s2.route, s.currentLineIndex);
      match Emit(current, s3)
      case Err(e) => Err(e)
      case Ok((port, s4)) => Ok(Wrap(port, LookBehindAssertion(sub.currentLineIndex, negative, 0), Jump, s4))
  }
}
