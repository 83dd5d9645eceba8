/**
 * The compiler as an object: it holds the route being built and the index
 * of the line it emits into, and each emitting method updates the route in
 * place.  Every method is proved to leave exactly the state, and return
 * exactly the port or error, that the matching function of `Fragments`
 * computes from the state it started in.
 */
module Compiler {
  import opened Errors
  import Ast
  import opened Route
  import opened Fragments

  /** `r` and the state `now` are what the specification `spec` yields (nothing is said of the state after an error). */
  predicate Agrees<T(==)>(r: Result<T>, spec: Result<(T, Building)>, now: Building)
  {
    match spec
    case Ok((v, t)) => r == Ok(v) && now == t
    case Err(e) => r == Err(e)
  }

  /** An error among the first `k` fragments of a group is the group's error. */
  lemma EmitAllPrefixErr(es: seq<Ast.Expression>, k: nat, s: Building)
    requires k <= |es| && s.Valid() && EmitAll(es[..k], s).Err?
    ensures EmitAll(es, s) == EmitAll(es[..k], s)
  {
    if k < |es| {
      var init := es[..|es| - 1];
      assert init[..k] == es[..k];
      EmitAllPrefixErr(init, k, s);
    } else {
      assert es[..k] == es;
    }
  }

  /** An error among the first `j` expressions of a program is the program's error. */
  lemma ProgramItemsPrefixErr(es: seq<Ast.Expression>, j: nat, k: nat, s: Building)
    requires j <= k <= |es| && s.Valid() && ProgramItems(es, j, s).Err?
    ensures ProgramItems(es, k, s) == ProgramItems(es, j, s)
  {
    if j < k {
      ProgramItemsPrefixErr(es, j, k - 1, s);
    }
  }

  /** One more expression of a program, placed where it may be and emitted without error. */
  lemma ProgramItemsStep(es: seq<Ast.Expression>, i: nat, s: Building, ports: seq<Port>, t: Building, port: Port, t2: Building)
    requires i < |es| && s.Valid() && ProgramItems(es, i, s) == Ok((ports, t))
    requires !Misplaced(es, i) && Emit(es[i], t) == Ok((port, t2))
    ensures ProgramItems(es, i + 1, s) == Ok((ports + [port], t2))
  {
  }

  /** An error among the program's expressions is the program's error. */
  lemma EmitProgramErr(program: Ast.Program, s: Building, e: Error)
    requires s.Valid()
    requires ProgramItems(program.expressions, |program.expressions|, s.NewCaptureGroup(None).0) == Err(e)
    ensures EmitProgram(program, s) == Err(e)
  {
  }

  /** Once the program's fragments are emitted, the program is closed around them. */
  lemma EmitProgramStep(program: Ast.Program, s: Building, ports: seq<Port>, t: Building)
    requires s.Valid()
    requires ProgramItems(program.expressions, |program.expressions|, s.NewCaptureGroup(None).0) == Ok((ports, t))
    ensures var es := program.expressions;
      var (s1, g) := s.NewCaptureGroup(None);
      EmitProgram(program, s) == Ok(CloseProgram(ports, g,
        |es| > 0 && es[0] == Ast.Expression.Assertion(Ast.AssertionName.Start),
        |es| > 0 && es[|es| - 1] == Ast.Expression.Assertion(Ast.AssertionName.End), t, s1))
  {
  }

  // The steps of the composite emitters: once the inner fragments are
  // known, each composite is the outer construction applied to them.

  lemma LogicOrStep(left: Ast.Expression, right: Ast.Expression, s: Building, leftPort: Port, s1: Building, rightPort: Port, s2: Building)
    requires s.Valid() && Emit(left, s) == Ok((leftPort, s1))
    requires s1.Valid() && Emit(right, s1) == Ok((rightPort, s2))
    ensures s2.Valid() && leftPort.inNodeIndex < s2.NodeCount() && leftPort.outNodeIndex < s2.NodeCount()
    ensures rightPort.inNodeIndex < s2.NodeCount() && rightPort.outNodeIndex < s2.NodeCount()
    ensures Fragments.EmitLogicOr(left, right, s) == Ok(Branch(leftPort, rightPort, s2))
  {
  }

  lemma OptionalStep(expression: Ast.Expression, lazy: bool, s: Building, port: Port, s1: Building)
    requires s.Valid() && Emit(expression, s) == Ok((port, s1))
    ensures s1.Valid() && Grows(s, s1) && Fresh(s, port, s1)
    ensures Fragments.EmitOptional(expression, lazy, s) == Ok(ContinueOptional(port, lazy, s1, s))
  {
  }

  lemma OptionalRepeatRangeStep(expression: Ast.Expression, to: nat, lazy: bool, s: Building, port: Port, s1: Building)
    requires s.Valid() && to > 1 && Fragments.EmitRepeatRange(expression, 1, to, lazy, s) == Ok((port, s1))
    ensures s1.Valid() && Grows(s, s1) && Fresh(s, port, s1)
    ensures Fragments.EmitOptionalRepeatRange(expression, to, lazy, s) == Ok(ContinueOptional(port, lazy, s1, s))
  {
  }

  lemma RepetitionStep(expression: Ast.Expression, repetition: RepetitionType, lazy: bool, s: Building, port: Port, s1: Building)
    requires s.Valid() && Emit(expression, s) == Ok((port, s1))
    ensures s1.Valid() && port.inNodeIndex < s1.NodeCount() && port.outNodeIndex < s1.NodeCount()
    ensures ContinueRepetition(expression, repetition, lazy, s) == Ok(Fragments.Loop(port, repetition, lazy, s1))
  {
  }

  lemma CaptureGroupStep(expression: Ast.Expression, name: Option<string>, s: Building, port: Port, s2: Building)
    requires s.Valid() && Emit(expression, s.NewCaptureGroup(name).0) == Ok((port, s2))
    ensures s2.Valid() && port.inNodeIndex < s2.NodeCount() && port.outNodeIndex < s2.NodeCount()
    ensures EmitCaptureGroup(expression, name, s) == Ok(Fragments.Wrap(port, CaptureStart(s.NewCaptureGroup(name).1), CaptureEnd(s.NewCaptureGroup(name).1), s2))
  {
  }

  /**
   * A nested charset's items are appended after `items`; a negative preset
   * is refused.  Nested charsets are appended in place, flattened.
   */
  method AppendCharset(charset: Ast.CharSet, items: seq<CharSetItem>) returns (r: Result<seq<CharSetItem>>)
    ensures r == AppendElements(charset.elements, items)
    decreases charset
  {
    var acc := items;
    var elements := charset.elements;
    for i := 0 to |elements|
      invariant AppendElements(elements, items) == AppendElements(elements[i..], acc)
    {
      assert elements[i..][1..] == elements[i + 1..];
      match elements[i]
      case Char(c) =>
        acc := acc + [CharSetItem.Char(c)];
      case CharRange(range) =>
        acc := acc + [CharSetItem.Range(range.start, range.endIncluded)];
      case PresetCharSet(name) =>
        var appended := AppendPresetCharSetPositiveOnly(name, acc);
        if appended.Err? {
          return Err(appended.error);
        }
        acc := appended.value;
      case CharSet(custom) =>
        if custom.negative {
          return Err(Message);
        }
        var appended := AppendCharset(custom, acc);
        if appended.Err? {
          return Err(appended.error);
        }
        acc := appended.value;
    }
    assert elements[|elements|..] == [];
    return Ok(acc);
  }

  /** Compiles a program into a new route, which is what `Fragments.Compile` describes. */
  method Compile(program: Ast.Program) returns (r: Result<Route>)
    ensures Fragments.Compile(program).Ok? <==> r.Ok?
    ensures r.Ok? ==> r.value.Value() == Fragments.Compile(program).value
    ensures r.Err? ==> r.error == Fragments.Compile(program).error
  {
    var route := new Route();
    var compiler := new Compiler(program, route);
    assert compiler.State() == Building(RouteValue([EmptyLine], [], 0), 0);
    var emitted := compiler.EmitProgram();
    if emitted.Err? {
      return Err(emitted.error);
    }
    return Ok(route);
  }

  class Compiler {
    /** The syntax tree being compiled. */
    const program: Ast.Program
    /** The compilation target. */
    const route: Route
    /** The line being emitted into. */
    var currentLineIndex: nat

    ghost predicate Valid()
      reads this, route
    {
      currentLineIndex < |route.lines|
    }

    /** The route as a value and the current line: the state the specification speaks of. */
    function State(): Building
      reads this, route
    {
      Building(route.Value(), currentLineIndex)
    }

    /** A compiler for `program` whose current line is a new line of `route`. */
    constructor (program: Ast.Program, route: Route)
      modifies route
      ensures this.program == program && this.route == route
      ensures Valid() && State() == Building(old(route.Value()).WithNewLine().0, |old(route.lines)|)
    {
      var lineIndex := route.NewLine();
      this.program := program;
      this.route := route;
      currentLineIndex := lineIndex;
    }

    // -------------------------------------------------------------------
    // The current line

    /** Adds a node to the current line. */
    method NewNode() returns (idx: nat)
      requires Valid()
      modifies route
      ensures Valid() && (State(), idx) == old(State()).NewNode()
    {
      var (line, i) := route.lines[currentLineIndex].NewNode();
      route.lines := route.lines[currentLineIndex := line];
      idx := i;
    }

    /** Appends a transition to node `source` of the current line. */
    method AppendTransition(source: nat, target: nat, t: Transition)
      requires Valid() && source < State().NodeCount()
      modifies route
      ensures Valid() && State() == old(State()).Append(source, target, t)
    {
      var (line, _) := route.lines[currentLineIndex].AppendTransition(source, target, t);
      route.lines := route.lines[currentLineIndex := line];
    }

    /** Saves a fragment's ports as the current line's start and end, with its fixed flags. */
    method SetLineEnds(start: nat, end: nat, fixedStart: bool, fixedEnd: bool)
      requires Valid()
      modifies route
      ensures Valid() && State() == old(State()).WithLineEnds(start, end, fixedStart, fixedEnd)
    {
      var line := route.lines[currentLineIndex];
      line := line.(startNodeIndex := start, endNodeIndex := end, fixedStart := fixedStart, fixedEnd := fixedEnd);
      route.lines := route.lines[currentLineIndex := line];
    }

    /** Two new nodes joined by `t`. */
    method EmitSingle(t: Transition) returns (port: Port)
      requires Valid()
      modifies route
      ensures Valid() && (port, State()) == Single(old(State()), t)
    {
      var inNode := NewNode();
      var outNode := NewNode();
      AppendTransition(inNode, outNode, t);
      port := Port(inNode, outNode);
    }

    /** Two new nodes around the fragment at `port`, joined to it by `enter` and `leave`. */
    method Wrap(port: Port, enter: Transition, leave: Transition) returns (r: Port)
      requires Valid() && port.inNodeIndex < State().NodeCount() && port.outNodeIndex < State().NodeCount()
      modifies route
      ensures Valid() && (r, State()) == Fragments.Wrap(port, enter, leave, old(State()))
    {
      var inNode := NewNode();
      var outNode := NewNode();
      AppendTransition(inNode, port.inNodeIndex, enter);
      AppendTransition(port.outNodeIndex, outNode, leave);
      r := Port(inNode, outNode);
    }

    method EmitEmpty() returns (port: Port)
      requires Valid()
      modifies route
      ensures Valid() && (port, State()) == Fragments.EmitEmpty(old(State()))
    {
      port := EmitSingle(Jump);
    }

    /**
     * Joins the fragments emitted since `s0`: an empty fragment for none,
     * the only one as it is, otherwise jumps from each exit to the next entry.
     */
    method Join(ports: seq<Port>, ghost s0: Building) returns (port: Port)
      requires Valid() && PortsIn(ports, s0, State())
      modifies route
      ensures Valid() && (port, State()) == Sequence(ports, old(State()), s0)
    {
      if |ports| == 0 {
        port := EmitEmpty();
      } else if |ports| == 1 {
        port := ports[0];
      } else {
        ghost var s := State();
        for idx := 0 to |ports| - 1
          invariant Valid() && State() == Link(ports, idx, s, s0)
        {
          AppendTransition(ports[idx].outNodeIndex, ports[idx + 1].inNodeIndex, Jump);
        }
        port := Port(ports[0].inNodeIndex, ports[|ports| - 1].outNodeIndex);
      }
    }

    // -------------------------------------------------------------------
    // The program

    /**
     * Emits the whole program into the current line, wrapped in capture
     * group 0, and records the line's start and end.
     */
    method EmitProgram() returns (r: Result<()>)
      requires Valid()
      modifies this, route
      ensures Valid()
      ensures Fragments.EmitProgram(program, old(State())).Ok? <==> r.Ok?
      ensures r.Ok? ==> State() == Fragments.EmitProgram(program, old(State())).value
      ensures r.Err? ==> r.error == Fragments.EmitProgram(program, old(State())).error
    {
      var groupIndex := route.NewCaptureGroup(None);
      ghost var s1 := State();
      var es := program.expressions;
      var fixedStart := false;
      var fixedEnd := false;
      var ports: seq<Port> := [];
      var i := 0;
      while i < |es|
        invariant i <= |es| && Valid()
        invariant ProgramItems(es, i, s1) == Ok((ports, State()))
        invariant fixedStart <==> 0 < i && es[0] == Ast.Expression.Assertion(Ast.AssertionName.Start)
        invariant fixedEnd <==> 0 < i == |es| && es[i - 1] == Ast.Expression.Assertion(Ast.AssertionName.End)
      {
        var emitted := EmitProgramItem(es, i, s1, ports);
        if emitted.Err? {
          EmitProgramErr(program, old(State()), emitted.error);
          return Err(emitted.error);
        }
        fixedStart := fixedStart || es[i] == Ast.Expression.Assertion(Ast.AssertionName.Start);
        fixedEnd := es[i] == Ast.Expression.Assertion(Ast.AssertionName.End);
        ports := ports + [emitted.value];
        i := i + 1;
      }
      EmitProgramStep(program, old(State()), ports, State());
      CloseProgram(ports, groupIndex, fixedStart, fixedEnd, s1);
      return Ok(());
    }

    /**
     * The `i`-th expression of the program: refused when it is a start
     * assertion that is not first or an end assertion that is not last,
     * emitted otherwise.
     */
    method EmitProgramItem(es: seq<Ast.Expression>, i: nat, ghost s1: Building, ports: seq<Port>) returns (r: Result<Port>)
      requires i < |es| && Valid() && s1.Valid() && ProgramItems(es, i, s1) == Ok((ports, State()))
      modifies this, route
      ensures Valid()
      ensures r.Ok? ==> ProgramItems(es, i + 1, s1) == Ok((ports + [r.value], State()))
      ensures r.Ok? ==> !Misplaced(es, i)
      ensures r.Err? ==> ProgramItems(es, |es|, s1) == Err(r.error)
    {
      if es[i] == Ast.Expression.Assertion(Ast.AssertionName.Start) && i != 0 {
        ProgramItemsPrefixErr(es, i + 1, |es|, s1);
        return Err(Message);
      }
      if es[i] == Ast.Expression.Assertion(Ast.AssertionName.End) && i != |es| - 1 {
        ProgramItemsPrefixErr(es, i + 1, |es|, s1);
        return Err(Message);
      }
      ghost var t := State();
      var emitted := EmitExpression(es[i]);
      if emitted.Err? {
        ProgramItemsPrefixErr(es, i + 1, |es|, s1);
        return Err(emitted.error);
      }
      ProgramItemsStep(es, i, s1, ports, t, emitted.value, State());
      return emitted;
    }

    /**
     * Joins the program's fragments, emitted since `s0`, wraps them in
     * capture group `groupIndex` and records the line's start and end.
     */
    method CloseProgram(ports: seq<Port>, groupIndex: nat, fixedStart: bool, fixedEnd: bool, ghost s0: Building)
      requires Valid() && PortsIn(ports, s0, State())
      modifies route
      ensures Valid() && State() == Fragments.CloseProgram(ports, groupIndex, fixedStart, fixedEnd, old(State()), s0)
    {
      var programPort := Join(ports, s0);
      var port := Wrap(programPort, CaptureStart(groupIndex), CaptureEnd(groupIndex));
      SetLineEnds(port.inNodeIndex, port.outNodeIndex, fixedStart, fixedEnd);
    }

    // -------------------------------------------------------------------
    // Expressions

    method EmitExpression(e: Ast.Expression) returns (r: Result<Port>)
      requires Valid()
      modifies this, route
      ensures Valid()
      ensures Agrees(r, Emit(e, old(State())), State())
      decreases e, 1
    {
      match e
      case Literal(literal) =>
        r := EmitLiteral(literal);
      case Identifier(name) =>
        r := EmitBackreference(name);
      case Assertion(name) =>
        var port := EmitSingle(Assertion(name));
        r := Ok(port);
      case Group(es) =>
        r := EmitGroup(es);
      case FunctionCall(call) =>
        r := EmitFunctionCall(call);
      case Or(left, right) =>
        r := EmitLogicOr(left, right);
    }

    method EmitGroup(es: seq<Ast.Expression>) returns (r: Result<Port>)
      requires Valid()
      modifies this, route
      ensures Valid()
      ensures Agrees(r, Fragments.EmitGroup(es, old(State())), State())
      decreases es, 3
    {
      ghost var s0 := State();
      var ports: seq<Port> := [];
      var i := 0;
      while i < |es|
        invariant i <= |es| && Valid()
        invariant EmitAll(es[..i], s0) == Ok((ports, State()))
      {
        assert es[..i + 1][..i] == es[..i];
        var emitted := EmitExpression(es[i]);
        if emitted.Err? {
          EmitAllPrefixErr(es, i + 1, s0);
          return Err(emitted.error);
        }
        ports := ports + [emitted.value];
        i := i + 1;
      }
      assert es[..i] == es;
      var port := Join(ports, s0);
      return Ok(port);
    }

    method EmitLogicOr(left: Ast.Expression, right: Ast.Expression) returns (r: Result<Port>)
      requires Valid()
      modifies this, route
      ensures Valid()
      ensures Agrees(r, Fragments.EmitLogicOr(left, right, old(State())), State())
      decreases Ast.Or(left, right), 0
    {
      ghost var s0 := State();
      var leftPort := EmitExpression(left);
      if leftPort.Err? {
        return Err(leftPort.error);
      }
      r := ContinueEmitLogicOr(left, right, leftPort.value, s0);
    }

    /** The right fragment after the left one at `leftPort`, emitted from `s0`, then the branch around both. */
    method ContinueEmitLogicOr(ghost left: Ast.Expression, right: Ast.Expression, leftPort: Port, ghost s0: Building) returns (r: Result<Port>)
      requires Valid() && s0.Valid() && Emit(left, s0) == Ok((leftPort, State()))
      modifies this, route
      ensures Valid()
      ensures Agrees(r, Fragments.EmitLogicOr(left, right, s0), State())
      decreases right, 2
    {
      ghost var s1 := State();
      var rightPort := EmitExpression(right);
      if rightPort.Err? {
        return Err(rightPort.error);
      }
      LogicOrStep(left, right, s0, leftPort, s1, rightPort.value, State());
      var port := Branch(leftPort, rightPort.value);
      return Ok(port);
    }

    /** An entry jumping to the left fragment, then to the right one, and an exit both jump to. */
    method Branch(left: Port, right: Port) returns (r: Port)
      requires Valid()
      requires left.inNodeIndex < State().NodeCount() && left.outNodeIndex < State().NodeCount()
      requires right.inNodeIndex < State().NodeCount() && right.outNodeIndex < State().NodeCount()
      modifies route
      ensures Valid() && (r, State()) == Fragments.Branch(left, right, old(State()))
    {
      var inNode := NewNode();
      var outNode := NewNode();
      AppendTransition(inNode, left.inNodeIndex, Jump);
      AppendTransition(inNode, right.inNodeIndex, Jump);
      AppendTransition(left.outNodeIndex, outNode, Jump);
      AppendTransition(right.outNodeIndex, outNode, Jump);
      r := Port(inNode, outNode);
    }

    // -------------------------------------------------------------------
    // Literals

    method EmitLiteral(literal: Ast.Literal) returns (r: Result<Port>)
      requires Valid()
      modifies route
      ensures Valid()
      ensures Agrees(r, Fragments.EmitLiteral(literal, old(State())), State())
    {
      match literal
      case Char(c) =>
        var port := EmitSingle(Transition.Char(c));
        r := Ok(port);
      case String(text) =>
        var port := EmitSingle(Transition.String(text));
        r := Ok(port);
      case CharSet(charset) =>
        var inNode := NewNode();
        var outNode := NewNode();
        var items := AppendCharset(charset, []);
        if items.Err? {
          return Err(items.error);
        }
        AppendTransition(inNode, outNode, Transition.CharSet(items.value, charset.negative));
        r := Ok(Port(inNode, outNode));
      case PresetCharSet(name) =>
        var port := EmitSingle(PresetCharSetTransition(name));
        r := Ok(port);
      case Special(_) =>
        var port := EmitSingle(SpecialChar);
        r := Ok(port);
    }

    method EmitBackreference(name: string) returns (r: Result<Port>)
      requires Valid()
      modifies route
      ensures Valid()
      ensures Agrees(r, Fragments.EmitBackreference(name, old(State())), State())
    {
      var index := route.CaptureGroupIndexByName(name);
      if index.None? {
        return Err(Message);
      }
      var port := EmitSingle(BackReference(index.value));
      return Ok(port);
    }

    // -------------------------------------------------------------------
    // Function calls

    method EmitFunctionCall(call: Ast.FunctionCall) returns (r: Result<Port>)
      requires Valid()
      modifies this, route
      ensures Valid()
      ensures Agrees(r, Fragments.EmitFunctionCall(call, old(State())), State())
      decreases call, 2
    {
      var expression := call.expression;
      var args := call.args;
      var lazy := IsLazy(call.name);
      match call.name
      case Optional =>
        r := EmitOptional(expression, lazy);
      case OptionalLazy =>
        r := EmitOptional(expression, lazy);
      case OneOrMore =>
        r := EmitRepeatRange(expression, 1, UsizeMax, lazy);
      case OneOrMoreLazy =>
        r := EmitRepeatRange(expression, 1, UsizeMax, lazy);
      case ZeroOrMore =>
        r := EmitOptionalRepeatRange(expression, UsizeMax, lazy);
      case ZeroOrMoreLazy =>
        r := EmitOptionalRepeatRange(expression, UsizeMax, lazy);
      case Repeat =>
        r := EmitRepeat(expression, args);
      case RepeatRange =>
        r := EmitRepeatRangeCall(expression, args, lazy);
      case RepeatRangeLazy =>
        r := EmitRepeatRangeCall(expression, args, lazy);
      case AtLeast =>
        r := EmitAtLeast(expression, args, lazy);
      case AtLeastLazy =>
        r := EmitAtLeast(expression, args, lazy);
      case IsBefore =>
        r := EmitAssertionCall(call, false);
      case IsNotBefore =>
        r := EmitAssertionCall(call, true);
      case IsAfter =>
        r := EmitAssertionCall(call, false);
      case IsNotAfter =>
        r := EmitAssertionCall(call, true);
      case Name =>
        if |args| > 0 && args[0].Identifier? {
          r := ContinueEmitCaptureGroup(expression, Some(args[0].identifier));
        } else {
          r := Err(Message);
        }
      case Index =>
        r := ContinueEmitCaptureGroup(expression, None);
    }

    /** A look-around call: the other expression is its first argument. */
    method EmitAssertionCall(call: Ast.FunctionCall, negative: bool) returns (r: Result<Port>)
      requires Valid()
      requires call.name in {Ast.FunctionName.IsBefore, Ast.FunctionName.IsNotBefore, Ast.FunctionName.IsAfter, Ast.FunctionName.IsNotAfter}
      requires negative <==> call.name in {Ast.FunctionName.IsNotBefore, Ast.FunctionName.IsNotAfter}
      modifies this, route
      ensures Valid()
      ensures Agrees(r, Fragments.EmitFunctionCall(call, old(State())), State())
      decreases call, 1
    {
      var args := call.args;
      if |args| == 0 || !args[0].Expression? {
        return Err(Message);
      }
      if call.name == Ast.FunctionName.IsBefore || call.name == Ast.FunctionName.IsNotBefore {
        r := EmitLookaheadAssertion(call, call.expression, args[0].expression, negative);
      } else {
        r := EmitLookbehindAssertion(call, call.expression, args[0].expression, negative);
      }
    }

    /** `{m}`. */
    method EmitRepeat(expression: Ast.Expression, args: seq<Ast.FunctionCallArg>) returns (r: Result<Port>)
      requires Valid()
      modifies this, route
      ensures Valid()
      ensures Agrees(r, Fragments.EmitFunctionCall(Ast.FunctionCall.FunctionCall(Ast.FunctionName.Repeat, expression, args), old(State())), State())
      decreases expression, 6
    {
      var times := ArgNumber(args, 0);
      if times.Err? {
        return Err(times.error);
      }
      if times.value == 0 {
        var port := EmitEmpty();
        r := Ok(port);
      } else if times.value == 1 {
        r := EmitExpression(expression);
      } else {
        r := EmitRepeatSpecified(expression, times.value);
      }
    }

    /** `{m,n}`. */
    method EmitRepeatRangeCall(expression: Ast.Expression, args: seq<Ast.FunctionCallArg>, lazy: bool) returns (r: Result<Port>)
      requires Valid()
      modifies this, route
      ensures Valid()
      ensures Agrees(r, Fragments.EmitRepeatRangeCall(expression, args, lazy, old(State())), State())
      decreases expression, 5
    {
      var from := ArgNumber(args, 0);
      if from.Err? {
        return Err(from.error);
      }
      var to := ArgNumber(args, 1);
      if to.Err? {
        return Err(to.error);
      }
      if from.value > to.value {
        return Err(Message);
      }
      if from.value == 0 {
        if to.value == 0 {
          var port := EmitEmpty();
          r := Ok(port);
        } else if to.value == 1 {
          r := EmitOptional(expression, lazy);
        } else {
          r := EmitOptionalRepeatRange(expression, to.value, lazy);
        }
      } else if to.value == 1 {
        r := EmitExpression(expression);
      } else if from.value == to.value {
        r := EmitRepeatSpecified(expression, from.value);
      } else {
        r := EmitRepeatRange(expression, from.value, to.value, lazy);
      }
    }

    /** `{m,}`. */
    method EmitAtLeast(expression: Ast.Expression, args: seq<Ast.FunctionCallArg>, lazy: bool) returns (r: Result<Port>)
      requires Valid()
      modifies this, route
      ensures Valid()
      ensures Agrees(r, Fragments.EmitAtLeast(expression, args, lazy, old(State())), State())
      decreases expression, 5
    {
      var from := ArgNumber(args, 0);
      if from.Err? {
        return Err(from.error);
      }
      if from.value == 0 {
        r := EmitOptionalRepeatRange(expression, UsizeMax, lazy);
      } else {
        r := EmitRepeatRange(expression, from.value, UsizeMax, lazy);
      }
    }

    /** `{0,to}`: a loop from 1 to `to`, made optional. */
    method EmitOptionalRepeatRange(expression: Ast.Expression, to: nat, lazy: bool) returns (r: Result<Port>)
      requires Valid() && to > 1
      modifies this, route
      ensures Valid()
      ensures Agrees(r, Fragments.EmitOptionalRepeatRange(expression, to, lazy, old(State())), State())
      decreases expression, 4
    {
      ghost var s0 := State();
      var port := EmitRepeatRange(expression, 1, to, lazy);
      if port.Err? {
        return Err(port.error);
      }
      OptionalRepeatRangeStep(expression, to, lazy, s0, port.value, State());
      var optional := ContinueEmitOptional(port.value, lazy, s0);
      return Ok(optional);
    }

    method EmitOptional(expression: Ast.Expression, lazy: bool) returns (r: Result<Port>)
      requires Valid()
      modifies this, route
      ensures Valid()
      ensures Agrees(r, Fragments.EmitOptional(expression, lazy, old(State())), State())
      decreases expression, 2
    {
      ghost var s0 := State();
      var port := EmitExpression(expression);
      if port.Err? {
        return Err(port.error);
      }
      OptionalStep(expression, lazy, s0, port.value, State());
      var optional := ContinueEmitOptional(port.value, lazy, s0);
      return Ok(optional);
    }

    /** Makes the fragment at `port`, emitted since `s0`, optional. */
    method ContinueEmitOptional(port: Port, lazy: bool, ghost s0: Building) returns (r: Port)
      requires Valid() && s0.Valid() && Grows(s0, State()) && Fresh(s0, port, State())
      modifies route
      ensures Valid() && (r, State()) == ContinueOptional(port, lazy, old(State()), s0)
    {
      var inNode := NewNode();
      var outNode := NewNode();
      if lazy {
        AppendTransition(inNode, outNode, Jump);
      }
      AppendTransition(inNode, port.inNodeIndex, Jump);
      AppendTransition(port.outNodeIndex, outNode, Jump);
      if !lazy {
        AppendTransition(inNode, outNode, Jump);
      }
      r := Port(inNode, outNode);
    }

    method EmitRepeatSpecified(expression: Ast.Expression, times: nat) returns (r: Result<Port>)
      requires Valid() && times > 1
      modifies this, route
      ensures Valid()
      ensures Agrees(r, Fragments.EmitRepeatSpecified(expression, times, old(State())), State())
      decreases expression, 3
    {
      r := ContinueEmitRepetition(expression, RepetitionType.Specified(times), true);
    }

    method EmitRepeatRange(expression: Ast.Expression, from: nat, to: nat, lazy: bool) returns (r: Result<Port>)
      requires Valid() && from > 0 && to > 1 && to > from
      modifies this, route
      ensures Valid()
      ensures Agrees(r, Fragments.EmitRepeatRange(expression, from, to, lazy, old(State())), State())
      decreases expression, 3
    {
      r := ContinueEmitRepetition(expression, RepetitionType.Range(from, to), lazy);
    }

    method ContinueEmitRepetition(expression: Ast.Expression, repetition: RepetitionType, lazy: bool) returns (r: Result<Port>)
      requires Valid()
      modifies this, route
      ensures Valid()
      ensures Agrees(r, ContinueRepetition(expression, repetition, lazy, old(State())), State())
      decreases expression, 2
    {
      ghost var s0 := State();
      var emitted := EmitExpression(expression);
      if emitted.Err? {
        return Err(emitted.error);
      }
      RepetitionStep(expression, repetition, lazy, s0, emitted.value, State());
      var port := Loop(emitted.value, repetition, lazy);
      return Ok(port);
    }

    /** The counted loop around the fragment at `port`, with a new counter. */
    method Loop(port: Port, repetition: RepetitionType, lazy: bool) returns (r: Port)
      requires Valid() && port.inNodeIndex < State().NodeCount() && port.outNodeIndex < State().NodeCount()
      modifies route
      ensures Valid() && (r, State()) == Fragments.Loop(port, repetition, lazy, old(State()))
    {
      var counter := route.NewCounter();
      var inNode := NewNode();
      var leftNode := NewNode();
      var rightNode := NewNode();
      AppendTransition(inNode, leftNode, CounterReset(counter));
      AppendTransition(leftNode, port.inNodeIndex, Jump);
      AppendTransition(port.outNodeIndex, rightNode, CounterInc(counter));
      if lazy {
        var outNode := NewNode();
        AppendTransition(rightNode, outNode, CounterCheck(counter, repetition));
        AppendTransition(rightNode, leftNode, Repetition(counter, repetition));
        r := Port(inNode, outNode);
      } else {
        var anchorNode := NewNode();
        var branchNode := NewNode();
        var outNode := NewNode();
        AppendTransition(rightNode, leftNode, RepetitionAnchor(counter, repetition));
        AppendTransition(rightNode, anchorNode, CounterCheck(counter, repetition));
        AppendTransition(anchorNode, branchNode, Jump);
        AppendTransition(branchNode, outNode, Jump);
        AppendTransition(branchNode, anchorNode, Backtrack(counter, anchorNode));
        r := Port(inNode, outNode);
      }
    }

    /** Takes the group's index, then emits the expression between capture transitions. */
    method ContinueEmitCaptureGroup(expression: Ast.Expression, name: Option<string>) returns (r: Result<Port>)
      requires Valid()
      modifies this, route
      ensures Valid()
      ensures Agrees(r, EmitCaptureGroup(expression, name, old(State())), State())
      decreases expression, 2
    {
      ghost var s0 := State();
      var groupIndex := route.NewCaptureGroup(name);
      var emitted := EmitExpression(expression);
      if emitted.Err? {
        return Err(emitted.error);
      }
      CaptureGroupStep(expression, name, s0, emitted.value, State());
      var port := Wrap(emitted.value, CaptureStart(groupIndex), CaptureEnd(groupIndex));
      return Ok(port);
    }

    /** Creates a new line and makes it the current one. */
    method OpenSubLine() returns (subLineIndex: nat)
      requires Valid()
      modifies this, route
      ensures Valid()
      ensures subLineIndex == |old(route.lines)| && State() == SubLine(old(State()))
    {
      subLineIndex := route.NewLine();
      currentLineIndex := subLineIndex;
    }

    /**
     * Saves the sub-pattern's ports as the current line's start and end
     * (its start fixed, its end as `fixedEnd` says), then returns to line
     * `savedLineIndex`.
     */
    method CloseSubLine(subPort: Port, fixedEnd: bool, savedLineIndex: nat)
      requires Valid() && savedLineIndex < |route.lines|
      modifies this, route
      ensures Valid()
      ensures State() == Building(old(State()).WithLineEnds(subPort.inNodeIndex, subPort.outNodeIndex, true, fixedEnd).route, savedLineIndex)
    {
      SetLineEnds(subPort.inNodeIndex, subPort.outNodeIndex, true, fixedEnd);
      currentLineIndex := savedLineIndex;
    }

    /**
     * `current` on the current line, `next` on a new line of its own; an
     * error while emitting `next` leaves the new line current.
     */
    method EmitLookaheadAssertion(ghost call: Ast.FunctionCall, current: Ast.Expression, next: Ast.Expression, negative: bool) returns (r: Result<Port>)
      requires Valid()
      requires current == call.expression && |call.args| > 0 && call.args[0] == Ast.FunctionCallArg.Expression(next)
      modifies this, route
      ensures Valid()
      ensures Agrees(r, EmitLookahead(call, current, next, negative, old(State())), State())
      decreases call, 0
    {
      var emitted := EmitExpression(current);
      if emitted.Err? {
        return Err(emitted.error);
      }
      var port := emitted.value;
      var savedLineIndex := currentLineIndex;
      var subLineIndex := OpenSubLine();
      var subPort := EmitExpression(next);
      if subPort.Err? {
        return Err(subPort.error);
      }
      CloseSubLine(subPort.value, false, savedLineIndex);
      var wrapped := Wrap(port, Jump, LookAheadAssertion(subLineIndex, negative));
      return Ok(wrapped);
    }

    /** `previous` on a new line of its own, then `current` back on the current line. */
    method EmitLookbehindAssertion(ghost call: Ast.FunctionCall, current: Ast.Expression, previous: Ast.Expression, negative: bool) returns (r: Result<Port>)
      requires Valid()
      requires current == call.expression && |call.args| > 0 && call.args[0] == Ast.FunctionCallArg.Expression(previous)
      modifies this, route
      ensures Valid()
      ensures Agrees(r, EmitLookbehind(call, current, previous, negative, old(State())), State())
      decreases call, 0
    {
      var savedLineIndex := currentLineIndex;
      var subLineIndex := OpenSubLine();
      var patternCharsLength := 0;
      var subPort := EmitExpression(previous);
      if subPort.Err? {
        return Err(subPort.error);
      }
      CloseSubLine(subPort.value, true, savedLineIndex);
      var emitted := EmitExpression(current);
      if emitted.Err? {
        return Err(emitted.error);
      }
      var port := Wrap(emitted.value, LookBehindAssertion(subLineIndex, negative, patternCharsLength), Jump);
      return Ok(port);
    }
  }
}
