/**
 * The compilation target: a route is a list of lines (the main pattern and
 * one sub-pattern per look-around assertion) and a list of capture groups.
 * A line is a list of nodes; each node holds an ordered list of transitions
 * to other nodes of the same line.
 *
 * `Route` is an object updated in place, as in the original; its lines
 * live in its list and are values.  `Value()` reads the route as a plain
 * value, and every update is also stated as a function on that value,
 * which the compiler's specification uses.
 */
module Route {
  import opened Errors
  import Ast

  /** How many times a counted loop may run. */
  datatype RepetitionType = Specified(times: nat) | Range(from: nat, to: nat)

  /**
   * The items of a charset transition.  The helpers that fill them in are
   * not part of this model; each call of one records a single item.
   */
  datatype CharSetItem =
    | Char(character: char)
    | Range(start: char, endIncluded: char)
    | PresetWord
    | PresetSpace
    | PresetDigit

  /** The transitions the compiler emits. */
  datatype Transition =
    | Jump
    | Char(character: char)
    | SpecialChar
    | String(text: string)
    | CharSet(items: seq<CharSetItem>, negative: bool)
    | BackReference(captureGroupIndex: nat)
    | Assertion(name: Ast.AssertionName)
    | CaptureStart(captureGroupIndex: nat)
    | CaptureEnd(captureGroupIndex: nat)
    | CounterReset(counterIndex: nat)
    | CounterInc(counterIndex: nat)
    | CounterCheck(counterIndex: nat, repetition: RepetitionType)
    | Repetition(counterIndex: nat, repetition: RepetitionType)
    | RepetitionAnchor(counterIndex: nat, repetition: RepetitionType)
    | Backtrack(counterIndex: nat, anchorNodeIndex: nat)
    | LookAheadAssertion(lineIndex: nat, negative: bool)
    | LookBehindAssertion(lineIndex: nat, negative: bool, patternCharsLength: nat)

  datatype TransitionItem = TransitionItem(transition: Transition, targetNodeIndex: nat)

  datatype Node = Node(transitionItems: seq<TransitionItem>)

  datatype CaptureGroup = CaptureGroup(name: Option<string>)

  /**
   * A line of the route.  Lines are owned by the route's list and updated
   * where they sit in it, so a line is a value; its updating operations
   * return the updated line, which the route stores back in its place.
   */
  datatype Line = Line(nodes: seq<Node>, startNodeIndex: nat, endNodeIndex: nat, fixedStart: bool, fixedEnd: bool)
  {
    /** Adds a node with no transitions; its index is the previous number of nodes. */
    function NewNode(): (r: (Line, nat))
      ensures r.1 == |nodes| && r.0.nodes == nodes + [Node([])]
      ensures r.0 == this.(nodes := r.0.nodes)
    {
      (this.(nodes := nodes + [Node([])]), |nodes|)
    }

    /**
     * Appends a transition to the end of node `source`'s list; the index is
     * its place in that list.  Every other node is left as it was.
     */
    function AppendTransition(source: nat, target: nat, t: Transition): (r: (Line, nat))
      requires source < |nodes|
      ensures r.1 == |nodes[source].transitionItems|
      ensures |r.0.nodes| == |nodes| && r.0 == this.(nodes := r.0.nodes)
      ensures r.0.nodes[source].transitionItems == nodes[source].transitionItems + [TransitionItem(t, target)]
      ensures forall k :: 0 <= k < |nodes| && k != source ==> r.0.nodes[k] == nodes[k]
    {
      var items := nodes[source].transitionItems;
      (this.(nodes := nodes[source := Node(items + [TransitionItem(t, target)])]), |items|)
    }
  }

  /** A new line: no nodes, start and end 0, neither end fixed. */
  const EmptyLine := Line([], 0, 0, false, false)

  /** A route read as a value. */
  datatype RouteValue = RouteValue(lines: seq<Line>, captureGroups: seq<CaptureGroup>, numberOfCounters: nat)
  {
    /** The route with one more, empty, line and that line's index. */
    function WithNewLine(): (r: (RouteValue, nat))
      ensures r.1 == |lines| && r.0.lines == lines + [EmptyLine]
    {
      (this.(lines := lines + [EmptyLine]), |lines|)
    }

    /** The route with one more capture group and that group's index. */
    function WithCaptureGroup(name: Option<string>): (r: (RouteValue, nat))
      ensures r.1 == |captureGroups| && r.0.captureGroups == captureGroups + [CaptureGroup(name)]
    {
      (this.(captureGroups := captureGroups + [CaptureGroup(name)]), |captureGroups|)
    }

    /** The route with one more counter and that counter's index. */
    function WithCounter(): (r: (RouteValue, nat))
      ensures r.1 == numberOfCounters && r.0.numberOfCounters == numberOfCounters + 1
    {
      (this.(numberOfCounters := numberOfCounters + 1), numberOfCounters)
    }
  }

  /** The index of the first group named `name`; unnamed groups never match. */
  function IndexByName(groups: seq<CaptureGroup>, name: string): (r: Option<nat>)
    ensures r.Some? ==> r.value < |groups| && groups[r.value].name == Some(name)
    ensures r.Some? ==> forall k :: 0 <= k < r.value ==> groups[k].name != Some(name)
    ensures r.None? ==> forall k :: 0 <= k < |groups| ==> groups[k].name != Some(name)
  {
    if groups == [] then None
    else if groups[0].name == Some(name) then Some(0)
    else
      match IndexByName(groups[1..], name)
      case None => None
      case Some(k) => Some(k + 1)
  }

  /** The name of each group, in order. */
  function Names(groups: seq<CaptureGroup>): (r: seq<Option<string>>)
    ensures |r| == |groups|
    ensures forall k :: 0 <= k < |groups| ==> r[k] == groups[k].name
  {
    if groups == [] then [] else Names(groups[..|groups| - 1]) + [groups[|groups| - 1].name]
  }

  class Route {
    var lines: seq<Line>
    var captureGroups: seq<CaptureGroup>
    /** The counter allocator: the number of counters handed out so far. */
    var numberOfCounters: nat

    function Value(): RouteValue
      reads this
    {
      RouteValue(lines, captureGroups, numberOfCounters)
    }

    constructor ()
      ensures Value() == RouteValue([], [], 0)
    {
      lines := [];
      captureGroups := [];
      numberOfCounters := 0;
    }

    /** Adds an empty line and returns its index, the previous number of lines. */
    method NewLine() returns (idx: nat)
      modifies this
      ensures idx == |old(lines)| && lines == old(lines) + [EmptyLine]
      ensures captureGroups == old(captureGroups) && numberOfCounters == old(numberOfCounters)
      ensures (Value(), idx) == old(Value()).WithNewLine()
    {
      idx := |lines|;
      lines := lines + [EmptyLine];
    }

    /** Adds a capture group and returns its index, the previous number of groups. */
    method NewCaptureGroup(name: Option<string>) returns (idx: nat)
      modifies this
      ensures lines == old(lines) && numberOfCounters == old(numberOfCounters)
      ensures idx == |old(captureGroups)| && captureGroups == old(captureGroups) + [CaptureGroup(name)]
      ensures (Value(), idx) == old(Value()).WithCaptureGroup(name)
    {
      idx := |captureGroups|;
      captureGroups := captureGroups + [CaptureGroup(name)];
    }

    /** Hands out a new counter and returns its index, the previous number of counters. */
    method NewCounter() returns (idx: nat)
      modifies this
      ensures lines == old(lines) && captureGroups == old(captureGroups)
      ensures idx == old(numberOfCounters) && numberOfCounters == old(numberOfCounters) + 1
      ensures (Value(), idx) == old(Value()).WithCounter()
    {
      idx := numberOfCounters;
      numberOfCounters := numberOfCounters + 1;
    }

    function CaptureGroupIndexByName(name: string): (r: Option<nat>)
      reads this
      ensures r == IndexByName(captureGroups, name)
    {
      IndexByName(captureGroups, name)
    }

    function CaptureGroupNames(): (r: seq<Option<string>>)
      reads this
      ensures |r| == |captureGroups|
      ensures forall k :: 0 <= k < |captureGroups| ==> r[k] == captureGroups[k].name
    {
      Names(captureGroups)
    }

    function NumberOfCaptureGroups(): (r: nat)
      reads this
      ensures r == |CaptureGroupNames()|
    {
      |captureGroups|
    }
  }
}
