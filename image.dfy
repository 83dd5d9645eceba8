/**
 * The image: the state sets of a compiled pattern, its capture groups and
 * its counter allocator.  Here each state keeps its transitions in a plain
 * list, in the order they were appended.  Capture groups are the same
 * records the route keeps, and are looked up with the same functions.
 */
module Image {
  import opened Errors
  import opened Transition
  import State
  import Route

  /** The index of the main state set. */
  const MainStatesetIndex: nat := 0

  datatype StateNode = StateNode(transitions: seq<State.TransitionNode>)

  class StateSet {
    var states: seq<StateNode>
    var startNodeIndex: nat
    var endNodeIndex: nat
    /** Set when the pattern is anchored at its start. */
    var fixedStart: bool
    /** Set when the pattern is anchored at its end. */
    var fixedEnd: bool

    constructor ()
      ensures states == [] && startNodeIndex == 0 && endNodeIndex == 0 && !fixedStart && !fixedEnd
    {
      states := [];
      startNodeIndex := 0;
      endNodeIndex := 0;
      fixedStart := false;
      fixedEnd := false;
    }

    /** Adds a state with no transitions; its index is the previous number of states. */
    method NewState() returns (idx: nat)
      modifies this
      ensures idx == |old(states)| && states == old(states) + [StateNode([])]
      ensures startNodeIndex == old(startNodeIndex) && endNodeIndex == old(endNodeIndex)
      ensures fixedStart == old(fixedStart) && fixedEnd == old(fixedEnd)
    {
      idx := |states|;
      states := states + [StateNode([])];
    }

    /** Appends a transition to the end of state `source`'s list; no other state changes. */
    method AppendTransition(source: nat, target: nat, transition: Transition)
      requires source < |states|
      modifies this
      ensures |states| == |old(states)|
      ensures states[source].transitions == old(states[source].transitions) + [State.TransitionNode(transition, target)]
      ensures forall i :: 0 <= i < |states| && i != source ==> states[i] == old(states[i])
      ensures startNodeIndex == old(startNodeIndex) && endNodeIndex == old(endNodeIndex)
      ensures fixedStart == old(fixedStart) && fixedEnd == old(fixedEnd)
    {
      var node := states[source];
      states := states[source := StateNode(node.transitions + [State.TransitionNode(transition, target)])];
    }
  }

  class Image {
    var statesets: seq<StateSet>
    var captures: seq<Route.CaptureGroup>
    var numberOfCounters: nat

    constructor ()
      ensures statesets == [] && captures == [] && numberOfCounters == 0
    {
      statesets := [];
      captures := [];
      numberOfCounters := 0;
    }

    /** Adds a new, empty state set; its index is the previous number of state sets. */
    method NewStateset() returns (idx: nat)
      modifies this
      ensures idx == |old(statesets)| && |statesets| == idx + 1 && statesets[..idx] == old(statesets)
      ensures fresh(statesets[idx])
      ensures statesets[idx].states == [] && statesets[idx].startNodeIndex == 0 && statesets[idx].endNodeIndex == 0
      ensures !statesets[idx].fixedStart && !statesets[idx].fixedEnd
      ensures captures == old(captures) && numberOfCounters == old(numberOfCounters)
    {
      var stateset := new StateSet();
      idx := |statesets|;
      statesets := statesets + [stateset];
    }

    /** Hands out a new counter: the previous number of counters. */
    method NewCounter() returns (idx: nat)
      modifies this
      ensures idx == old(numberOfCounters) && numberOfCounters == old(numberOfCounters) + 1
      ensures statesets == old(statesets) && captures == old(captures)
    {
      idx := numberOfCounters;
      numberOfCounters := numberOfCounters + 1;
    }

    /** Adds a capture group; its index is the previous number of groups. */
    method NewMatch(name: Option<string>) returns (idx: nat)
      modifies this
      ensures idx == |old(captures)| && captures == old(captures) + [Route.CaptureGroup(name)]
      ensures statesets == old(statesets) && numberOfCounters == old(numberOfCounters)
    {
      idx := |captures|;
      captures := captures + [Route.CaptureGroup(name)];
    }

    /** The index of the first group named `name`; unnamed groups never match. */
    function GetCaptureIndexByName(name: string): (r: Option<nat>)
      reads this
      ensures r.Some? ==> r.value < |captures| && captures[r.value].name == Some(name)
      ensures r.Some? ==> forall k :: 0 <= k < r.value ==> captures[k].name != Some(name)
      ensures r.None? ==> forall k :: 0 <= k < |captures| ==> captures[k].name != Some(name)
    {
      Route.IndexByName(captures, name)
    }

    /** The name of each group, in order. */
    function GetCaptureNames(): (r: seq<Option<string>>)
      reads this
      ensures |r| == |captures|
      ensures forall k :: 0 <= k < |captures| ==> r[k] == captures[k].name
    {
      Route.Names(captures)
    }

    function GetNumberOfCaptures(): (r: nat)
      reads this
      ensures r == |GetCaptureNames()|
    {
      |captures|
    }

    function GetNumberOfCounters(): nat
      reads this
    {
      numberOfCounters
    }
  }
}
