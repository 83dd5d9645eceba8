/**
 * A state set whose transitions are kept in arenas: each state holds the
 * indices of the head and the tail of a doubly linked list of link nodes,
 * and each link node points at a transition node.  All three kinds of node
 * live in lists owned by the state set and are addressed by index.
 *
 * The ghost `chains` records, for every state, the link indices of its list
 * from head to tail; `owner` records where each link sits.  `Valid()` ties
 * them to the head, tail, previous and next indices, so `Contents(i)` is
 * what walking state `i`'s list from its head yields (`WalkIsChain`).
 */
module State {
  import opened Errors
  import opened Transition

  datatype StateNode = StateNode(linkHeadIndex: Option<nat>, linkTailIndex: Option<nat>)
  {
    /** A state has no transition exactly when it has no head link. */
    predicate IsTransitionEmpty()
    {
      linkHeadIndex.None?
    }
  }

  datatype LinkNode = LinkNode(previousIndex: Option<nat>, nextIndex: Option<nat>, transitionIndex: nat)

  datatype TransitionNode = TransitionNode(transition: Transition, targetStateIndex: nat)

  /** The neighbours a link at place `j` of `chain` must point at. */
  predicate LinkedAt(links: seq<LinkNode>, chain: seq<nat>, j: nat)
    requires j < |chain| && chain[j] < |links|
  {
    && links[chain[j]].previousIndex == (if j == 0 then None else Some(chain[j - 1]))
    && links[chain[j]].nextIndex == (if j + 1 == |chain| then None else Some(chain[j + 1]))
  }

  /** Head and tail are the ends of the chain, and both are absent when it is empty. */
  predicate HeadTail(state: StateNode, chain: seq<nat>)
  {
    && (chain == [] ==> state.linkHeadIndex.None? && state.linkTailIndex.None?)
    && (chain != [] ==> state.linkHeadIndex == Some(chain[0]) && state.linkTailIndex == Some(chain[|chain| - 1]))
  }

  /**
   * Every chain lists distinct links of the arena, each link sits in the
   * chain of the state `owner` names, and no link sits in two chains.
   */
  predicate Owned(links: seq<LinkNode>, chains: seq<seq<nat>>, owner: seq<nat>)
  {
    && |owner| == |links|
    && (forall i, j :: 0 <= i < |chains| && 0 <= j < |chains[i]| ==> chains[i][j] < |links| && owner[chains[i][j]] == i)
    && (forall i, j1, j2 :: 0 <= i < |chains| && 0 <= j1 < j2 < |chains[i]| ==> chains[i][j1] != chains[i][j2])
    && (forall k :: 0 <= k < |owner| ==> owner[k] < |chains| && k in chains[owner[k]])
  }

  /** The previous and next indices of every link agree with the chains. */
  predicate Linked(links: seq<LinkNode>, chains: seq<seq<nat>>)
    requires forall i, j :: 0 <= i < |chains| && 0 <= j < |chains[i]| ==> chains[i][j] < |links|
  {
    forall i, j :: 0 <= i < |chains| && 0 <= j < |chains[i]| ==> LinkedAt(links, chains[i], j)
  }

  /** The state set's invariant, on the values of its fields. */
  predicate Wellformed(states: seq<StateNode>, links: seq<LinkNode>, transitions: seq<TransitionNode>,
                       chains: seq<seq<nat>>, owner: seq<nat>)
  {
    && |chains| == |states|
    && |transitions| == |links|
    && (forall k :: 0 <= k < |links| ==> links[k].transitionIndex == k)
    && (forall i :: 0 <= i < |states| ==> HeadTail(states[i], chains[i]))
    && Owned(links, chains, owner)
    && Linked(links, chains)
  }

  /** The transitions the links of `chain` point at, in order. */
  function Along(links: seq<LinkNode>, transitions: seq<TransitionNode>, chain: seq<nat>): (r: seq<TransitionNode>)
    requires forall j :: 0 <= j < |chain| ==> chain[j] < |links| && links[chain[j]].transitionIndex < |transitions|
    ensures |r| == |chain|
    ensures forall j :: 0 <= j < |r| ==> r[j] == transitions[links[chain[j]].transitionIndex]
  {
    seq(|chain|, j requires 0 <= j < |chain| => transitions[links[chain[j]].transitionIndex])
  }

  /** A chain's transitions stay the same while its links keep their transition and the arena only grows. */
  lemma AlongKept(links: seq<LinkNode>, transitions: seq<TransitionNode>,
                  links': seq<LinkNode>, transitions': seq<TransitionNode>, chain: seq<nat>)
    requires forall j :: 0 <= j < |chain| ==> chain[j] < |links| && links[chain[j]].transitionIndex < |transitions|
    requires |links| <= |links'| && |transitions| <= |transitions'| && transitions'[..|transitions|] == transitions
    requires forall j :: 0 <= j < |chain| ==> links'[chain[j]].transitionIndex == links[chain[j]].transitionIndex
    ensures Along(links', transitions', chain) == Along(links, transitions, chain)
  {
    var a := Along(links', transitions', chain);
    var b := Along(links, transitions, chain);
    forall j | 0 <= j < |chain|
      ensures a[j] == b[j]
    {
      assert transitions'[links[chain[j]].transitionIndex] == transitions'[..|transitions|][links[chain[j]].transitionIndex];
    }
  }

  /** Adding the fresh link `|links|` at either end of chain `source` keeps ownership. */
  lemma GrowOwned(links: seq<LinkNode>, chains: seq<seq<nat>>, owner: seq<nat>, source: nat,
                  links': seq<LinkNode>, c': seq<nat>)
    requires Owned(links, chains, owner) && source < |chains| && |links'| == |links| + 1
    requires c' == chains[source] + [|links|] || c' == [|links|] + chains[source]
    ensures Owned(links', chains[source := c'], owner + [source])
  {
    var n := |links|;
    var c := chains[source];
    var chains' := chains[source := c'];
    var owner' := owner + [source];
    assert n in c';
    forall i, j | 0 <= i < |chains'| && 0 <= j < |chains'[i]|
      ensures chains'[i][j] < |links'| && owner'[chains'[i][j]] == i
    {
      if i == source && chains'[i][j] != n {
        assert chains'[i][j] in c;
      }
    }
    forall i, j1, j2 | 0 <= i < |chains'| && 0 <= j1 < j2 < |chains'[i]|
      ensures chains'[i][j1] != chains'[i][j2]
    {
      if i == source {
        if c' == c + [n] {
          if j2 < |c| { assert c'[j1] == c[j1] && c'[j2] == c[j2]; }
          else { assert c'[j1] == c[j1]; }
        } else {
          if j1 > 0 { assert c'[j1] == c[j1 - 1] && c'[j2] == c[j2 - 1]; }
          else { assert c'[j2] == c[j2 - 1]; }
        }
      }
    }
    forall k | 0 <= k < |owner'|
      ensures owner'[k] < |chains'| && k in chains'[owner'[k]]
    {
      if k < n && owner[k] == source {
        assert k in c;
      }
    }
  }

  /** After a link is appended to chain `source`, every previous and next index agrees with the chains. */
  lemma TailLinked(links: seq<LinkNode>, chains: seq<seq<nat>>, owner: seq<nat>, source: nat)
    requires Owned(links, chains, owner) && Linked(links, chains)
    requires source < |chains| && chains[source] != []
    ensures var n := |links|;
      var c := chains[source];
      var last := c[|c| - 1];
      var links' := (links + [LinkNode(Some(last), None, n)])[last := links[last].(nextIndex := Some(n))];
      var chains' := chains[source := c + [n]];
      && Owned(links', chains', owner + [source])
      && Linked(links', chains')
  {
    var n := |links|;
    var c := chains[source];
    var last := c[|c| - 1];
    var links' := (links + [LinkNode(Some(last), None, n)])[last := links[last].(nextIndex := Some(n))];
    var chains' := chains[source := c + [n]];
    GrowOwned(links, chains, owner, source, links', c + [n]);
    forall i, j | 0 <= i < |chains'| && 0 <= j < |chains'[i]|
      ensures LinkedAt(links', chains'[i], j)
    {
      if i != source {
        assert LinkedAt(links, chains[i], j);
        assert owner[chains[i][j]] == i;
      } else if j + 1 < |c| {
        assert LinkedAt(links, c, j);
      } else if j + 1 == |c| {
        assert LinkedAt(links, c, j);
      }
    }
  }

  /** After a link is put before the head of chain `source`, every previous and next index agrees with the chains. */
  lemma HeadLinked(links: seq<LinkNode>, chains: seq<seq<nat>>, owner: seq<nat>, source: nat)
    requires Owned(links, chains, owner) && Linked(links, chains)
    requires source < |chains| && chains[source] != []
    ensures var n := |links|;
      var c := chains[source];
      var first := c[0];
      var links' := (links + [LinkNode(None, Some(first), n)])[first := links[first].(previousIndex := Some(n))];
      var chains' := chains[source := [n] + c];
      && Owned(links', chains', owner + [source])
      && Linked(links', chains')
  {
    var n := |links|;
    var c := chains[source];
    var first := c[0];
    var links' := (links + [LinkNode(None, Some(first), n)])[first := links[first].(previousIndex := Some(n))];
    var chains' := chains[source := [n] + c];
    GrowOwned(links, chains, owner, source, links', [n] + c);
    forall i, j | 0 <= i < |chains'| && 0 <= j < |chains'[i]|
      ensures LinkedAt(links', chains'[i], j)
    {
      if i != source {
        assert LinkedAt(links, chains[i], j);
        assert owner[chains[i][j]] == i;
      } else if j > 1 {
        assert LinkedAt(links, c, j - 1);
      } else if j == 1 {
        assert LinkedAt(links, c, 0);
      }
    }
  }

  /** The first link of an empty chain `source` points nowhere. */
  lemma FirstLinked(links: seq<LinkNode>, chains: seq<seq<nat>>, owner: seq<nat>, source: nat, transitionIndex: nat)
    requires Owned(links, chains, owner) && Linked(links, chains)
    requires source < |chains| && chains[source] == []
    ensures var n := |links|;
      var links' := links + [LinkNode(None, None, transitionIndex)];
      var chains' := chains[source := [n]];
      && Owned(links', chains', owner + [source])
      && Linked(links', chains')
  {
    var n := |links|;
    var links' := links + [LinkNode(None, None, transitionIndex)];
    var chains' := chains[source := [n]];
    assert [n] == chains[source] + [n];
    GrowOwned(links, chains, owner, source, links', [n]);
    forall i, j | 0 <= i < |chains'| && 0 <= j < |chains'[i]|
      ensures LinkedAt(links', chains'[i], j)
    {
      if i != source {
        assert LinkedAt(links, chains[i], j);
      }
    }
  }

  /** Growing the arenas by one link and one transition leaves every chain's transitions as they were. */
  lemma OthersKept(links: seq<LinkNode>, transitions: seq<TransitionNode>, chains: seq<seq<nat>>,
                   links': seq<LinkNode>, transitions': seq<TransitionNode>)
    requires forall i, j :: 0 <= i < |chains| && 0 <= j < |chains[i]| ==> chains[i][j] < |links|
    requires |transitions| == |links| && forall k :: 0 <= k < |links| ==> links[k].transitionIndex == k
    requires |links'| == |links| + 1 && |transitions'| == |links'| && transitions'[..|transitions|] == transitions
    requires forall k :: 0 <= k < |links'| ==> links'[k].transitionIndex == k
    ensures forall i :: 0 <= i < |chains| ==> Along(links', transitions', chains[i]) == Along(links, transitions, chains[i])
  {
    forall i | 0 <= i < |chains|
      ensures Along(links', transitions', chains[i]) == Along(links, transitions, chains[i])
    {
      AlongKept(links, transitions, links', transitions', chains[i]);
    }
  }

  /** Link `n` joined at the tail of `c` adds its transition at the end. */
  lemma AlongAppended(links: seq<LinkNode>, transitions: seq<TransitionNode>, c: seq<nat>, n: nat)
    requires forall j :: 0 <= j < |c| ==> c[j] < |links| && links[c[j]].transitionIndex < |transitions|
    requires n < |links| && links[n].transitionIndex < |transitions|
    ensures Along(links, transitions, c + [n]) == Along(links, transitions, c) + [transitions[links[n].transitionIndex]]
  {
    assert (c + [n])[..|c|] == c;
  }

  /** Link `n` joined at the head of `c` adds its transition at the front. */
  lemma AlongPrepended(links: seq<LinkNode>, transitions: seq<TransitionNode>, c: seq<nat>, n: nat)
    requires forall j :: 0 <= j < |c| ==> c[j] < |links| && links[c[j]].transitionIndex < |transitions|
    requires n < |links| && links[n].transitionIndex < |transitions|
    ensures Along(links, transitions, [n] + c) == [transitions[links[n].transitionIndex]] + Along(links, transitions, c)
  {
    var a := Along(links, transitions, [n] + c);
    var b := [transitions[links[n].transitionIndex]] + Along(links, transitions, c);
    forall j | 0 <= j < |a|
      ensures a[j] == b[j]
    {
      if j > 0 { assert ([n] + c)[j] == c[j - 1]; }
    }
  }

  /** A sequence of distinct numbers below `m` has at most `m` elements. */
  lemma {:induction false} DistinctBelow(s: seq<nat>, m: nat)
    requires forall j :: 0 <= j < |s| ==> s[j] < m
    requires forall j1, j2 :: 0 <= j1 < j2 < |s| ==> s[j1] != s[j2]
    ensures |s| <= m
  {
    if s == [] {
    } else if p :| 0 <= p < |s| && s[p] + 1 == m {
      var s' := s[..p] + s[p + 1..];
      forall j | 0 <= j < |s'|
        ensures s'[j] < m - 1
      {
        if j < p { assert s'[j] == s[j]; } else { assert s'[j] == s[j + 1]; }
      }
      forall j1, j2 | 0 <= j1 < j2 < |s'|
        ensures s'[j1] != s'[j2]
      {
        var k1 := if j1 < p then j1 else j1 + 1;
        var k2 := if j2 < p then j2 else j2 + 1;
        assert s'[j1] == s[k1] && s'[j2] == s[k2];
      }
      DistinctBelow(s', m - 1);
    } else {
      assert s[0] < m;
      DistinctBelow(s, m - 1);
    }
  }

  class StateSet {
    var startNodeIndex: nat
    var endNodeIndex: nat
    var states: seq<StateNode>
    var links: seq<LinkNode>
    var transitions: seq<TransitionNode>

    /** The link indices of each state's list, head first. */
    ghost var chains: seq<seq<nat>>
    /** The state whose chain holds each link. */
    ghost var owner: seq<nat>

    ghost predicate Valid()
      reads this
    {
      Wellformed(states, links, transitions, chains, owner)
    }

    /** The transitions of state `i`, head first. */
    ghost function Contents(i: nat): (r: seq<TransitionNode>)
      reads this
      requires Valid() && i < |states|
    {
      Along(links, transitions, chains[i])
    }

    /** The link indices met by following next indices from `from`, at most `fuel` of them. */
    function Walk(from: Option<nat>, fuel: nat): seq<nat>
      reads this
      decreases fuel
    {
      if from.None? || fuel == 0 || from.value >= |links| then []
      else [from.value] + Walk(links[from.value].nextIndex, fuel - 1)
    }

    /** Following next indices from place `j` of a chain visits the rest of that chain and stops. */
    lemma {:induction false} WalkFollowsChain(i: nat, j: nat, fuel: nat)
      requires Valid() && i < |states| && j <= |chains[i]| && fuel >= |chains[i]| - j
      ensures Walk(if j < |chains[i]| then Some(chains[i][j]) else None, fuel) == chains[i][j..]
      decreases |chains[i]| - j
    {
      if j < |chains[i]| {
        assert LinkedAt(links, chains[i], j);
        WalkFollowsChain(i, j + 1, fuel - 1);
        assert chains[i][j..] == [chains[i][j]] + chains[i][j + 1..];
      }
    }

    /** Walking state `i`'s list from its head, with fuel for the whole arena, visits exactly its chain. */
    lemma WalkIsChain(i: nat, fuel: nat)
      requires Valid() && i < |states| && fuel >= |links|
      ensures Walk(states[i].linkHeadIndex, fuel) == chains[i]
      ensures Along(links, transitions, Walk(states[i].linkHeadIndex, fuel)) == Contents(i)
    {
      DistinctBelow(chains[i], |links|);
      assert HeadTail(states[i], chains[i]);
      WalkFollowsChain(i, 0, fuel);
      assert chains[i][0..] == chains[i];
    }

    /** Previous and next indices are inverse; the head has no previous link and the tail no next one. */
    lemma LinksAreMutual(i: nat, j: nat)
      requires Valid() && i < |states| && j < |chains[i]|
      ensures var k := chains[i][j];
        && (links[k].nextIndex.Some? ==>
              links[k].nextIndex.value < |links| && links[links[k].nextIndex.value].previousIndex == Some(k))
        && (links[k].previousIndex.Some? ==>
              links[k].previousIndex.value < |links| && links[links[k].previousIndex.value].nextIndex == Some(k))
        && (links[k].previousIndex.None? <==> states[i].linkHeadIndex == Some(k))
        && (links[k].nextIndex.None? <==> states[i].linkTailIndex == Some(k))
    {
      var c := chains[i];
      assert LinkedAt(links, c, j);
      if j > 0 {
        assert LinkedAt(links, c, j - 1);
        assert c[0] != c[j];
      }
      if j + 1 < |c| {
        assert LinkedAt(links, c, j + 1);
        assert c[|c| - 1] != c[j];
      }
      assert HeadTail(states[i], c);
    }

    /** The head is absent exactly when the tail is, exactly when the state has no transition. */
    lemma EmptyIffNoTransitions(i: nat)
      requires Valid() && i < |states|
      ensures states[i].IsTransitionEmpty() <==> states[i].linkTailIndex.None?
      ensures states[i].IsTransitionEmpty() <==> Contents(i) == []
    {
      assert HeadTail(states[i], chains[i]);
    }

    constructor ()
      ensures Valid()
      ensures startNodeIndex == 0 && endNodeIndex == 0
      ensures states == [] && links == [] && transitions == []
    {
      startNodeIndex := 0;
      endNodeIndex := 0;
      states := [];
      links := [];
      transitions := [];
      chains := [];
      owner := [];
    }

    function IsEmpty(): (r: bool)
      reads this
      ensures r <==> |states| == 0
    {
      |states| == 0
    }

    /** Adds a state with no transitions; its index is the previous number of states. */
    method NewState() returns (idx: nat)
      requires Valid()
      modifies this
      ensures Valid()
      ensures idx == |old(states)| && states == old(states) + [StateNode(None, None)]
      ensures links == old(links) && transitions == old(transitions)
      ensures startNodeIndex == old(startNodeIndex) && endNodeIndex == old(endNodeIndex)
      ensures Contents(idx) == []
      ensures forall i :: 0 <= i < idx ==> Contents(i) == old(Contents(i))
    {
      idx := |states|;
      states := states + [StateNode(None, None)];
      chains := chains + [[]];
      assert forall i :: 0 <= i < idx ==> chains[i] == old(chains[i]);
    }

    /** Stores a transition node in the arena and returns its index. */
    method AddTransitionNode(node: TransitionNode) returns (idx: nat)
      modifies this
      ensures idx == |old(transitions)| && transitions == old(transitions) + [node]
      ensures states == old(states) && links == old(links) && chains == old(chains) && owner == old(owner)
      ensures startNodeIndex == old(startNodeIndex) && endNodeIndex == old(endNodeIndex)
    {
      idx := |transitions|;
      transitions := transitions + [node];
    }

    /** Stores a link node in the arena and returns its index. */
    method AddLinkNode(node: LinkNode) returns (idx: nat)
      modifies this
      ensures idx == |old(links)| && links == old(links) + [node]
      ensures states == old(states) && transitions == old(transitions) && chains == old(chains) && owner == old(owner)
      ensures startNodeIndex == old(startNodeIndex) && endNodeIndex == old(endNodeIndex)
    {
      idx := |links|;
      links := links + [node];
    }

    /** Appends a transition to the tail of state `source`'s list. */
    method AppendTransition(source: nat, target: nat, transition: Transition)
      requires Valid() && source < |states|
      modifies this
      ensures |states| == |old(states)| && Valid()
      ensures Contents(source) == old(Contents(source)) + [TransitionNode(transition, target)]
      ensures forall i :: 0 <= i < |states| && i != source ==> Contents(i) == old(Contents(i))
      ensures forall i :: 0 <= i < |states| && i != source ==> states[i] == old(states[i])
      ensures |links| == |old(links)| + 1 && |transitions| == |old(transitions)| + 1
      ensures startNodeIndex == old(startNodeIndex) && endNodeIndex == old(endNodeIndex)
    {
      ghost var links0, transitions0, chains0, owner0 := links, transitions, chains, owner;
      var transitionIndex := AddTransitionNode(TransitionNode(transition, target));
      assert HeadTail(states[source], chains[source]);
      if states[source].IsTransitionEmpty() {
        var linkIndex := AddLinkNode(LinkNode(None, None, transitionIndex));
        states := states[source := StateNode(Some(linkIndex), Some(linkIndex))];
        FirstLinked(links0, chains0, owner0, source, transitionIndex);
        chains := chains[source := [linkIndex]];
        owner := owner + [source];
        assert chains[source] == chains0[source] + [linkIndex];
        assert HeadTail(states[source], chains[source]);
      } else {
        var last := states[source].linkTailIndex.value;
        var linkIndex := AddLinkNode(LinkNode(Some(last), None, transitionIndex));
        links := links[last := links[last].(nextIndex := Some(linkIndex))];
        states := states[source := states[source].(linkTailIndex := Some(linkIndex))];
        TailLinked(links0, chains0, owner0, source);
        ghost var c := chains[source];
        chains := chains[source := c + [linkIndex]];
        owner := owner + [source];
        assert (c + [linkIndex])[0] == c[0];
        assert HeadTail(states[source], chains[source]);
      }
      OthersKept(links0, transitions0, chains0, links, transitions);
      AlongAppended(links, transitions, chains0[source], |links0|);
    }

    /** Inserts a transition at the head of state `source`'s list. */
    method InsertTransition(source: nat, target: nat, transition: Transition)
      requires Valid() && source < |states|
      modifies this
      ensures |states| == |old(states)| && Valid()
      ensures Contents(source) == [TransitionNode(transition, target)] + old(Contents(source))
      ensures forall i :: 0 <= i < |states| && i != source ==> Contents(i) == old(Contents(i))
      ensures forall i :: 0 <= i < |states| && i != source ==> states[i] == old(states[i])
      ensures |links| == |old(links)| + 1 && |transitions| == |old(transitions)| + 1
      ensures startNodeIndex == old(startNodeIndex) && endNodeIndex == old(endNodeIndex)
    {
      ghost var links0, transitions0, chains0, owner0 := links, transitions, chains, owner;
      var transitionIndex := AddTransitionNode(TransitionNode(transition, target));
      assert HeadTail(states[source], chains[source]);
      if states[source].IsTransitionEmpty() {
        var linkIndex := AddLinkNode(LinkNode(None, None, transitionIndex));
        states := states[source := StateNode(Some(linkIndex), Some(linkIndex))];
        FirstLinked(links0, chains0, owner0, source, transitionIndex);
        chains := chains[source := [linkIndex]];
        owner := owner + [source];
        assert chains[source] == [linkIndex] + chains0[source];
        assert HeadTail(states[source], chains[source]);
      } else {
        var first := states[source].linkHeadIndex.value;
        var linkIndex := AddLinkNode(LinkNode(None, Some(first), transitionIndex));
        links := links[first := links[first].(previousIndex := Some(linkIndex))];
        states := states[source := states[source].(linkHeadIndex := Some(linkIndex))];
        HeadLinked(links0, chains0, owner0, source);
        ghost var c := chains[source];
        chains := chains[source := [linkIndex] + c];
        owner := owner + [source];
        assert ([linkIndex] + c)[|c|] == c[|c| - 1];
        assert HeadTail(states[source], chains[source]);
      }
      OthersKept(links0, transitions0, chains0, links, transitions);
      AlongPrepended(links, transitions, chains0[source], |links0|);
    }
  }
}
