/** The breadth-first tree a search leaves behind, and the run it gives to each state. */
module Traces {

  import opened Options

  /** One line of a printed trace: the action taken (none at the start) and the state it led to. */
  datatype Entry<S, L> = Entry(action: Option<L>, state: S)

  /** Each state after the first was first reached from an earlier one. */
  ghost predicate IsTree<S, L>(states: seq<S>, parent: seq<Option<(nat, L)>>) {
    && |states| == |parent| > 0
    && parent[0] == None
    && forall i :: 0 < i < |parent| ==> parent[i].Some? && parent[i].value.0 < i
  }

  /** The run from the first state to `node` along the tree. */
  ghost function PrefixOf<S, L>(states: seq<S>, parent: seq<Option<(nat, L)>>, node: nat): (run: seq<Entry<S, L>>)
    requires IsTree(states, parent) && node < |states|
    ensures |run| > 0 && run[|run| - 1].state == states[node]
    ensures run[0] == Entry(None, states[0])
    decreases node
  {
    if node == 0 then [Entry(None, states[0])]
    else PrefixOf(states, parent, parent[node].value.0) + [Entry(Some(parent[node].value.1), states[node])]
  }

  function Backwards<T>(xs: seq<T>): (ys: seq<T>)
    ensures |ys| == |xs|
    ensures forall i :: 0 <= i < |xs| ==> ys[i] == xs[|xs| - 1 - i]
  {
    if xs == [] then [] else Backwards(xs[1..]) + [xs[0]]
  }

  /** Follow the parents back to the start and turn the result round. */
  method Prefix<S, L>(states: seq<S>, parent: seq<Option<(nat, L)>>, node0: nat) returns (run: seq<Entry<S, L>>)
    requires IsTree(states, parent) && node0 < |states|
    ensures run == PrefixOf(states, parent, node0)
  {
    var node: nat := node0;
    var path: seq<Entry<S, L>> := [];
    while parent[node] != None
      invariant 0 <= node < |states|
      invariant PrefixOf(states, parent, node) + Backwards(path) == PrefixOf(states, parent, node0)
      decreases node
    {
      var (source, action) := parent[node].value;
      ghost var path0 := path;
      path := path + [Entry(Some(action), states[node])];
      assert Backwards(path) == [Entry(Some(action), states[node])] + Backwards(path0);
      node := source;
    }
    path := path + [Entry(None, states[node])];
    run := Backwards(path);
    assert run == [Entry(None, states[node])] + Backwards(path[..|path| - 1]);
    assert path[..|path| - 1] + [Entry(None, states[node])] == path;
  }
}
