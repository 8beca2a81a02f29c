/**
 * Strongly connected components by an iterative two-pass search.
 * The first pass lists vertices in the order an explicit-stack depth-first search finishes them;
 * the second pass walks predecessors from the vertices in the opposite order.
 */
module StrongComponents {
  import opened Ordering
  import opened Graphs

  /** Labelled outgoing edges of every vertex. */
  type Adjacency<L> = map<nat, seq<(L, nat)>>

  /** The unlabelled graph under an adjacency table. */
  ghost function Successors<L>(adjacency: Adjacency<L>): (g: Graph)
  {
    map u | u in adjacency :: set k | 0 <= k < |adjacency[u]| :: adjacency[u][k].1
  }

  lemma EdgeIndex<L>(adjacency: Adjacency<L>, u: nat, v: nat)
    ensures Edge(Successors(adjacency), u, v) <==>
            u in adjacency && exists k :: 0 <= k < |adjacency[u]| && adjacency[u][k].1 == v
  {
  }

  ghost predicate Distinct(xs: seq<nat>) {
    forall i, j :: 0 <= i < j < |xs| ==> xs[i] != xs[j]
  }

  /**
   * What the second pass needs of the finishing order: a vertex that reaches order[k] through
   * vertices finished before order[k] is itself reached from order[k].
   */
  ghost predicate Finished(g: Graph, order: seq<nat>) {
    forall k, v {:trigger ReachesThrough(g, Elements(order[..k]), v, order[k])} ::
      0 <= k < |order| && ReachesThrough(g, Elements(order[..k]), v, order[k]) ==> Reaches(g, order[k], v)
  }

  // ---------------------------------------------------------------- first pass

  ghost predicate OnStack(stack: seq<(nat, bool)>, i: nat, w: nat) {
    exists j :: i < j < |stack| && stack[j] == (w, false)
  }

  ghost predicate MarkersOnce(stack: seq<(nat, bool)>) {
    forall i, j :: 0 <= i < j < |stack| && stack[i].1 && stack[j].1 ==> stack[i].0 != stack[j].0
  }

  ghost predicate SeenSplit(seen: set<nat>, order: seq<nat>, stack: seq<(nat, bool)>) {
    && (forall i :: 0 <= i < |stack| && stack[i].1 ==> stack[i].0 in seen && stack[i].0 !in order)
    && (forall v :: v in seen ==> v in order || (v, true) in stack)
    && (forall v :: v in order ==> v in seen)
  }

  /** Open vertices reach everything above them on the stack. */
  ghost predicate OpenReach(g: Graph, stack: seq<(nat, bool)>) {
    forall i, j :: 0 <= i < j < |stack| && stack[i].1 ==> Reaches(g, stack[i].0, stack[j].0)
  }

  /** A successor of an open vertex has been seen or still waits above it. */
  ghost predicate OpenCovered(g: Graph, seen: set<nat>, stack: seq<(nat, bool)>) {
    forall i, w :: 0 <= i < |stack| && stack[i].1 && Edge(g, stack[i].0, w)
      ==> w in seen || OnStack(stack, i, w)
  }

  ghost predicate FinishedCovered(g: Graph, seen: set<nat>, order: seq<nat>) {
    forall v, w :: v in order && Edge(g, v, w) ==> w in seen
  }

  /** Whatever runs into an open vertex through finished ones is reached back from it. */
  ghost predicate OpenBack(g: Graph, order: seq<nat>, stack: seq<(nat, bool)>) {
    forall i, v :: 0 <= i < |stack| && stack[i].1 && ReachesThrough(g, Elements(order), v, stack[i].0)
      ==> Reaches(g, stack[i].0, v)
  }

  ghost predicate Search(g: Graph, vertices: set<nat>, seen: set<nat>, order: seq<nat>, stack: seq<(nat, bool)>) {
    && seen <= vertices
    && (forall i :: 0 <= i < |stack| ==> stack[i].0 in vertices)
    && Distinct(order)
    && MarkersOnce(stack)
    && SeenSplit(seen, order, stack)
    && OpenReach(g, stack)
    && OpenCovered(g, seen, stack)
    && FinishedCovered(g, seen, order)
    && OpenBack(g, order, stack)
    && Finished(g, order)
  }

  /** Dropping an already seen entry from the top keeps the search invariant. */
  lemma DropSeen(g: Graph, vertices: set<nat>, seen: set<nat>, order: seq<nat>, stack: seq<(nat, bool)>)
    requires Search(g, vertices, seen, order, stack)
    requires |stack| > 0 && !stack[|stack| - 1].1 && stack[|stack| - 1].0 in seen
    ensures Search(g, vertices, seen, order, stack[..|stack| - 1])
  {
    var rest := stack[..|stack| - 1];
    forall v | v in seen
      ensures v in order || (v, true) in rest
    {
      if v !in order {
        var i :| 0 <= i < |stack| && stack[i] == (v, true);
        assert rest[i] == (v, true);
      }
    }
    forall i, w | 0 <= i < |rest| && rest[i].1 && Edge(g, rest[i].0, w)
      ensures w in seen || OnStack(rest, i, w)
    {
      if w !in seen {
        assert stack[i].1;
        var j :| i < j < |stack| && stack[j] == (w, false);
        assert rest[j] == (w, false);
      }
    }
  }

  /** Finishing the open vertex on top: all its successors have been seen. */
  lemma Close(g: Graph, vertices: set<nat>, seen: set<nat>, order: seq<nat>, stack: seq<(nat, bool)>)
    requires Search(g, vertices, seen, order, stack)
    requires |stack| > 0 && stack[|stack| - 1].1
    ensures Search(g, vertices, seen, order + [stack[|stack| - 1].0], stack[..|stack| - 1])
  {
    var top := |stack| - 1;
    var x := stack[top].0;
    var rest, order' := stack[..top], order + [x];
    assert Elements(order') == Elements(order) + {x};
    forall v | v in seen
      ensures v in order' || (v, true) in rest
    {
      if v !in order && v != x {
        var i :| 0 <= i < |stack| && stack[i] == (v, true);
        assert rest[i] == (v, true);
      }
    }
    forall i, w | 0 <= i < |rest| && rest[i].1 && Edge(g, rest[i].0, w)
      ensures w in seen || OnStack(rest, i, w)
    {
      if w !in seen {
        assert stack[i].1;
        var j :| i < j < |stack| && stack[j] == (w, false);
        assert rest[j] == (w, false);
      }
    }
    forall w | Edge(g, x, w)
      ensures w in seen
    {
      assert stack[top].1;
      assert !OnStack(stack, top, w);
    }
    forall i, v | 0 <= i < |rest| && rest[i].1 && ReachesThrough(g, Elements(order'), v, rest[i].0)
      ensures Reaches(g, rest[i].0, v)
    {
      ReachesThroughGrown(g, Elements(order), x, v, rest[i].0);
      if !ReachesThrough(g, Elements(order), v, stack[i].0) {
        assert Reaches(g, x, v);
        ReachesTransitive(g, stack[i].0, x, v);
      }
    }
    forall k, v | 0 <= k < |order'| && ReachesThrough(g, Elements(order'[..k]), v, order'[k])
      ensures Reaches(g, order'[k], v)
    {
      if k < |order| {
        assert order'[..k] == order[..k];
      } else {
        assert order'[..k] == order;
      }
    }
  }

  /** `waiting` lists, unmarked, exactly the unseen successors of `x`. */
  ghost predicate Waiting(g: Graph, seen: set<nat>, x: nat, waiting: seq<(nat, bool)>) {
    && (forall i :: 0 <= i < |waiting| ==> !waiting[i].1 && Edge(g, x, waiting[i].0))
    && (forall w :: Edge(g, x, w) && w !in seen ==> (w, false) in waiting)
  }

  lemma EnteredIsSeen(g: Graph, seen: set<nat>, order: seq<nat>, p: seq<nat>, v: nat, x: nat)
    requires FinishedCovered(g, seen, order)
    requires Connects(g, p, v, x) && Inner(p, Elements(order))
    ensures |p| == 1 || x in seen
  {
    if |p| > 1 {
      assert p[|p| - 2] in order;
      assert Edge(g, p[|p| - 2], p[|p| - 1]);
    }
  }

  /** Opening an unseen vertex: nothing finished can point at it. */
  lemma Open(g: Graph, vertices: set<nat>, seen: set<nat>, order: seq<nat>, stack: seq<(nat, bool)>,
             waiting: seq<(nat, bool)>)
    requires Search(g, vertices, seen, order, stack) && Closed(g, vertices)
    requires |stack| > 0 && !stack[|stack| - 1].1 && stack[|stack| - 1].0 !in seen
    requires Waiting(g, seen + {stack[|stack| - 1].0}, stack[|stack| - 1].0, waiting)
    ensures var x := stack[|stack| - 1].0;
            Search(g, vertices, seen + {x}, order, stack[..|stack| - 1] + [(x, true)] + waiting)
  {
    var top := |stack| - 1;
    var x := stack[top].0;
    var seen' := seen + {x};
    var stack' := stack[..top] + [(x, true)] + waiting;
    assert stack'[top] == (x, true);
    assert forall i :: 0 <= i < top ==> stack'[i] == stack[i];
    assert forall i :: top < i < |stack'| ==> stack'[i] == waiting[i - top - 1];
    forall v | v in seen'
      ensures v in order || (v, true) in stack'
    {
      if v != x && v !in order {
        var i :| 0 <= i < |stack| && stack[i] == (v, true);
        assert stack'[i] == (v, true);
      }
    }
    OpenKeepsReach(g, stack, waiting, x);
    OpenKeepsCovered(g, seen, stack, waiting, x);
    OpenKeepsBack(g, seen, order, stack, waiting, x);
  }

  lemma OpenKeepsBack(g: Graph, seen: set<nat>, order: seq<nat>, stack: seq<(nat, bool)>, waiting: seq<(nat, bool)>,
                      x: nat)
    requires |stack| > 0 && stack[|stack| - 1].0 == x && x !in seen && OpenBack(g, order, stack)
    requires FinishedCovered(g, seen, order) && forall i :: 0 <= i < |waiting| ==> !waiting[i].1
    ensures OpenBack(g, order, stack[..|stack| - 1] + [(x, true)] + waiting)
  {
    var top := |stack| - 1;
    var stack' := stack[..top] + [(x, true)] + waiting;
    forall i, v | 0 <= i < |stack'| && stack'[i].1 && ReachesThrough(g, Elements(order), v, stack'[i].0)
      ensures Reaches(g, stack'[i].0, v)
    {
      assert i <= top;
      if i == top {
        var p :| Connects(g, p, v, x) && Inner(p, Elements(order));
        EnteredIsSeen(g, seen, order, p, v, x);
      } else {
        assert stack[i].1;
      }
    }
  }

  lemma OpenKeepsReach(g: Graph, stack: seq<(nat, bool)>, waiting: seq<(nat, bool)>, x: nat)
    requires |stack| > 0 && stack[|stack| - 1].0 == x && OpenReach(g, stack)
    requires forall i :: 0 <= i < |waiting| ==> !waiting[i].1 && Edge(g, x, waiting[i].0)
    ensures OpenReach(g, stack[..|stack| - 1] + [(x, true)] + waiting)
  {
    var top := |stack| - 1;
    var stack' := stack[..top] + [(x, true)] + waiting;
    forall i, j | 0 <= i < j < |stack'| && stack'[i].1
      ensures Reaches(g, stack'[i].0, stack'[j].0)
    {
      assert i <= top;
      if j > top {
        assert stack'[j] == waiting[j - top - 1];
        ReachesStep(g, x, stack'[j].0);
        if i < top {
          assert Reaches(g, stack[i].0, stack[top].0);
          ReachesTransitive(g, stack[i].0, x, stack'[j].0);
        }
      } else {
        assert Reaches(g, stack[i].0, stack[j].0);
      }
    }
  }

  lemma OpenKeepsCovered(g: Graph, seen: set<nat>, stack: seq<(nat, bool)>, waiting: seq<(nat, bool)>, x: nat)
    requires |stack| > 0 && stack[|stack| - 1] == (x, false) && OpenCovered(g, seen, stack)
    requires Waiting(g, seen + {x}, x, waiting)
    ensures OpenCovered(g, seen + {x}, stack[..|stack| - 1] + [(x, true)] + waiting)
  {
    var top := |stack| - 1;
    var stack' := stack[..top] + [(x, true)] + waiting;
    forall i, w | 0 <= i < |stack'| && stack'[i].1 && Edge(g, stack'[i].0, w)
      ensures w in seen + {x} || OnStack(stack', i, w)
    {
      assert i <= top;
      if w !in seen + {x} {
        if i == top {
          var j :| 0 <= j < |waiting| && waiting[j] == (w, false);
          assert stack'[top + 1 + j] == (w, false);
        } else {
          assert stack[i].1;
          var j :| i < j < |stack| && stack[j] == (w, false);
          assert stack'[j] == (w, false);
        }
      }
    }
  }

  /** The unseen destinations of `out`, last edge first. */
  function Unseen<L>(out: seq<(L, nat)>, seen: set<nat>): (waiting: seq<(nat, bool)>)
    ensures forall i :: 0 <= i < |waiting| ==>
              !waiting[i].1 && exists k :: 0 <= k < |out| && out[k].1 == waiting[i].0
    ensures forall k :: 0 <= k < |out| && out[k].1 !in seen ==> (out[k].1, false) in waiting
  {
    if out == [] then []
    else
      var rest := Unseen(out[1..], seen);
      var waiting := if out[0].1 in seen then rest else rest + [(out[0].1, false)];
      assert forall k :: 0 <= k < |out| ==> k == 0 || out[k] == out[1..][k - 1];
      waiting
  }

  /** Between roots nothing is open: what has been seen is exactly what has been finished. */
  ghost predicate Settled(g: Graph, vertices: set<nat>, seen: set<nat>, order: seq<nat>) {
    Search(g, vertices, seen, order, [])
  }

  /** One root of the first pass. */
  method Visit<L>(vertices: set<nat>, adjacency: Adjacency<L>, root: nat, seen0: set<nat>, order0: seq<nat>)
    returns (seen: set<nat>, order: seq<nat>)
    requires vertices <= adjacency.Keys && Closed(Successors(adjacency), vertices)
    requires root in vertices && Settled(Successors(adjacency), vertices, seen0, order0)
    ensures Settled(Successors(adjacency), vertices, seen, order)
    ensures seen0 <= seen && root in seen
  {
    ghost var g := Successors(adjacency);
    seen, order := seen0, order0;
    var stack := [(root, false)];
    while stack != []
      invariant Search(g, vertices, seen, order, stack)
      invariant seen0 <= seen
      invariant root in seen || (root, false) in stack
      decreases vertices - seen, |stack|
    {
      var (node, done) := stack[|stack| - 1];
      var rest := stack[..|stack| - 1];
      assert stack == rest + [(node, done)];
      if done {
        Close(g, vertices, seen, order, stack);
        order := order + [node];
        stack := rest;
      } else if node !in seen {
        var waiting := Unseen(adjacency[node], seen + {node});
        assert Waiting(g, seen + {node}, node, waiting) by {
          assert forall w :: Edge(g, node, w) <==>
              exists k :: 0 <= k < |adjacency[node]| && adjacency[node][k].1 == w by {
            forall w { EdgeIndex(adjacency, node, w); }
          }
        }
        Open(g, vertices, seen, order, stack, waiting);
        seen := seen + {node};
        stack := rest + [(node, true)] + waiting;
      } else {
        DropSeen(g, vertices, seen, order, stack);
        stack := rest;
      }
    }
  }

  /** The vertices in the order the depth-first search finishes them. */
  method FinishOrder<L>(vertices: set<nat>, adjacency: Adjacency<L>) returns (order: seq<nat>)
    requires vertices <= adjacency.Keys && Closed(Successors(adjacency), vertices)
    ensures Distinct(order) && Elements(order) == vertices
    ensures Finished(Successors(adjacency), order)
  {
    var roots := List(vertices);
    var seen: set<nat> := {};
    order := [];
    for r := 0 to |roots|
      invariant Settled(Successors(adjacency), vertices, seen, order)
      invariant forall k :: 0 <= k < r ==> roots[k] in seen
    {
      if roots[r] !in seen {
        seen, order := Visit(vertices, adjacency, roots[r], seen, order);
      }
    }
    assert forall v :: v in vertices ==> v in roots;
  }

  // --------------------------------------------------------------- second pass

  /** `reverse` lists, for every vertex, the sources of the edges into it. */
  ghost predicate Reversed(g: Graph, vertices: set<nat>, reverse: map<nat, seq<nat>>) {
    && reverse.Keys == vertices
    && forall u, v {:trigger u in reverse[v]} {:trigger Edge(g, u, v)} :: v in vertices ==>
         (u in reverse[v] <==> u in vertices && Edge(g, u, v))
  }

  method Reverse<L>(vertices: set<nat>, adjacency: Adjacency<L>) returns (reverse: map<nat, seq<nat>>)
    requires vertices <= adjacency.Keys && Closed(Successors(adjacency), vertices)
    ensures Reversed(Successors(adjacency), vertices, reverse)
  {
    ghost var g := Successors(adjacency);
    reverse := map v | v in vertices :: [];
    var todo := vertices;
    while todo != {}
      invariant todo <= vertices && reverse.Keys == vertices
      invariant forall u, v :: v in vertices ==>
        (u in reverse[v] <==> u in vertices - todo && Edge(g, u, v))
      decreases todo
    {
      var node :| node in todo;
      ghost var before := reverse;
      for k := 0 to |adjacency[node]|
        invariant reverse.Keys == vertices
        invariant forall u, v :: v in vertices ==>
          (u in reverse[v] <==> u in before[v] || (u == node && exists j :: 0 <= j < k && adjacency[node][j].1 == v))
      {
        var dest := adjacency[node][k].1;
        EdgeIndex(adjacency, node, dest);
        assert dest in vertices;
        reverse := reverse[dest := reverse[dest] + [node]];
      }
      forall u, v | v in vertices
        ensures u in reverse[v] <==> u in vertices - (todo - {node}) && Edge(g, u, v)
      {
        EdgeIndex(adjacency, node, v);
        assert node !in before[v];
        if u != node {
          assert u in reverse[v] <==> u in before[v];
          assert u in vertices - (todo - {node}) <==> u in vertices - todo;
        } else {
          assert node in reverse[v] <==> exists j :: 0 <= j < |adjacency[node]| && adjacency[node][j].1 == v;
        }
      }
      todo := todo - {node};
    }
    assert vertices - todo == vertices;
  }

  /** Every source of an edge into `s` is in `s`. */
  ghost predicate PredecessorClosed(g: Graph, vertices: set<nat>, s: set<nat>) {
    forall u, v {:trigger Edge(g, u, v)} :: u in vertices && v in s && Edge(g, u, v) ==> u in s
  }

  lemma PredecessorClosedPath(g: Graph, vertices: set<nat>, s: set<nat>, p: seq<nat>, k: nat)
    requires Closed(g, vertices) && PredecessorClosed(g, vertices, s)
    requires IsPath(g, p) && p[0] in vertices && p[|p| - 1] in s && k < |p|
    ensures p[k] in s
    decreases |p| - k
  {
    if k < |p| - 1 {
      PredecessorClosedPath(g, vertices, s, p, k + 1);
      ClosedUnderReaches(g, vertices, p, k);
      assert Edge(g, p[k], p[k + 1]);
    }
  }

  /** The predecessors of `root` that have not been seen, gathered by an explicit stack. */
  method Collect(ghost g: Graph, vertices: set<nat>, reverse: map<nat, seq<nat>>, root: nat, seen0: set<nat>)
    returns (seen: set<nat>, component: set<nat>)
    requires Closed(g, vertices) && root in vertices - seen0
    requires Reversed(g, vertices, reverse)
    requires PredecessorClosed(g, vertices, seen0) && seen0 <= vertices
    ensures seen == seen0 + component && component !! seen0 && seen <= vertices
    ensures PredecessorClosed(g, vertices, seen)
    ensures forall v :: v in component <==> v in vertices - seen0 && Reaches(g, v, root)
  {
    seen, component := seen0, {};
    var stack := [root];
    ReachesSelf(g, root);
    while stack != []
      invariant seen == seen0 + component && component !! seen0 && seen <= vertices
      invariant forall v :: v in component ==> Reaches(g, v, root)
      invariant forall i :: 0 <= i < |stack| ==> stack[i] in vertices && Reaches(g, stack[i], root)
      invariant forall u, v :: u in vertices && v in component && Edge(g, u, v) ==> u in seen || u in stack
      invariant root in component || root in stack
      decreases vertices - seen, |stack|
    {
      var node := stack[|stack| - 1];
      assert stack == stack[..|stack| - 1] + [node];
      ghost var before := stack;
      stack := stack[..|stack| - 1];
      if node !in seen {
        seen, component := seen + {node}, component + {node};
        forall i | 0 <= i < |reverse[node]|
          ensures reverse[node][i] in vertices && Reaches(g, reverse[node][i], root)
        {
          assert reverse[node][i] in reverse[node];
          ReachesStep(g, reverse[node][i], node);
          ReachesTransitive(g, reverse[node][i], node, root);
        }
        stack := stack + reverse[node];
      }
    }
    forall v | v in vertices - seen0 && Reaches(g, v, root)
      ensures v in component
    {
      var p :| Connects(g, p, v, root);
      PredecessorClosedPath(g, vertices, seen, p, 0);
    }
  }

  /** `block` is the whole mutual-reachability class of each of its members. */
  ghost predicate IsClass(g: Graph, vertices: set<nat>, block: set<nat>) {
    && block != {} && block <= vertices
    && forall u, v {:trigger Mutual(g, u, v)} :: u in block && v in vertices ==> (v in block <==> Mutual(g, u, v))
  }

  ghost predicate AllClasses(g: Graph, vertices: set<nat>, blocks: seq<set<nat>>) {
    forall i {:trigger IsClass(g, vertices, blocks[i])} :: 0 <= i < |blocks| ==> IsClass(g, vertices, blocks[i])
  }

  ghost predicate IsPartition(g: Graph, vertices: set<nat>, blocks: seq<set<nat>>) {
    && AllClasses(g, vertices, blocks)
    && (forall i, j :: 0 <= i < j < |blocks| ==> blocks[i] !! blocks[j])
    && (forall v :: v in vertices ==> exists i :: 0 <= i < |blocks| && v in blocks[i])
  }

  /** No edge leads from a later block into an earlier one. */
  ghost predicate SourcesFirst(g: Graph, blocks: seq<set<nat>>) {
    forall i, j, u, v {:trigger blocks[i], blocks[j], Edge(g, u, v)} ::
      0 <= i < |blocks| && 0 <= j < |blocks| && u in blocks[i] && v in blocks[j] && Edge(g, u, v) ==> i <= j
  }

  /**
   * The set gathered from the last unseen vertex of the finishing order is its class:
   * a member reaches the root through unseen, hence earlier finished, vertices only.
   */
  lemma CollectedIsClass(g: Graph, vertices: set<nat>, order: seq<nat>, k: nat, seen0: set<nat>, component: set<nat>)
    requires Closed(g, vertices) && Distinct(order) && Elements(order) == vertices && Finished(g, order)
    requires k < |order| && order[k] !in seen0
    requires TailSeen(order, k + 1, seen0)
    requires seen0 <= vertices && PredecessorClosed(g, vertices, seen0)
    requires forall v :: v in component <==> v in vertices - seen0 && Reaches(g, v, order[k])
    ensures IsClass(g, vertices, component)
  {
    var root := order[k];
    ReachesSelf(g, root);
    forall v | v in component
      ensures Mutual(g, v, root)
    {
      RootReachesBack(g, vertices, order, k, seen0, v);
    }
    forall v | v in vertices && Mutual(g, v, root)
      ensures v in component
    {
      if v in seen0 {
        var p :| Connects(g, p, root, v);
        PredecessorClosedPath(g, vertices, seen0, p, 0);
        assert false;
      }
    }
    forall u, v | u in component && v in vertices
      ensures v in component <==> Mutual(g, u, v)
    {
      if v in component { MutualTransitive(g, u, root, v); }
      if Mutual(g, u, v) { MutualTransitive(g, v, u, root); }
    }
    assert root in component;
  }

  lemma RootReachesBack(g: Graph, vertices: set<nat>, order: seq<nat>, k: nat, seen0: set<nat>, v: nat)
    requires Closed(g, vertices) && Elements(order) == vertices && Finished(g, order)
    requires k < |order| && order[k] !in seen0
    requires TailSeen(order, k + 1, seen0)
    requires PredecessorClosed(g, vertices, seen0)
    requires v in vertices - seen0 && Reaches(g, v, order[k])
    ensures Reaches(g, order[k], v)
  {
    var root := order[k];
    var q :| Connects(g, q, v, root);
    var m := FirstVisit(q, root);
    ConnectsParts(g, q, m);
    var p := q[..m + 1];
    forall i | 0 <= i < |p| - 1
      ensures p[i] in Elements(order[..k])
    {
      ClosedUnderReaches(g, vertices, p, i);
      if p[i] in seen0 {
        ConnectsParts(g, p, i);
        PredecessorClosedPath(g, vertices, seen0, p[..i + 1], 0);
        assert false;
      }
      var j :| 0 <= j < |order| && order[j] == p[i];
      assert order[..k][j] == p[i];
    }
    assert Inner(p, Elements(order[..k]));
    assert ReachesThrough(g, Elements(order[..k]), v, root);
  }

  /** The blocks are disjoint and make up `seen`. */
  ghost predicate Covers(seen: set<nat>, blocks: seq<set<nat>>) {
    && (forall i :: 0 <= i < |blocks| ==> blocks[i] <= seen)
    && (forall i, j :: 0 <= i < j < |blocks| ==> blocks[i] !! blocks[j])
    && (forall v :: v in seen ==> exists i :: 0 <= i < |blocks| && v in blocks[i])
  }

  lemma CoversMore(seen: set<nat>, blocks: seq<set<nat>>, component: set<nat>)
    requires Covers(seen, blocks) && component !! seen
    ensures Covers(seen + component, blocks + [component])
  {
    var blocks' := blocks + [component];
    forall v | v in seen + component
      ensures exists i :: 0 <= i < |blocks'| && v in blocks'[i]
    {
      if v in component {
        assert v in blocks'[|blocks|];
      } else {
        var i :| 0 <= i < |blocks| && v in blocks[i];
        assert v in blocks'[i];
      }
    }
  }

  lemma SourcesFirstMore(g: Graph, vertices: set<nat>, seen: set<nat>, blocks: seq<set<nat>>, component: set<nat>)
    requires SourcesFirst(g, blocks) && PredecessorClosed(g, vertices, seen)
    requires component !! seen && component <= vertices
    requires forall i :: 0 <= i < |blocks| ==> blocks[i] <= seen
    ensures SourcesFirst(g, blocks + [component])
  {
    var blocks' := blocks + [component];
    forall i, j, u, v | 0 <= i < |blocks'| && 0 <= j < |blocks'| && u in blocks'[i] && v in blocks'[j] && Edge(g, u, v)
      ensures i <= j
    {
      assert j < |blocks| ==> v in seen;
    }
  }

  /** What one root of the second pass adds: nothing if it has been seen, its class otherwise. */
  method NextBlock(ghost g: Graph, vertices: set<nat>, order: seq<nat>, reverse: map<nat, seq<nat>>,
                   k: nat, seen0: set<nat>)
    returns (seen: set<nat>, component: set<nat>)
    requires Closed(g, vertices) && Distinct(order) && Elements(order) == vertices && Finished(g, order)
    requires Reversed(g, vertices, reverse)
    requires seen0 <= vertices && PredecessorClosed(g, vertices, seen0)
    requires k < |order| && order[k] !in seen0
    requires TailSeen(order, k + 1, seen0)
    ensures seen == seen0 + component && component !! seen0 && order[k] in component
    ensures PredecessorClosed(g, vertices, seen) && IsClass(g, vertices, component)
  {
    assert order[k] in vertices;
    ReachesSelf(g, order[k]);
    seen, component := Collect(g, vertices, reverse, order[k], seen0);
    CollectedIsClass(g, vertices, order, k, seen0, component);
  }

  /** Every vertex finished at or after position k has been seen. */
  ghost predicate TailSeen(order: seq<nat>, k: nat, seen: set<nat>) {
    forall i :: k <= i < |order| ==> order[i] in seen
  }

  lemma TailSeenMore(order: seq<nat>, k: nat, seen0: set<nat>, seen: set<nat>)
    requires k < |order| && TailSeen(order, k + 1, seen0) && seen0 <= seen && order[k] in seen
    ensures TailSeen(order, k, seen)
  {
  }

  method SecondPass(ghost g: Graph, vertices: set<nat>, order: seq<nat>, reverse: map<nat, seq<nat>>)
    returns (blocks: seq<set<nat>>)
    requires Closed(g, vertices) && Distinct(order) && Elements(order) == vertices && Finished(g, order)
    requires Reversed(g, vertices, reverse)
    ensures IsPartition(g, vertices, blocks) && SourcesFirst(g, blocks)
  {
    var seen: set<nat> := {};
    blocks := [];
    var k := |order|;
    while k > 0
      invariant 0 <= k <= |order|
      invariant seen <= vertices && PredecessorClosed(g, vertices, seen)
      invariant Covers(seen, blocks) && SourcesFirst(g, blocks)
      invariant AllClasses(g, vertices, blocks)
      invariant TailSeen(order, k, seen)
    {
      k := k - 1;
      ghost var seen0 := seen;
      if order[k] !in seen {
        var component;
        seen, component := NextBlock(g, vertices, order, reverse, k, seen);
        CoversMore(seen0, blocks, component);
        SourcesFirstMore(g, vertices, seen0, blocks, component);
        blocks := blocks + [component];
      }
      TailSeenMore(order, k, seen0, seen);
    }
    forall v | v in vertices
      ensures v in seen
    {
      assert v in order;
    }
  }

  /**
   * The strongly connected components, in the order they are produced: a partition of the vertices
   * into exactly the mutual-reachability classes, no class before one that points into it.
   */
  method Components<L>(vertices: set<nat>, adjacency: Adjacency<L>) returns (blocks: seq<set<nat>>)
    requires vertices <= adjacency.Keys && Closed(Successors(adjacency), vertices)
    ensures IsPartition(Successors(adjacency), vertices, blocks)
    ensures SourcesFirst(Successors(adjacency), blocks)
  {
    var order := FinishOrder(vertices, adjacency);
    var reverse := Reverse(vertices, adjacency);
    blocks := SecondPass(Successors(adjacency), vertices, order, reverse);
  }
}
