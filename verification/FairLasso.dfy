/**
 * Weakly fair lassos: a cycle on which an obligation stays pending although every fair label is
 * taken somewhere on the cycle or is disabled somewhere on it.
 */
module FairLasso {
  import opened Ordering
  import opened Graphs
  import opened StrongComponents
  import opened Options
  import opened Traces

  /** A move of a walk: source, label and destination. */
  type Move<L> = (nat, L, nat)

  ghost predicate IsMove<L>(adjacency: Adjacency<L>, m: Move<L>) {
    m.0 in adjacency && (m.1, m.2) in adjacency[m.0]
  }

  /** `walk` leads from `u` to `v` along listed edges. */
  ghost predicate IsWalk<L>(adjacency: Adjacency<L>, walk: seq<Move<L>>, u: nat, v: nat) {
    && (forall i :: 0 <= i < |walk| ==> IsMove(adjacency, walk[i]))
    && (forall i :: 0 <= i < |walk| - 1 ==> walk[i].2 == walk[i + 1].0)
    && (if walk == [] then u == v else walk[0].0 == u && walk[|walk| - 1].2 == v)
  }

  ghost predicate Within<L>(walk: seq<Move<L>>, component: set<nat>) {
    forall i :: 0 <= i < |walk| ==> walk[i].0 in component && walk[i].2 in component
  }

  ghost predicate Takes<L>(walk: seq<Move<L>>, name: L) {
    exists i :: 0 <= i < |walk| && walk[i].1 == name
  }

  lemma MoveIsEdge<L>(adjacency: Adjacency<L>, m: Move<L>)
    requires IsMove(adjacency, m)
    ensures Edge(Successors(adjacency), m.0, m.2)
  {
    var k :| 0 <= k < |adjacency[m.0]| && adjacency[m.0][k] == (m.1, m.2);
    EdgeIndex(adjacency, m.0, m.2);
    assert adjacency[m.0][k].1 == m.2;
  }

  lemma WalkJoin<L>(adjacency: Adjacency<L>, a: seq<Move<L>>, b: seq<Move<L>>, u: nat, v: nat, w: nat)
    requires IsWalk(adjacency, a, u, v) && IsWalk(adjacency, b, v, w)
    ensures IsWalk(adjacency, a + b, u, w)
  {
    var c := a + b;
    forall i | 0 <= i < |c| - 1
      ensures c[i].2 == c[i + 1].0
    {
      if i >= |a| { assert c[i] == b[i - |a|] && c[i + 1] == b[i - |a| + 1]; }
    }
  }

  /** The vertices met before each move of a walk, and its end, form a path. */
  lemma WalkReaches<L>(adjacency: Adjacency<L>, walk: seq<Move<L>>, u: nat, v: nat)
    requires IsWalk(adjacency, walk, u, v)
    ensures Reaches(Successors(adjacency), u, v)
  {
    var g := Successors(adjacency);
    if walk == [] {
      ReachesSelf(g, u);
    } else {
      var rest := walk[1..];
      MoveIsEdge(adjacency, walk[0]);
      ReachesStep(g, u, walk[0].2);
      assert forall i :: 0 <= i < |rest| ==> rest[i] == walk[i + 1];
      WalkReaches(adjacency, rest, walk[0].2, v);
      ReachesTransitive(g, u, walk[0].2, v);
    }
  }

  // -------------------------------------------------------------------- routes

  /** Any two members are joined by a path inside the component. */
  ghost predicate Linked(g: Graph, component: set<nat>) {
    forall u, v {:trigger ReachesThrough(g, component, u, v)} ::
      u in component && v in component ==> ReachesThrough(g, component, u, v)
  }

  lemma ClassIsLinked(g: Graph, vertices: set<nat>, component: set<nat>)
    requires Closed(g, vertices) && IsClass(g, vertices, component)
    ensures Linked(g, component)
  {
    forall u, v | u in component && v in component
      ensures ReachesThrough(g, component, u, v)
    {
      assert Mutual(g, u, v);
      var p :| Connects(g, p, u, v);
      forall i | 0 <= i < |p|
        ensures p[i] in component
      {
        ReachesOnPath(g, p, i);
        ReachesTransitive(g, p[i], v, u);
        ClosedUnderReaches(g, vertices, p, i);
        assert Mutual(g, u, p[i]);
      }
      assert Inner(p, component);
    }
  }

  /** The walk recorded for `n` is its parent's walk and one more move. */
  ghost predicate RouteTo<L>(adjacency: Adjacency<L>, component: set<nat>, start: nat,
                             parent: map<nat, Option<(nat, L)>>, paths: map<nat, seq<Move<L>>>, n: nat)
  {
    && n in parent && n in paths
    && IsWalk(adjacency, paths[n], start, n) && Within(paths[n], component)
    && match parent[n]
       case None => n == start && paths[n] == []
       case Some((source, action)) =>
         source in parent && source in paths && paths[n] == paths[source] + [(source, action, n)]
  }

  /** The search tree of a route. */
  ghost predicate Routes<L>(adjacency: Adjacency<L>, component: set<nat>, start: nat,
                            parent: map<nat, Option<(nat, L)>>, paths: map<nat, seq<Move<L>>>)
  {
    && parent.Keys == paths.Keys && parent.Keys <= component && start in parent
    && forall n {:trigger RouteTo(adjacency, component, start, parent, paths, n)} ::
         n in parent ==> RouteTo(adjacency, component, start, parent, paths, n)
  }

  lemma AddRoute<L>(adjacency: Adjacency<L>, component: set<nat>, start: nat,
                    parent: map<nat, Option<(nat, L)>>, paths: map<nat, seq<Move<L>>>, node: nat, action: L, dest: nat)
    requires Routes(adjacency, component, start, parent, paths)
    requires node in parent && dest in component && dest !in parent && IsMove(adjacency, (node, action, dest))
    ensures Routes(adjacency, component, start, parent[dest := Some((node, action))],
                   paths[dest := paths[node] + [(node, action, dest)]])
  {
    var parent', paths' := parent[dest := Some((node, action))], paths[dest := paths[node] + [(node, action, dest)]];
    forall n | n in parent'
      ensures RouteTo(adjacency, component, start, parent', paths', n)
    {
      if n == dest {
        assert RouteTo(adjacency, component, start, parent, paths, node);
        WalkJoin(adjacency, paths[node], [(node, action, dest)], start, node, dest);
      } else {
        assert RouteTo(adjacency, component, start, parent, paths, n);
      }
    }
  }

  /** `n` has been expanded: its successors inside the component have all been found. */
  ghost predicate Expanded<L>(adjacency: Adjacency<L>, component: set<nat>, found: set<nat>, n: nat) {
    n in adjacency && forall k :: 0 <= k < |adjacency[n]| && adjacency[n][k].1 in component ==>
        adjacency[n][k].1 in found
  }

  lemma FewerLeft(component: set<nat>, before: set<nat>, after: set<nat>)
    requires before <= after <= component
    ensures component - after <= component - before
    ensures before != after ==> component - after < component - before
  {
    if n :| n in after - before {
      assert n in component - before;
    }
  }

  /** A breadth-first route inside the component; the search never runs dry. */
  method Route<L>(start: nat, end: nat, adjacency: Adjacency<L>, component: set<nat>) returns (path: seq<Move<L>>)
    requires component <= adjacency.Keys && start in component && end in component
    requires ReachesThrough(Successors(adjacency), component, start, end)
    ensures IsWalk(adjacency, path, start, end) && Within(path, component)
  {
    var todo := [start];
    var parent: map<nat, Option<(nat, L)>> := map[start := None];
    ghost var paths: map<nat, seq<Move<L>>> := map[start := []];
    while todo != []
      invariant Routes(adjacency, component, start, parent, paths)
      invariant forall i :: 0 <= i < |todo| ==> todo[i] in parent
      invariant forall n :: n in parent && n !in todo ==> n != end && Expanded(adjacency, component, parent.Keys, n)
      decreases component - parent.Keys, |todo|
    {
      var node := todo[0];
      if node == end {
        path := Retrace(start, end, adjacency, component, parent, paths);
        return;
      }
      ghost var todo0, parent0 := todo, parent;
      todo := todo[1..];
      assert todo0 == [node] + todo;
      for k := 0 to |adjacency[node]|
        invariant Routes(adjacency, component, start, parent, paths)
        invariant parent0.Keys <= parent.Keys && node in parent
        invariant forall i :: 0 <= i < |todo| ==> todo[i] in parent
        invariant forall n :: n in parent && n !in todo ==> n in parent0 && (n == node || n !in todo0)
        invariant forall j :: 0 <= j < k && adjacency[node][j].1 in component ==> adjacency[node][j].1 in parent
        invariant parent.Keys == parent0.Keys ==> |todo| == |todo0| - 1
      {
        var (action, dest) := adjacency[node][k];
        if dest in component && dest !in parent {
          AddRoute(adjacency, component, start, parent, paths, node, action, dest);
          paths := paths[dest := paths[node] + [(node, action, dest)]];
          parent := parent[dest := Some((node, action))];
          todo := todo + [dest];
          assert dest in parent.Keys - parent0.Keys;
        }
      }
      FewerLeft(component, parent0.Keys, parent.Keys);
    }
    ExhaustedMeansUnreachable(adjacency, component, start, end, parent.Keys);
    assert false;
  }

  lemma ExhaustedMeansUnreachable<L>(adjacency: Adjacency<L>, component: set<nat>, start: nat, end: nat,
                                     found: set<nat>)
    requires start in found && end in component
    requires ReachesThrough(Successors(adjacency), component, start, end)
    requires forall n :: n in found ==> Expanded(adjacency, component, found, n)
    ensures end in found
  {
    var g := Successors(adjacency);
    var p :| Connects(g, p, start, end) && Inner(p, component);
    var i := 0;
    while i < |p| - 1
      invariant 0 <= i < |p| && p[i] in found
    {
      assert Edge(g, p[i], p[i + 1]);
      EdgeIndex(adjacency, p[i], p[i + 1]);
      assert Expanded(adjacency, component, found, p[i]);
      i := i + 1;
    }
  }

  /** Walk the parents back from `end` and turn the moves round. */
  method Retrace<L>(start: nat, end: nat, adjacency: Adjacency<L>, component: set<nat>,
                    parent: map<nat, Option<(nat, L)>>, ghost paths: map<nat, seq<Move<L>>>)
    returns (path: seq<Move<L>>)
    requires Routes(adjacency, component, start, parent, paths) && end in parent
    ensures IsWalk(adjacency, path, start, end) && Within(path, component)
  {
    var moves: seq<Move<L>> := [];
    var node := end;
    while parent[node] != None
      invariant node in parent
      invariant paths[node] + Backwards(moves) == paths[end]
      decreases |paths[node]|
    {
      assert RouteTo(adjacency, component, start, parent, paths, node);
      var (source, action) := parent[node].value;
      ghost var moves0 := moves;
      moves := moves + [(source, action, node)];
      assert Backwards(moves) == [(source, action, node)] + Backwards(moves0);
      node := source;
    }
    path := Backwards(moves);
    assert RouteTo(adjacency, component, start, parent, paths, node);
    assert RouteTo(adjacency, component, start, parent, paths, end);
    assert path == paths[end];
  }

  // ----------------------------------------------------------------- witnesses

  /** Why a fair label does not break the cycle: it is disabled at a vertex, or taken by a move. */
  datatype Witness<L> = Disabled(at: nat) | Taken(move: Move<L>)

  ghost predicate Excuses<L>(adjacency: Adjacency<L>, enabled: map<nat, set<L>>, component: set<nat>, name: L,
                             w: Witness<L>) {
    match w
    case Disabled(n) => n in component && n in enabled && name !in enabled[n]
    case Taken(m) => m.1 == name && m.0 in component && m.2 in component && IsMove(adjacency, m)
  }

  ghost predicate Excusable<L>(adjacency: Adjacency<L>, enabled: map<nat, set<L>>, component: set<nat>, name: L) {
    || (exists n :: n in component && n in enabled && name !in enabled[n])
    || (exists n, d :: n in component && d in component && IsMove(adjacency, (n, name, d)))
  }

  method FindDisabled<L(==)>(component: set<nat>, enabled: map<nat, set<L>>, name: L) returns (r: Option<nat>)
    requires component <= enabled.Keys
    ensures r.Some? ==> r.value in component && name !in enabled[r.value]
    ensures r.None? ==> forall n :: n in component ==> name in enabled[n]
  {
    var nodes := List(component);
    for i := 0 to |nodes|
      invariant forall j :: 0 <= j < i ==> name in enabled[nodes[j]]
    {
      if name !in enabled[nodes[i]] { return Some(nodes[i]); }
    }
    r := None;
    assert forall n :: n in component ==> n in nodes;
  }

  method FindTaken<L(==)>(component: set<nat>, adjacency: Adjacency<L>, name: L) returns (r: Option<Move<L>>)
    requires component <= adjacency.Keys
    ensures r.Some? ==> r.value.1 == name && IsMove(adjacency, r.value)
    ensures r.Some? ==> r.value.0 in component && r.value.2 in component
    ensures r.None? ==> forall n, d :: n in component && d in component ==> !IsMove(adjacency, (n, name, d))
  {
    var nodes := List(component);
    for i := 0 to |nodes|
      invariant forall j, d :: 0 <= j < i && d in component ==> !IsMove(adjacency, (nodes[j], name, d))
    {
      var out := adjacency[nodes[i]];
      for k := 0 to |out|
        invariant forall j, d :: 0 <= j < k && d in component ==> out[j] != (name, d)
      {
        if out[k].0 == name && out[k].1 in component {
          return Some((nodes[i], name, out[k].1));
        }
      }
    }
    r := None;
    assert forall n :: n in component ==> n in nodes;
  }

  /** A witness for every fair label, or none at all if some label has none. */
  method Witnesses<L(==)>(component: set<nat>, adjacency: Adjacency<L>, enabled: map<nat, set<L>>, fair: set<L>)
    returns (r: Option<seq<Witness<L>>>, ghost labels: seq<L>)
    requires component <= adjacency.Keys && component <= enabled.Keys
    ensures r.Some? <==> forall f :: f in fair ==> Excusable(adjacency, enabled, component, f)
    ensures r.Some? ==> |labels| == |r.value| && (forall f :: f in fair ==> f in labels)
    ensures r.Some? ==> forall i :: 0 <= i < |labels| ==> Excuses(adjacency, enabled, component, labels[i], r.value[i])
  {
    var found: seq<Witness<L>> := [];
    labels := [];
    var todo := fair;
    while todo != {}
      invariant todo <= fair && |labels| == |found|
      invariant forall f :: f in fair - todo ==> f in labels
      invariant forall i :: 0 <= i < |labels| ==> Excuses(adjacency, enabled, component, labels[i], found[i])
      decreases todo
    {
      var name :| name in todo;
      var disabled := FindDisabled(component, enabled, name);
      var taken := FindTaken(component, adjacency, name);
      if disabled.Some? {
        found := found + [Disabled(disabled.value)];
      } else if taken.Some? {
        found := found + [Taken(taken.value)];
      } else {
        assert !Excusable(adjacency, enabled, component, name);
        r := None;
        return;
      }
      assert Excuses(adjacency, enabled, component, name, found[|found| - 1]);
      labels := labels + [name];
      todo := todo - {name};
    }
    r := Some(found);
    forall f | f in fair
      ensures Excusable(adjacency, enabled, component, f)
    {
      assert f in labels;
      var i :| 0 <= i < |labels| && labels[i] == f;
      assert Excuses(adjacency, enabled, component, f, found[i]);
    }
  }

  // -------------------------------------------------------------------- cycles

  /** A closed walk on which every fair label is taken or is disabled at a vertex it visits. */
  ghost predicate FairCycle<L>(adjacency: Adjacency<L>, enabled: map<nat, set<L>>, fair: set<L>, walk: seq<Move<L>>) {
    && walk != []
    && IsWalk(adjacency, walk, walk[0].0, walk[0].0)
    && forall f :: f in fair ==>
         Takes(walk, f) || exists i :: 0 <= i < |walk| && walk[i].0 in enabled && f !in enabled[walk[i].0]
  }

  ghost predicate HasLoop<L>(adjacency: Adjacency<L>, n: nat) {
    n in adjacency && exists k :: 0 <= k < |adjacency[n]| && adjacency[n][k].1 == n
  }

  ghost predicate Cyclic<L>(adjacency: Adjacency<L>, component: set<nat>) {
    |component| > 1 || exists n :: n in component && HasLoop(adjacency, n)
  }

  /** A component that a fair cycle can be built in. */
  ghost predicate Hosts<L>(adjacency: Adjacency<L>, enabled: map<nat, set<L>>, fair: set<L>, component: set<nat>) {
    Cyclic(adjacency, component) && forall f :: f in fair ==> Excusable(adjacency, enabled, component, f)
  }

  ghost predicate StaysIn<L>(adjacency: Adjacency<L>, component: set<nat>, n: nat) {
    n in adjacency && exists k :: 0 <= k < |adjacency[n]| && adjacency[n][k].1 in component
  }

  lemma CyclicStays<L>(adjacency: Adjacency<L>, component: set<nat>, root: nat)
    requires component <= adjacency.Keys && root in component && Cyclic(adjacency, component)
    requires Linked(Successors(adjacency), component)
    ensures StaysIn(adjacency, component, root)
  {
    var g := Successors(adjacency);
    if |component| > 1 {
      assert |component - {root}| == |component| - 1;
      var v :| v in component - {root};
      assert ReachesThrough(g, component, root, v);
      var p :| Connects(g, p, root, v) && Inner(p, component);
      assert p[1] in component;
      assert Edge(g, p[0], p[1]);
      EdgeIndex(adjacency, root, p[1]);
    } else {
      var n :| n in component && HasLoop(adjacency, n);
      assert n == root by {
        if n != root { assert {n, root} <= component; SubsetSize({n, root}, component); }
      }
    }
  }

  lemma SubsetSize(a: set<nat>, b: set<nat>)
    requires a <= b
    ensures |a| <= |b|
  {
    assert b == a + (b - a);
  }

  /** The start of a walk and the destination of each of its moves. */
  ghost predicate Touches<L>(walk: seq<Move<L>>, root: nat, n: nat) {
    n == root || exists k :: 0 <= k < |walk| && walk[k].2 == n
  }

  ghost predicate Answered<L>(walk: seq<Move<L>>, enabled: map<nat, set<L>>, root: nat, name: L) {
    Takes(walk, name) || exists n :: n in enabled && name !in enabled[n] && Touches(walk, root, n)
  }

  lemma AnsweredGrows<L>(walk: seq<Move<L>>, more: seq<Move<L>>, enabled: map<nat, set<L>>, root: nat, name: L)
    requires Answered(walk, enabled, root, name)
    ensures Answered(walk + more, enabled, root, name)
  {
    var all := walk + more;
    if i :| 0 <= i < |walk| && walk[i].1 == name {
      assert all[i].1 == name;
    } else {
      var n :| n in enabled && name !in enabled[n] && Touches(walk, root, n);
      if n != root {
        var k :| 0 <= k < |walk| && walk[k].2 == n;
        assert all[k].2 == n;
      }
      assert Touches(all, root, n);
    }
  }

  /** On a closed walk, whatever is touched is also the source of a move. */
  lemma ClosedAnswers<L>(adjacency: Adjacency<L>, walk: seq<Move<L>>, enabled: map<nat, set<L>>, root: nat, name: L)
    requires walk != [] && IsWalk(adjacency, walk, root, root) && Answered(walk, enabled, root, name)
    ensures Takes(walk, name) || exists i :: 0 <= i < |walk| && walk[i].0 in enabled && name !in enabled[walk[i].0]
  {
    if !Takes(walk, name) {
      var n :| n in enabled && name !in enabled[n] && Touches(walk, root, n);
      if n == root {
        assert walk[0].0 == n;
      } else {
        var k :| 0 <= k < |walk| && walk[k].2 == n;
        assert walk[k + 1].0 == n;
      }
    }
  }

  /** One witness more: route to it and, if it is a move, take it. */
  method Extend<L>(walk0: seq<Move<L>>, root: nat, here: nat, w: Witness<L>, ghost name: L,
                   adjacency: Adjacency<L>, ghost enabled: map<nat, set<L>>, component: set<nat>)
    returns (walk: seq<Move<L>>, there: nat)
    requires component <= adjacency.Keys && Linked(Successors(adjacency), component)
    requires here in component && IsWalk(adjacency, walk0, root, here) && Within(walk0, component)
    requires Excuses(adjacency, enabled, component, name, w)
    ensures there in component && IsWalk(adjacency, walk, root, there) && Within(walk, component)
    ensures walk0 <= walk && Answered(walk, enabled, root, name)
  {
    var target := match w case Disabled(n) => n case Taken(m) => m.0;
    assert ReachesThrough(Successors(adjacency), component, here, target);
    var path := Route(here, target, adjacency, component);
    walk := walk0 + path;
    WalkJoin(adjacency, walk0, path, root, here, target);
    match w {
      case Disabled(n) =>
        there := n;
        assert n == root || walk[|walk| - 1].2 == n;
        assert Touches(walk, root, n);
      case Taken(m) =>
        WalkJoin(adjacency, walk, [m], root, target, m.2);
        walk := walk + [m];
        assert walk[|walk| - 1].1 == name;
        there := m.2;
    }
  }

  /** The walk through all witnesses and back to the root. */
  method Stitch<L>(root: nat, witnesses: seq<Witness<L>>, ghost labels: seq<L>,
                   adjacency: Adjacency<L>, ghost enabled: map<nat, set<L>>, component: set<nat>)
    returns (walk: seq<Move<L>>)
    requires component <= adjacency.Keys && Linked(Successors(adjacency), component)
    requires root in component && StaysIn(adjacency, component, root)
    requires |labels| == |witnesses|
    requires forall i :: 0 <= i < |labels| ==> Excuses(adjacency, enabled, component, labels[i], witnesses[i])
    ensures walk != [] && IsWalk(adjacency, walk, root, root) && Within(walk, component)
    ensures forall i :: 0 <= i < |labels| ==> Answered(walk, enabled, root, labels[i])
  {
    walk := [];
    var here := root;
    for i := 0 to |witnesses|
      invariant here in component && IsWalk(adjacency, walk, root, here) && Within(walk, component)
      invariant forall j :: 0 <= j < i ==> Answered(walk, enabled, root, labels[j])
    {
      ghost var walk0 := walk;
      walk, here := Extend(walk, root, here, witnesses[i], labels[i], adjacency, enabled, component);
      forall j | 0 <= j < i
        ensures Answered(walk, enabled, root, labels[j])
      {
        AnsweredGrows(walk0, walk[|walk0|..], enabled, root, labels[j]);
        assert walk0 + walk[|walk0|..] == walk;
      }
    }
    var back := CloseWalk(walk, root, here, adjacency, component);
    forall j | 0 <= j < |labels|
      ensures Answered(walk + back, enabled, root, labels[j])
    {
      AnsweredGrows(walk, back, enabled, root, labels[j]);
    }
    walk := walk + back;
  }

  /** Return to the root; a walk that never left it first takes an edge inside the component. */
  method CloseWalk<L>(walk: seq<Move<L>>, root: nat, here: nat, adjacency: Adjacency<L>, component: set<nat>)
    returns (back: seq<Move<L>>)
    requires component <= adjacency.Keys && Linked(Successors(adjacency), component)
    requires root in component && here in component && StaysIn(adjacency, component, root)
    requires IsWalk(adjacency, walk, root, here) && Within(walk, component)
    ensures walk + back != [] && IsWalk(adjacency, walk + back, root, root) && Within(walk + back, component)
  {
    assert ReachesThrough(Successors(adjacency), component, here, root);
    back := Route(here, root, adjacency, component);
    WalkJoin(adjacency, walk, back, root, here, root);
    if walk + back == [] {
      var k := 0;
      while adjacency[root][k].1 !in component
        invariant 0 <= k < |adjacency[root]|
        invariant exists j :: k <= j < |adjacency[root]| && adjacency[root][j].1 in component
        decreases |adjacency[root]| - k
      {
        k := k + 1;
      }
      var (action, dest) := adjacency[root][k];
      assert ReachesThrough(Successors(adjacency), component, dest, root);
      var path := Route(dest, root, adjacency, component);
      back := [(root, action, dest)] + path;
      assert IsMove(adjacency, (root, action, dest));
      WalkJoin(adjacency, [(root, action, dest)], path, root, dest, root);
      assert walk + back == back;
    }
  }

  /** A fair cycle lies inside the class of its first vertex, and makes that class a host. */
  lemma CycleHosted<L>(vertices: set<nat>, adjacency: Adjacency<L>, enabled: map<nat, set<L>>, fair: set<L>,
                       component: set<nat>, walk: seq<Move<L>>)
    requires adjacency.Keys == vertices && Closed(Successors(adjacency), vertices)
    requires IsClass(Successors(adjacency), vertices, component)
    requires FairCycle(adjacency, enabled, fair, walk) && walk[0].0 in component
    ensures Hosts(adjacency, enabled, fair, component)
  {
    forall k | 0 <= k < |walk|
      ensures walk[k].0 in component && walk[k].2 in component
    {
      MoveInClass(vertices, adjacency, component, walk, k);
    }
    var m := walk[0];
    assert IsMove(adjacency, m);
    if m.2 == m.0 {
      var k :| 0 <= k < |adjacency[m.0]| && adjacency[m.0][k] == (m.1, m.2);
      assert adjacency[m.0][k].1 == m.0;
      assert HasLoop(adjacency, m.0);
    } else {
      SubsetSize({m.0, m.2}, component);
    }
    forall f | f in fair
      ensures Excusable(adjacency, enabled, component, f)
    {
      if i :| 0 <= i < |walk| && walk[i].1 == f {
        assert IsMove(adjacency, (walk[i].0, f, walk[i].2));
      }
    }
  }

  lemma MoveInClass<L>(vertices: set<nat>, adjacency: Adjacency<L>, component: set<nat>, walk: seq<Move<L>>, k: nat)
    requires adjacency.Keys == vertices && Closed(Successors(adjacency), vertices)
    requires IsClass(Successors(adjacency), vertices, component)
    requires walk != [] && IsWalk(adjacency, walk, walk[0].0, walk[0].0) && walk[0].0 in component
    requires k < |walk|
    ensures walk[k].0 in component && walk[k].2 in component
  {
    var g := Successors(adjacency);
    var u := walk[0].0;
    assert IsMove(adjacency, walk[k]);
    MoveIsEdge(adjacency, walk[k]);
    WalkReaches(adjacency, walk[..k], u, walk[k].0);
    WalkReaches(adjacency, walk[k..], walk[k].0, u);
    WalkReaches(adjacency, walk[..k + 1], u, walk[k].2);
    WalkReaches(adjacency, walk[k + 1..], walk[k].2, u);
    assert Mutual(g, u, walk[k].0) && Mutual(g, u, walk[k].2);
  }

  // --------------------------------------------------------------------- lasso

  /** The outgoing edges of a state that survive the suffix restriction and stay among `vertices`. */
  function Kept<L(!new)>(out: seq<(L, nat)>, vertices: set<nat>, allowed: L -> bool): (kept: seq<(L, nat)>)
    ensures forall e :: e in kept <==> e in out && e.1 in vertices && allowed(e.0)
  {
    if out == [] then []
    else
      var rest := Kept(out[1..], vertices, allowed);
      assert forall e :: e in out <==> e == out[0] || e in out[1..];
      if out[0].1 in vertices && allowed(out[0].0) then [out[0]] + rest else rest
  }

  /** The indices of the states where the obligation is pending inside the suffix. */
  function PendingVertices<S, L>(states: seq<S>, pending: S -> bool, suffix: (S, Option<L>) -> bool): (vs: set<nat>)
    ensures forall i :: i in vs <==> 0 <= i < |states| && pending(states[i]) && suffix(states[i], None)
  {
    set i | 0 <= i < |states| && pending(states[i]) && suffix(states[i], None)
  }

  function PendingAdjacency<S, L(!new)>(states: seq<S>, edges: seq<seq<(L, nat)>>, pending: S -> bool,
                                  suffix: (S, Option<L>) -> bool): (adjacency: Adjacency<L>)
    requires |edges| == |states|
    ensures adjacency.Keys == PendingVertices(states, pending, suffix)
    ensures forall i :: i in adjacency ==> forall e :: e in adjacency[i] <==>
              e in edges[i] && e.1 in adjacency && suffix(states[i], Some(e.0))
  {
    var vertices := PendingVertices(states, pending, suffix);
    map i | i in vertices :: Kept(edges[i], vertices, a => suffix(states[i], Some(a)))
  }

  function PendingEnabled<S, L(==,!new)>(states: seq<S>, edges: seq<seq<(L, nat)>>, pending: S -> bool,
                                suffix: (S, Option<L>) -> bool): (enabled: map<nat, set<L>>)
    requires |edges| == |states|
    ensures enabled.Keys == PendingVertices(states, pending, suffix)
    ensures forall i :: i in enabled ==> forall a :: a in enabled[i] <==>
              (exists k :: 0 <= k < |edges[i]| && edges[i][k].0 == a) && suffix(states[i], Some(a))
  {
    var vertices := PendingVertices(states, pending, suffix);
    map i | i in vertices :: set k | 0 <= k < |edges[i]| && suffix(states[i], Some(edges[i][k].0)) :: edges[i][k].0
  }

  datatype Lasso<S, L> = Lasso(trace: seq<Entry<S, L>>, cycle: seq<Move<L>>)

  method IsCyclic<L>(component: set<nat>, adjacency: Adjacency<L>) returns (cyclic: bool)
    requires component <= adjacency.Keys
    ensures cyclic <==> Cyclic(adjacency, component)
  {
    cyclic := |component| > 1 ||
      exists n :: n in component && exists k :: 0 <= k < |adjacency[n]| && adjacency[n][k].1 == n;
  }

  lemma PendingClosed<L>(adjacency: Adjacency<L>)
    requires forall i :: i in adjacency ==> forall e :: e in adjacency[i] ==> e.1 in adjacency
    ensures Closed(Successors(adjacency), adjacency.Keys)
  {
    forall u, v | u in adjacency.Keys && Edge(Successors(adjacency), u, v)
      ensures v in adjacency.Keys
    {
      EdgeIndex(adjacency, u, v);
      var k :| 0 <= k < |adjacency[u]| && adjacency[u][k].1 == v;
      assert adjacency[u][k] in adjacency[u];
    }
  }

  /** The fair cycle of one component, if it hosts one. */
  method CycleIn<L(==)>(vertices: set<nat>, component: set<nat>, adjacency: Adjacency<L>, enabled: map<nat, set<L>>,
                        fair: set<L>)
    returns (r: Option<seq<Move<L>>>)
    requires adjacency.Keys == vertices == enabled.Keys && Closed(Successors(adjacency), vertices)
    requires IsClass(Successors(adjacency), vertices, component)
    ensures r.Some? <==> Hosts(adjacency, enabled, fair, component)
    ensures r.Some? ==> FairCycle(adjacency, enabled, fair, r.value) && r.value[0].0 in component
  {
    ghost var g := Successors(adjacency);
    ClassIsLinked(g, vertices, component);
    var cyclic := IsCyclic(component, adjacency);
    if !cyclic { return None; }
    var witnesses;
    ghost var labels;
    witnesses, labels := Witnesses(component, adjacency, enabled, fair);
    if witnesses.None? { return None; }
    var root := Min(component);
    CyclicStays(adjacency, component, root);
    var walk := Stitch(root, witnesses.value, labels, adjacency, enabled, component);
    forall f | f in fair
      ensures Takes(walk, f) || exists i :: 0 <= i < |walk| && walk[i].0 in enabled && f !in enabled[walk[i].0]
    {
      assert f in labels;
      ClosedAnswers(adjacency, walk, enabled, root, f);
    }
    r := Some(walk);
  }

  /** A fair cycle makes the class of its first vertex a host. */
  lemma SomeHost<L(!new)>(vertices: set<nat>, adjacency: Adjacency<L>, enabled: map<nat, set<L>>, fair: set<L>,
                          blocks: seq<set<nat>>, walk: seq<Move<L>>) returns (i: nat)
    requires adjacency.Keys == vertices == enabled.Keys && Closed(Successors(adjacency), vertices)
    requires IsPartition(Successors(adjacency), vertices, blocks) && FairCycle(adjacency, enabled, fair, walk)
    ensures i < |blocks| && Hosts(adjacency, enabled, fair, blocks[i])
  {
    assert IsMove(adjacency, walk[0]);
    var k :| 0 <= k < |blocks| && walk[0].0 in blocks[k];
    assert IsClass(Successors(adjacency), vertices, blocks[k]);
    CycleHosted(vertices, adjacency, enabled, fair, blocks[k], walk);
    i := k;
  }

  ghost predicate NoneHosts<L>(adjacency: Adjacency<L>, enabled: map<nat, set<L>>, fair: set<L>,
                               blocks: seq<set<nat>>, n: nat)
    requires n <= |blocks|
  {
    forall j {:trigger Hosts(adjacency, enabled, fair, blocks[j])} :: 0 <= j < n ==>
      !Hosts(adjacency, enabled, fair, blocks[j])
  }

  lemma NoHostNoCycle<L(!new)>(vertices: set<nat>, adjacency: Adjacency<L>, enabled: map<nat, set<L>>, fair: set<L>,
                               blocks: seq<set<nat>>)
    requires adjacency.Keys == vertices == enabled.Keys && Closed(Successors(adjacency), vertices)
    requires IsPartition(Successors(adjacency), vertices, blocks)
    requires NoneHosts(adjacency, enabled, fair, blocks, |blocks|)
    ensures forall walk: seq<Move<L>> :: !FairCycle(adjacency, enabled, fair, walk)
  {
    if walk: seq<Move<L>> :| FairCycle(adjacency, enabled, fair, walk) {
      var i := SomeHost(vertices, adjacency, enabled, fair, blocks, walk);
    }
  }

  /** Search the components in turn for one that hosts a fair cycle. */
  method FindCycle<L(==,!new)>(vertices: set<nat>, adjacency: Adjacency<L>, enabled: map<nat, set<L>>, fair: set<L>)
    returns (r: Option<seq<Move<L>>>)
    requires adjacency.Keys == vertices == enabled.Keys && Closed(Successors(adjacency), vertices)
    ensures r.Some? <==> exists walk: seq<Move<L>> :: FairCycle(adjacency, enabled, fair, walk)
    ensures r.Some? ==> FairCycle(adjacency, enabled, fair, r.value) && r.value[0].0 in vertices
  {
    ghost var g := Successors(adjacency);
    var blocks := Components(vertices, adjacency);
    for i := 0 to |blocks|
      invariant NoneHosts(adjacency, enabled, fair, blocks, i)
    {
      assert IsClass(g, vertices, blocks[i]);
      r := CycleIn(vertices, blocks[i], adjacency, enabled, fair);
      if r.Some? { return; }
    }
    r := None;
    NoHostNoCycle(vertices, adjacency, enabled, fair, blocks);
  }

  /**
   * The lasso of one obligation. One is returned exactly when a fair cycle exists; its cycle is one,
   * and its trace is the breadth-first run to the state where the cycle begins.
   */
  method FindLasso<S, L(==,!new)>(states: seq<S>, edges: seq<seq<(L, nat)>>, parent: seq<Option<(nat, L)>>,
                                  pending: S -> bool, suffix: (S, Option<L>) -> bool, fair: set<L>)
    returns (r: Option<Lasso<S, L>>)
    requires |edges| == |states| && IsTree(states, parent)
    ensures r.Some? <==> exists walk: seq<Move<L>> ::
              FairCycle(PendingAdjacency(states, edges, pending, suffix),
                        PendingEnabled(states, edges, pending, suffix), fair, walk)
    ensures r.Some? ==>
              && FairCycle(PendingAdjacency(states, edges, pending, suffix),
                           PendingEnabled(states, edges, pending, suffix), fair, r.value.cycle)
              && r.value.cycle[0].0 < |states|
              && r.value.trace == PrefixOf(states, parent, r.value.cycle[0].0)
  {
    var adjacency := PendingAdjacency(states, edges, pending, suffix);
    PendingClosed(adjacency);
    var cycle := FindCycle(PendingVertices(states, pending, suffix), adjacency,
                           PendingEnabled(states, edges, pending, suffix), fair);
    if cycle.None? { return None; }
    var trace := Prefix(states, parent, cycle.value[0].0);
    r := Some(Lasso(trace, cycle.value));
  }
}
