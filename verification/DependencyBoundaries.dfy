/**
 * The dependency boundary check of the workspace: forbidden edges, and production dependency cycles
 * found by an iterative depth-first traversal with explicit exit markers.
 * Package names stand for themselves through their rank in sorted order.
 */
module DependencyBoundaries {
  import opened Ordering
  import opened Graphs
  import opened Options
  import opened Traces

  /** Allowed dependencies of the pure and adapter packages, and the one recorded legacy pair. */
  datatype Policy = Policy(
    pure: map<nat, set<nat>>,
    adapters: map<nat, set<nat>>,
    legacy: set<(nat, nat)>,
    legacySource: nat,
    legacyTarget: nat)

  datatype Finding =
    | ForbiddenPure(source: nat, target: nat)
    | ForbiddenAdapter(source: nat, target: nat)
    | UnrecordedLegacy(source: nat, target: nat)
    | DependencyCycle(node: nat)

  // --------------------------------------------------------------------- edges

  ghost predicate EdgeFinding(policy: Policy, graph: Graph, f: Finding) {
    match f
    case ForbiddenPure(s, t) => Edge(graph, s, t) && s in policy.pure && t !in policy.pure[s]
    case ForbiddenAdapter(s, t) => Edge(graph, s, t) && s in policy.adapters && t !in policy.adapters[s]
    case UnrecordedLegacy(s, t) =>
      Edge(graph, s, t) && s == policy.legacySource && t == policy.legacyTarget && (s, t) !in policy.legacy
    case DependencyCycle(_) => false
  }

  function EdgeFindings(policy: Policy, s: nat, t: nat): (fs: seq<Finding>) {
    (if s in policy.pure && t !in policy.pure[s] then [ForbiddenPure(s, t)] else [])
    + (if s in policy.adapters && t !in policy.adapters[s] then [ForbiddenAdapter(s, t)] else [])
    + (if s == policy.legacySource && t == policy.legacyTarget && (s, t) !in policy.legacy then
         [UnrecordedLegacy(s, t)] else [])
  }

  lemma EdgeFindingsExact(policy: Policy, graph: Graph, s: nat, t: nat, f: Finding)
    requires Edge(graph, s, t)
    ensures f in EdgeFindings(policy, s, t) <==> EdgeFinding(policy, graph, f) && f.source == s && f.target == t
  {
  }

  /** The findings about the dependencies of one package. */
  method CheckSource(policy: Policy, graph: Graph, source: nat) returns (findings: seq<Finding>)
    requires source in graph
    ensures forall f :: f in findings <==> EdgeFinding(policy, graph, f) && f.source == source
  {
    findings := [];
    var targets := List(graph[source]);
    for j := 0 to |targets|
      invariant forall f :: f in findings <==>
        EdgeFinding(policy, graph, f) && f.source == source && exists k :: 0 <= k < j && targets[k] == f.target
    {
      assert targets[j] in targets;
      forall f { EdgeFindingsExact(policy, graph, source, targets[j], f); }
      findings := findings + EdgeFindings(policy, source, targets[j]);
    }
    forall f | EdgeFinding(policy, graph, f) && f.source == source
      ensures exists k :: 0 <= k < |targets| && targets[k] == f.target
    {
      assert f.target in targets;
    }
  }

  /** The findings about the dependencies of these packages. */
  ghost predicate Reported(policy: Policy, graph: Graph, sources: seq<nat>, findings: seq<Finding>) {
    forall f :: f in findings <==> EdgeFinding(policy, graph, f) && f.source in sources
  }

  lemma ReportedMore(policy: Policy, graph: Graph, sources: seq<nat>, source: nat, findings: seq<Finding>,
                     more: seq<Finding>)
    requires Reported(policy, graph, sources, findings)
    requires forall f :: f in more <==> EdgeFinding(policy, graph, f) && f.source == source
    ensures Reported(policy, graph, sources + [source], findings + more)
  {
    forall f
      ensures f in findings + more <==> EdgeFinding(policy, graph, f) && f.source in sources + [source]
    {
      assert f in findings + more <==> f in findings || f in more;
    }
  }

  /** Every forbidden or unrecorded edge is reported, and nothing else. */
  method CheckEdges(policy: Policy, graph: Graph) returns (findings: seq<Finding>)
    ensures forall f :: f in findings <==> EdgeFinding(policy, graph, f)
  {
    findings := [];
    var sources := List(graph.Keys);
    for i := 0 to |sources|
      invariant Reported(policy, graph, sources[..i], findings)
    {
      assert sources[i] in sources && sources[..i + 1] == sources[..i] + [sources[i]];
      var more := CheckSource(policy, graph, sources[i]);
      ReportedMore(policy, graph, sources[..i], sources[i], findings, more);
      findings := findings + more;
    }
    assert sources[..|sources|] == sources;
  }

  // -------------------------------------------------------------------- cycles

  /** `u` leads to `v` by at least one edge. */
  ghost predicate Leads(g: Graph, u: nat, v: nat) {
    exists w :: Edge(g, u, w) && Reaches(g, w, v)
  }

  ghost predicate OnCycle(g: Graph, n: nat) {
    Leads(g, n, n)
  }

  lemma LeadsStep(g: Graph, u: nat, v: nat)
    requires Edge(g, u, v)
    ensures Leads(g, u, v)
  {
    ReachesSelf(g, v);
  }

  lemma LeadsTransitive(g: Graph, u: nat, v: nat, w: nat)
    requires Leads(g, u, v) && Leads(g, v, w)
    ensures Leads(g, u, w)
  {
    var a :| Edge(g, u, a) && Reaches(g, a, v);
    var b :| Edge(g, v, b) && Reaches(g, b, w);
    ReachesStep(g, v, b);
    ReachesTransitive(g, a, v, b);
    ReachesTransitive(g, a, b, w);
  }

  /** The edges between packages of the workspace. */
  function Inside(graph: Graph): (g: Graph)
    ensures g.Keys == graph.Keys
    ensures forall u, v :: Edge(g, u, v) <==> Edge(graph, u, v) && v in graph
  {
    map u | u in graph :: graph[u] * graph.Keys
  }

  /** Every successor of a listed vertex is listed before it. */
  ghost predicate ReverseTopological(g: Graph, order: seq<nat>) {
    && (forall i, j :: 0 <= i < j < |order| ==> order[i] != order[j])
    && (forall k, w {:trigger Edge(g, order[k], w)} :: 0 <= k < |order| && Edge(g, order[k], w) ==> w in order[..k])
  }

  /** Everything reached from a position of the order lies at or before it. */
  lemma ReachesBackward(g: Graph, order: seq<nat>, p: seq<nat>, k: nat)
    requires ReverseTopological(g, order) && IsPath(g, p) && k < |order| && p[0] == order[k]
    ensures p[|p| - 1] in order[..k + 1]
    decreases |p|
  {
    if |p| > 1 {
      assert Edge(g, p[0], p[1]);
      var j :| 0 <= j < k && order[j] == p[1];
      ConnectsParts(g, p, 1);
      ReachesBackward(g, order, p[1..], j);
      assert order[..j + 1] <= order[..k + 1];
      var i :| 0 <= i < j + 1 && order[..j + 1][i] == p[|p| - 1];
      assert order[..k + 1][i] == p[|p| - 1];
    } else {
      assert order[..k + 1][k] == p[0];
    }
  }

  lemma OrderedIsAcyclic(g: Graph, order: seq<nat>, n: nat)
    requires ReverseTopological(g, order) && n in order
    ensures !OnCycle(g, n)
  {
    if OnCycle(g, n) {
      var k :| 0 <= k < |order| && order[k] == n;
      var w :| Edge(g, n, w) && Reaches(g, w, n);
      assert w in order[..k];
      var j :| 0 <= j < k && order[j] == w;
      var p :| Connects(g, p, w, n);
      ReachesBackward(g, order, p, j);
      assert false;
    }
  }

  // ----------------------------------------------------------------- traversal

  ghost predicate Above(stack: seq<(nat, bool)>, i: nat, w: nat) {
    exists j :: i < j < |stack| && stack[j].0 == w
  }

  /** The active packages are the marked entries, each once. */
  ghost predicate Marked(active: set<nat>, stack: seq<(nat, bool)>) {
    && (forall v :: v in active <==> (v, true) in stack)
    && (forall i, j :: 0 <= i < j < |stack| && stack[i].1 && stack[j].1 ==> stack[i].0 != stack[j].0)
  }

  /** A marked entry leads to everything above it. */
  ghost predicate Descends(g: Graph, stack: seq<(nat, bool)>) {
    forall i, j {:trigger Leads(g, stack[i].0, stack[j].0)} ::
      0 <= i < j < |stack| && stack[i].1 ==> Leads(g, stack[i].0, stack[j].0)
  }

  /** The dependencies of a marked entry are complete or above it. */
  ghost predicate Covered(g: Graph, order: seq<nat>, stack: seq<(nat, bool)>) {
    forall i, w :: 0 <= i < |stack| && stack[i].1 && Edge(g, stack[i].0, w) ==> w in order || Above(stack, i, w)
  }

  ghost predicate Traversing(g: Graph, order: seq<nat>, active: set<nat>, stack: seq<(nat, bool)>) {
    && ReverseTopological(g, order)
    && (forall i :: 0 <= i < |stack| ==> stack[i].0 in g)
    && (forall v :: v in order ==> v in g && v !in active)
    && Marked(active, stack) && Descends(g, stack) && Covered(g, order, stack)
  }

  lemma Skip(g: Graph, order: seq<nat>, active: set<nat>, stack: seq<(nat, bool)>)
    requires Traversing(g, order, active, stack)
    requires |stack| > 0 && !stack[|stack| - 1].1 && stack[|stack| - 1].0 in order
    ensures Traversing(g, order, active, stack[..|stack| - 1])
  {
    var rest := stack[..|stack| - 1];
    forall v
      ensures v in active <==> (v, true) in rest
    {
      if i :| 0 <= i < |stack| && stack[i] == (v, true) { assert rest[i] == (v, true); }
    }
    forall i, w | 0 <= i < |rest| && rest[i].1 && Edge(g, rest[i].0, w)
      ensures w in order || Above(rest, i, w)
    {
      assert stack[i].1;
      if w !in order {
        var j :| i < j < |stack| && stack[j].0 == w;
        assert rest[j].0 == w;
      }
    }
  }

  lemma Exit(g: Graph, order: seq<nat>, active: set<nat>, stack: seq<(nat, bool)>)
    requires Traversing(g, order, active, stack)
    requires |stack| > 0 && stack[|stack| - 1].1
    ensures var x := stack[|stack| - 1].0;
            Traversing(g, order + [x], active - {x}, stack[..|stack| - 1])
  {
    var top := |stack| - 1;
    var x := stack[top].0;
    var rest, order' := stack[..top], order + [x];
    assert stack[top] == (x, true);
    forall w | Edge(g, x, w)
      ensures w in order
    {
      assert stack[top].1;
      assert !Above(stack, top, w);
    }
    forall k, w | 0 <= k < |order'| && Edge(g, order'[k], w)
      ensures w in order'[..k]
    {
      if k < |order| {
        assert order'[..k] == order[..k];
      } else {
        assert order'[..k] == order;
      }
    }
    forall v
      ensures v in active - {x} <==> (v, true) in rest
    {
      if i :| 0 <= i < |stack| && stack[i] == (v, true) {
        if i < top { assert rest[i] == (v, true); }
      }
      if i :| 0 <= i < |rest| && rest[i] == (v, true) {
        assert stack[i] == (v, true);
      }
    }
    forall i, w | 0 <= i < |rest| && rest[i].1 && Edge(g, rest[i].0, w)
      ensures w in order' || Above(rest, i, w)
    {
      assert stack[i].1;
      if w !in order' {
        var j :| i < j < |stack| && stack[j].0 == w;
        assert rest[j].0 == w;
      }
    }
  }

  /** `stack` with its top entry marked and `children` above it. */
  ghost function Entered(stack: seq<(nat, bool)>, children: seq<(nat, bool)>): (r: seq<(nat, bool)>)
    requires |stack| > 0
    ensures |r| == |stack| + |children| && r[|stack| - 1] == (stack[|stack| - 1].0, true)
    ensures forall i :: 0 <= i < |stack| - 1 ==> r[i] == stack[i]
    ensures forall i :: |stack| <= i < |r| ==> r[i] == children[i - |stack|]
  {
    stack[..|stack| - 1] + [(stack[|stack| - 1].0, true)] + children
  }

  lemma EnterMarks(active: set<nat>, stack: seq<(nat, bool)>, children: seq<(nat, bool)>)
    requires |stack| > 0 && Marked(active, stack)
    requires stack[|stack| - 1].0 !in active && !stack[|stack| - 1].1
    requires forall i :: 0 <= i < |children| ==> !children[i].1
    ensures Marked(active + {stack[|stack| - 1].0}, Entered(stack, children))
  {
    var x, entered := stack[|stack| - 1].0, Entered(stack, children);
    forall v
      ensures v in active + {x} <==> (v, true) in entered
    {
      if i :| 0 <= i < |stack| && stack[i] == (v, true) { assert entered[i] == (v, true); }
      if i :| 0 <= i < |entered| && entered[i] == (v, true) { assert v == x || stack[i] == (v, true); }
    }
  }

  lemma EnterDescends(g: Graph, stack: seq<(nat, bool)>, children: seq<(nat, bool)>)
    requires |stack| > 0 && Descends(g, stack)
    requires forall i :: 0 <= i < |children| ==> !children[i].1 && Edge(g, stack[|stack| - 1].0, children[i].0)
    ensures Descends(g, Entered(stack, children))
  {
    var top, entered := |stack| - 1, Entered(stack, children);
    forall i, j | 0 <= i < j < |entered| && entered[i].1
      ensures Leads(g, entered[i].0, entered[j].0)
    {
      if j > top {
        LeadsStep(g, stack[top].0, entered[j].0);
        if i < top {
          assert Leads(g, stack[i].0, stack[top].0);
          LeadsTransitive(g, stack[i].0, stack[top].0, entered[j].0);
        }
      } else {
        assert Leads(g, stack[i].0, stack[j].0);
      }
    }
  }

  lemma EnterCovers(g: Graph, order: seq<nat>, stack: seq<(nat, bool)>, children: seq<(nat, bool)>)
    requires |stack| > 0 && Covered(g, order, stack) && forall i :: 0 <= i < |children| ==> !children[i].1
    requires forall w: nat :: Edge(g, stack[|stack| - 1].0, w) ==> (w, false) in children
    ensures Covered(g, order, Entered(stack, children))
  {
    var top, entered := |stack| - 1, Entered(stack, children);
    forall i, w | 0 <= i < |entered| && entered[i].1 && Edge(g, entered[i].0, w)
      ensures w in order || Above(entered, i, w)
    {
      if i == top {
        var j :| 0 <= j < |children| && children[j] == (w, false);
        assert entered[top + 1 + j].0 == w;
      } else if w !in order {
        assert Above(stack, i, w);
        var j :| i < j < |stack| && stack[j].0 == w;
        assert entered[j].0 == w;
      }
    }
  }

  lemma Enter(g: Graph, order: seq<nat>, active: set<nat>, stack: seq<(nat, bool)>, children: seq<(nat, bool)>)
    requires Traversing(g, order, active, stack) && |stack| > 0
    requires stack[|stack| - 1].0 !in active && stack[|stack| - 1].0 !in order && !stack[|stack| - 1].1
    requires forall i :: 0 <= i < |children| ==>
        !children[i].1 && children[i].0 in g && Edge(g, stack[|stack| - 1].0, children[i].0)
    requires forall w: nat :: Edge(g, stack[|stack| - 1].0, w) ==> (w, false) in children
    ensures Traversing(g, order, active + {stack[|stack| - 1].0}, Entered(stack, children))
  {
    EnterMarks(active, stack, children);
    EnterDescends(g, stack, children);
    EnterCovers(g, order, stack, children);
  }

  function Children(xs: seq<nat>): (cs: seq<(nat, bool)>)
    ensures |cs| == |xs| && forall i :: 0 <= i < |xs| ==> cs[i] == (xs[i], false)
  {
    seq(|xs|, i requires 0 <= i < |xs| => (xs[i], false))
  }

  /** A package met again while active leads back to itself. */
  lemma MetActive(g: Graph, order: seq<nat>, active: set<nat>, stack: seq<(nat, bool)>)
    requires Traversing(g, order, active, stack) && |stack| > 0
    requires !stack[|stack| - 1].1 && stack[|stack| - 1].0 in active
    ensures OnCycle(g, stack[|stack| - 1].0)
  {
    var i :| 0 <= i < |stack| && stack[i] == (stack[|stack| - 1].0, true);
    assert Leads(g, stack[i].0, stack[|stack| - 1].0);
  }

  /** A package that is completed was active, so nothing more is open than before. */
  lemma Completing(g: Graph, order: seq<nat>, active: set<nat>, stack: seq<(nat, bool)>)
    requires Traversing(g, order, active, stack) && |stack| > 0 && stack[|stack| - 1].1
    ensures var x := stack[|stack| - 1].0;
            && x in active && x in g && Elements(order + [x]) == Elements(order) + {x}
            && g.Keys - (Elements(order) + {x}) - (active - {x}) == g.Keys - Elements(order) - active
  {
    assert (stack[|stack| - 1].0, true) == stack[|stack| - 1];
  }

  /**
   * Traverse from one package. Either an active package is met again, and it lies on a cycle,
   * or everything reached from the start is appended in reverse topological order.
   */
  method Traverse(g: Graph, start: nat, complete0: set<nat>, ghost order0: seq<nat>)
    returns (cycle: Option<nat>, complete: set<nat>, ghost order: seq<nat>)
    requires start in g && Closed(g, g.Keys)
    requires ReverseTopological(g, order0) && Elements(order0) == complete0 && complete0 <= g.Keys
    ensures ReverseTopological(g, order) && Elements(order) == complete && complete0 <= complete <= g.Keys
    ensures cycle.Some? ==> cycle.value in g && OnCycle(g, cycle.value)
    ensures cycle.None? ==> start in complete
  {
    complete, order := complete0, order0;
    var active: set<nat> := {};
    var stack := [(start, false)];
    while stack != []
      invariant Traversing(g, order, active, stack)
      invariant Elements(order) == complete && complete0 <= complete <= g.Keys
      invariant start in complete || start in active || stack == [(start, false)]
      decreases g.Keys - complete - active, |stack|
    {
      var (node, exiting) := stack[|stack| - 1];
      var rest := stack[..|stack| - 1];
      assert stack == rest + [(node, exiting)];
      if exiting {
        Exit(g, order, active, stack);
        Completing(g, order, active, stack);
        active := active - {node};
        complete := complete + {node};
        order := order + [node];
        stack := rest;
      } else if node in active {
        MetActive(g, order, active, stack);
        return Some(node), complete, order;
      } else if node in complete {
        Skip(g, order, active, stack);
        stack := rest;
      } else {
        var xs := Descending(g[node]);
        var children := Children(xs);
        ChildrenListed(g, node, xs, children);
        Enter(g, order, active, stack, children);
        assert node in g.Keys - complete - active;
        active := active + {node};
        stack := rest + [(node, true)] + children;
      }
    }
    cycle := None;
  }

  lemma ChildrenListed(g: Graph, node: nat, xs: seq<nat>, children: seq<(nat, bool)>)
    requires node in g && Closed(g, g.Keys) && (forall x :: x in xs <==> x in g[node])
    requires |children| == |xs| && forall i :: 0 <= i < |xs| ==> children[i] == (xs[i], false)
    ensures forall i :: 0 <= i < |children| ==> !children[i].1 && children[i].0 in g && Edge(g, node, children[i].0)
    ensures forall w: nat :: Edge(g, node, w) ==> (w, false) in children
  {
    forall i | 0 <= i < |children|
      ensures children[i].0 in g && Edge(g, node, children[i].0)
    {
      assert xs[i] in xs;
    }
    forall w: nat | Edge(g, node, w)
      ensures (w, false) in children
    {
      var k :| 0 <= k < |xs| && xs[k] == w;
      assert children[k] == (w, false);
    }
  }

  /** The members in descending order. */
  method Descending(s: set<nat>) returns (xs: seq<nat>)
    ensures forall x :: x in xs <==> x in s
  {
    var ys := List(s);
    xs := Backwards(ys);
    assert forall i :: 0 <= i < |ys| ==> ys[i] == xs[|ys| - 1 - i];
  }

  ghost predicate AllOnCycles(g: Graph, cycles: seq<nat>) {
    forall n :: n in cycles ==> n in g && OnCycle(g, n)
  }

  ghost predicate Completed(starts: seq<nat>, n: nat, complete: set<nat>)
    requires n <= |starts|
  {
    forall j :: 0 <= j < n ==> starts[j] in complete
  }

  lemma OneMoreCompleted(starts: seq<nat>, n: nat, before: set<nat>, complete: set<nat>)
    requires n < |starts| && Completed(starts, n, before) && before <= complete && starts[n] in complete
    ensures Completed(starts, n + 1, complete)
  {
  }

  /** One traversal from every package not yet completed; the packages found on cycles. */
  method FindCycles(graph: Graph) returns (cycles: seq<nat>)
    ensures AllOnCycles(Inside(graph), cycles)
    ensures cycles != [] <==> exists n :: n in graph && OnCycle(Inside(graph), n)
  {
    var g := Inside(graph);
    cycles := [];
    var complete: set<nat> := {};
    ghost var order: seq<nat> := [];
    var starts := List(graph.Keys);
    for i := 0 to |starts|
      invariant ReverseTopological(g, order) && Elements(order) == complete && complete <= g.Keys
      invariant AllOnCycles(g, cycles)
      invariant cycles == [] ==> Completed(starts, i, complete)
    {
      ghost var before := complete;
      if starts[i] !in complete {
        var cycle;
        assert starts[i] in starts;
        cycle, complete, order := Traverse(g, starts[i], complete, order);
        if cycle.Some? {
          cycles := cycles + [cycle.value];
        }
      }
      if cycles == [] {
        OneMoreCompleted(starts, i, before, complete);
      }
    }
    if cycles == [] {
      AllOrdered(graph, starts, order);
    } else {
      assert cycles[0] in cycles;
    }
  }

  /** If every package has been completed, none lies on a cycle. */
  lemma AllOrdered(graph: Graph, starts: seq<nat>, order: seq<nat>)
    requires ReverseTopological(Inside(graph), order) && forall n :: n in graph ==> n in starts
    requires Completed(starts, |starts|, Elements(order))
    ensures forall n :: n in graph ==> !OnCycle(Inside(graph), n)
  {
    forall n | n in graph
      ensures !OnCycle(Inside(graph), n)
    {
      assert n in starts;
      OrderedIsAcyclic(Inside(graph), order, n);
    }
  }

  function CycleFindings(cycles: seq<nat>): (fs: seq<Finding>)
    ensures forall f :: f in fs <==> f.DependencyCycle? && f.node in cycles
  {
    if cycles == [] then []
    else
      assert forall n :: n in cycles <==> n == cycles[0] || n in cycles[1..];
      [DependencyCycle(cycles[0])] + CycleFindings(cycles[1..])
  }

  /**
   * The findings of the boundary check: exactly the offending edges, and cycle findings exactly when
   * the workspace graph has a cycle, each naming a package that lies on one.
   */
  method Violations(policy: Policy, graph: Graph) returns (findings: seq<Finding>)
    ensures forall f :: f in findings && !f.DependencyCycle? ==> EdgeFinding(policy, graph, f)
    ensures forall f :: EdgeFinding(policy, graph, f) ==> f in findings
    ensures forall f :: f in findings && f.DependencyCycle? ==> OnCycle(Inside(graph), f.node)
    ensures (exists f :: f in findings && f.DependencyCycle?) <==> exists n :: n in graph && OnCycle(Inside(graph), n)
  {
    var edgeFindings := CheckEdges(policy, graph);
    var cycles := FindCycles(graph);
    findings := edgeFindings + CycleFindings(cycles);
    assert cycles != [] ==> cycles[0] in cycles && DependencyCycle(cycles[0]) in findings;
  }
}
