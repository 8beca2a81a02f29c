/**
 * Breadth-first exploration of a labelled transition model: safety with shortest counterexamples,
 * then one weakly fair lasso search for each liveness obligation.
 */
module Explorer {
  import opened Options
  import opened Traces
  import opened FairLasso
  import opened StrongComponents

  /** The model under exploration. Every state may also stutter under `observe`. */
  datatype Model<!S, !L> = Model(
    initial: S,
    transitions: S -> seq<(L, S)>,
    observe: L,
    violation: (S, L, S) -> Option<string>,
    obligations: seq<S -> bool>,
    suffix: (S, Option<L>) -> bool,
    fair: set<L>)

  function Outgoing<S, L>(m: Model<S, L>, s: S): seq<(L, S)> {
    m.transitions(s) + [(m.observe, s)]
  }

  // ---------------------------------------------------------------------- runs

  ghost predicate IsStep<S, L>(m: Model<S, L>, s: S, e: Entry<S, L>) {
    e.action.Some? && (e.action.value, e.state) in Outgoing(m, s)
  }

  /** A run from the initial state, written as the explorer prints it. */
  ghost predicate IsRun<S, L>(m: Model<S, L>, run: seq<Entry<S, L>>) {
    && |run| > 0 && run[0] == Entry(None, m.initial)
    && forall i :: 0 < i < |run| ==> IsStep(m, run[i - 1].state, run[i])
  }

  ghost predicate Reachable<S(!new), L(!new)>(m: Model<S, L>, s: S) {
    exists run: seq<Entry<S, L>> :: IsRun(m, run) && run[|run| - 1].state == s
  }

  /** A run whose last step violates a safety property. */
  ghost predicate Violates<S, L>(m: Model<S, L>, run: seq<Entry<S, L>>) {
    && IsRun(m, run) && |run| > 1 && IsStep(m, run[|run| - 2].state, run[|run| - 1])
    && m.violation(run[|run| - 2].state, run[|run| - 1].action.value, run[|run| - 1].state).Some?
  }

  lemma RunStep<S, L>(m: Model<S, L>, run: seq<Entry<S, L>>, a: L, t: S)
    requires IsRun(m, run) && (a, t) in Outgoing(m, run[|run| - 1].state)
    ensures IsRun(m, run + [Entry(Some(a), t)])
  {
  }

  // --------------------------------------------------------------- search state

  /** `ids` gives every listed state its one position. */
  ghost predicate Indexed<S>(states: seq<S>, ids: map<S, nat>) {
    && (forall i :: 0 <= i < |states| ==> states[i] in ids && ids[states[i]] == i)
    && (forall s :: s in ids ==> ids[s] < |states| && states[ids[s]] == s)
  }

  /** Tree edges are model steps, recorded in queue order. */
  ghost predicate Grown<S, L>(m: Model<S, L>, states: seq<S>, parent: seq<Option<(nat, L)>>) {
    && IsTree(states, parent) && states[0] == m.initial
    && (forall i :: 0 < i < |parent| ==> (parent[i].value.1, states[i]) in Outgoing(m, states[parent[i].value.0]))
    && (forall i, j :: 0 < i < j < |parent| ==> parent[i].value.0 <= parent[j].value.0)
  }

  /** `row` is the first `n` outgoing edges of state `source`, by position. */
  ghost predicate IsRow<S, L>(m: Model<S, L>, states: seq<S>, parent: seq<Option<(nat, L)>>,
                              source: nat, row: seq<(L, nat)>, n: nat)
  {
    && source < |states| == |parent| && n == |row| <= |Outgoing(m, states[source])|
    && forall k :: 0 <= k < n ==>
         && row[k].1 < |states|
         && (row[k].0, states[row[k].1]) == Outgoing(m, states[source])[k]
         && (row[k].1 == 0 || (parent[row[k].1].Some? && parent[row[k].1].value.0 <= source))
         && m.violation(states[source], row[k].0, states[row[k].1]).None?
  }

  ghost predicate IsFullRow<S, L>(m: Model<S, L>, states: seq<S>, parent: seq<Option<(nat, L)>>,
                                  source: nat, row: seq<(L, nat)>)
  {
    && source < |states|
    && IsRow(m, states, parent, source, row, |Outgoing(m, states[source])|)
  }

  /** The states before `|edges|` have been expanded; no expanded edge violates. */
  ghost predicate Searched<S, L>(m: Model<S, L>, states: seq<S>, ids: map<S, nat>,
                                 parent: seq<Option<(nat, L)>>, edges: seq<seq<(L, nat)>>)
  {
    && Indexed(states, ids) && Grown(m, states, parent)
    && |edges| <= |states|
    && (forall i {:trigger IsFullRow(m, states, parent, i, edges[i])} ::
          0 <= i < |edges| ==> IsFullRow(m, states, parent, i, edges[i]))
    && (forall i :: 0 < i < |parent| ==> parent[i].value.0 <= |edges|)
  }

  ghost function Depth<S, L>(states: seq<S>, parent: seq<Option<(nat, L)>>, i: nat): nat
    requires IsTree(states, parent) && i < |states|
    decreases i
  {
    if i == 0 then 0 else Depth(states, parent, parent[i].value.0) + 1
  }

  /** States are listed in order of their distance from the initial state. */
  lemma DepthMonotone<S, L>(m: Model<S, L>, states: seq<S>, parent: seq<Option<(nat, L)>>, i: nat, j: nat)
    requires Grown(m, states, parent) && i <= j < |states|
    ensures Depth(states, parent, i) <= Depth(states, parent, j)
    decreases j
  {
    if 0 < i < j {
      DepthMonotone(m, states, parent, parent[i].value.0, parent[j].value.0);
    }
  }

  /** The tree gives a run of its depth to every listed state. */
  lemma TreeRun<S, L>(m: Model<S, L>, states: seq<S>, parent: seq<Option<(nat, L)>>, i: nat)
    requires Grown(m, states, parent) && i < |states|
    ensures IsRun(m, PrefixOf(states, parent, i))
    ensures |PrefixOf(states, parent, i)| == Depth(states, parent, i) + 1
    decreases i
  {
    if i > 0 {
      TreeRun(m, states, parent, parent[i].value.0);
      RunStep(m, PrefixOf(states, parent, parent[i].value.0), parent[i].value.1, states[i]);
    }
  }

  lemma ListedReachable<S(!new), L(!new)>(m: Model<S, L>, states: seq<S>, parent: seq<Option<(nat, L)>>, i: nat)
    requires Grown(m, states, parent) && i < |states|
    ensures Reachable(m, states[i])
  {
    TreeRun(m, states, parent, i);
  }

  /** One step from an expanded state leads to a listed state at most one deeper. */
  lemma StepListed<S, L>(m: Model<S, L>, states: seq<S>, ids: map<S, nat>, parent: seq<Option<(nat, L)>>,
                         edges: seq<seq<(L, nat)>>, i: nat, a: L, t: S) returns (j: nat)
    requires Searched(m, states, ids, parent, edges) && i < |edges|
    requires (a, t) in Outgoing(m, states[i])
    ensures j < |states| && states[j] == t && (a, j) in edges[i]
    ensures Depth(states, parent, j) <= Depth(states, parent, i) + 1
    ensures m.violation(states[i], a, t).None?
  {
    assert IsFullRow(m, states, parent, i, edges[i]);
    var k :| 0 <= k < |Outgoing(m, states[i])| && Outgoing(m, states[i])[k] == (a, t);
    j := edges[i][k].1;
    assert edges[i][k] == (a, j);
    if j > 0 {
      DepthMonotone(m, states, parent, parent[j].value.0, i);
    }
  }

  /** A run that is too short to leave the expanded part is listed, at no more than its own depth. */
  lemma RunListed<S, L>(m: Model<S, L>, states: seq<S>, ids: map<S, nat>, parent: seq<Option<(nat, L)>>,
                        edges: seq<seq<(L, nat)>>, run: seq<Entry<S, L>>) returns (i: nat)
    requires Searched(m, states, ids, parent, edges) && IsRun(m, run)
    requires |edges| < |states| ==> |run| <= Depth(states, parent, |edges|) + 1
    ensures i < |states| && states[i] == run[|run| - 1].state && Depth(states, parent, i) < |run|
    decreases |run|
  {
    if |run| == 1 {
      i := 0;
    } else {
      var before := run[..|run| - 1];
      var h := RunListed(m, states, ids, parent, edges, before);
      if h >= |edges| {
        DepthMonotone(m, states, parent, |edges|, h);
        assert false;
      }
      assert run[|run| - 2] == before[|before| - 1];
      i := StepListed(m, states, ids, parent, edges, h, run[|run| - 1].action.value, run[|run| - 1].state);
    }
  }

  /** No violating run is shorter than the breadth-first one. */
  lemma NoShorterViolation<S, L>(m: Model<S, L>, states: seq<S>, ids: map<S, nat>, parent: seq<Option<(nat, L)>>,
                                 edges: seq<seq<(L, nat)>>, run: seq<Entry<S, L>>)
    requires Searched(m, states, ids, parent, edges) && |edges| < |states|
    requires Violates(m, run)
    ensures |run| >= Depth(states, parent, |edges|) + 2
  {
    if |run| < Depth(states, parent, |edges|) + 2 {
      var before := run[..|run| - 1];
      var h := RunListed(m, states, ids, parent, edges, before);
      if h >= |edges| {
        DepthMonotone(m, states, parent, |edges|, h);
        assert false;
      }
      assert run[|run| - 2] == before[|before| - 1];
      var _ := StepListed(m, states, ids, parent, edges, h, run[|run| - 1].action.value, run[|run| - 1].state);
    }
  }

  // ------------------------------------------------------------------ expansion

  lemma RowKept<S, L>(m: Model<S, L>, states: seq<S>, parent: seq<Option<(nat, L)>>,
                      states': seq<S>, parent': seq<Option<(nat, L)>>, source: nat, row: seq<(L, nat)>, n: nat)
    requires IsRow(m, states, parent, source, row, n)
    requires states <= states' && parent <= parent' && |states'| == |parent'|
    ensures IsRow(m, states', parent', source, row, n)
  {
  }

  /** Listing a new successor of the state being expanded. */
  lemma Discover<S, L>(m: Model<S, L>, states: seq<S>, ids: map<S, nat>, parent: seq<Option<(nat, L)>>,
                       edges: seq<seq<(L, nat)>>, a: L, t: S)
    requires Searched(m, states, ids, parent, edges) && |edges| < |states|
    requires t !in ids && (a, t) in Outgoing(m, states[|edges|])
    ensures Searched(m, states + [t], ids[t := |states|], parent + [Some((|edges|, a))], edges)
  {
    var states', ids', parent' := states + [t], ids[t := |states|], parent + [Some((|edges|, a))];
    forall i | 0 <= i < |edges|
      ensures IsFullRow(m, states', parent', i, edges[i])
    {
      assert IsFullRow(m, states, parent, i, edges[i]);
      RowKept(m, states, parent, states', parent', i, edges[i], |Outgoing(m, states[i])|);
    }
  }

  /** One more checked edge of the row. */
  lemma RowExtends<S, L>(m: Model<S, L>, states: seq<S>, ids: map<S, nat>, parent: seq<Option<(nat, L)>>,
                         edges: seq<seq<(L, nat)>>, row: seq<(L, nat)>, k: nat, a: L, t: S)
    requires Searched(m, states, ids, parent, edges) && |edges| < |states| && IsRow(m, states, parent, |edges|, row, k)
    requires k < |Outgoing(m, states[|edges|])| && Outgoing(m, states[|edges|])[k] == (a, t) && t in ids
    requires m.violation(states[|edges|], a, t).None?
    ensures IsRow(m, states, parent, |edges|, row + [(a, ids[t])], k + 1)
  {
  }

  /** How expanding one state ends. */
  datatype Expansion<S, L> = Full(row: seq<(L, nat)>) | Broken(property: string, action: L, target: S) | Limit(extra: S)

  /** List the successors of the next unexpanded state, checking each edge as it is found. */
  method Expand<S(==), L>(m: Model<S, L>, max: nat, states0: seq<S>, ids0: map<S, nat>,
                          parent0: seq<Option<(nat, L)>>, ghost edges: seq<seq<(L, nat)>>, source: nat)
    returns (x: Expansion<S, L>, states: seq<S>, ids: map<S, nat>, parent: seq<Option<(nat, L)>>)
    requires Searched(m, states0, ids0, parent0, edges) && source == |edges| < |states0| <= max
    ensures states0 <= states && parent0 <= parent && |states| <= max
    ensures Searched(m, states, ids, parent, edges)
    ensures x.Full? ==> IsFullRow(m, states, parent, source, x.row)
    ensures x.Broken? ==> (x.action, x.target) in Outgoing(m, states[source])
    ensures x.Broken? ==> m.violation(states[source], x.action, x.target) == Some(x.property)
    ensures x.Limit? ==> |states| == max && x.extra !in ids && exists a :: (a, x.extra) in Outgoing(m, states[source])
  {
    states, ids, parent := states0, ids0, parent0;
    var outgoing := Outgoing(m, states[source]);
    var row: seq<(L, nat)> := [];
    for k := 0 to |outgoing|
      invariant states0 <= states && parent0 <= parent && |states| <= max
      invariant Searched(m, states, ids, parent, edges)
      invariant IsRow(m, states, parent, source, row, k)
    {
      var (action, target) := outgoing[k];
      assert outgoing[k] in outgoing;
      if target !in ids {
        if |states| >= max {
          return Limit(target), states, ids, parent;
        }
        Discover(m, states, ids, parent, edges, action, target);
        RowKept(m, states, parent, states + [target], parent + [Some((source, action))], source, row, k);
        ids := ids[target := |states|];
        states := states + [target];
        parent := parent + [Some((source, action))];
      }
      var failure := m.violation(states[source], action, target);
      if failure.Some? {
        return Broken(failure.value, action, target), states, ids, parent;
      }
      RowExtends(m, states, ids, parent, edges, row, k, action, target);
      row := row + [(action, ids[target])];
    }
    x := Full(row);
  }

  // -------------------------------------------------------------------- safety

  /** More than `max` different states can be reached. */
  ghost predicate Exceeds<S(!new), L(!new)>(m: Model<S, L>, max: int) {
    exists xs: seq<S> :: |xs| > max && DistinctReachable(m, xs)
  }

  ghost predicate DistinctReachable<S(!new), L(!new)>(m: Model<S, L>, xs: seq<S>) {
    && (forall i, j :: 0 <= i < j < |xs| ==> xs[i] != xs[j])
    && (forall i :: 0 <= i < |xs| ==> Reachable(m, xs[i]))
  }

  /** `states` lists exactly the reachable states, once each. */
  ghost predicate Complete<S(!new), L(!new)>(m: Model<S, L>, states: seq<S>) {
    && (forall s :: Reachable(m, s) <==> s in states)
    && (forall i, j :: 0 <= i < j < |states| ==> states[i] != states[j])
  }

  ghost predicate Safe<S(!new), L(!new)>(m: Model<S, L>) {
    forall run: seq<Entry<S, L>> :: !Violates(m, run)
  }

  /** The whole graph has been built: every state expanded, no edge violating. */
  ghost predicate Built<S, L>(m: Model<S, L>, states: seq<S>, parent: seq<Option<(nat, L)>>,
                              edges: seq<seq<(L, nat)>>) {
    && Grown(m, states, parent) && |edges| == |states|
    && (forall i {:trigger IsFullRow(m, states, parent, i, edges[i])} ::
          0 <= i < |edges| ==> IsFullRow(m, states, parent, i, edges[i]))
  }

  lemma SearchComplete<S(!new), L(!new)>(m: Model<S, L>, states: seq<S>, ids: map<S, nat>,
                                         parent: seq<Option<(nat, L)>>, edges: seq<seq<(L, nat)>>)
    requires Searched(m, states, ids, parent, edges) && |edges| == |states|
    ensures Complete(m, states) && Safe(m) && Built(m, states, parent, edges)
  {
    forall s | Reachable(m, s)
      ensures s in states
    {
      var run: seq<Entry<S, L>> :| IsRun(m, run) && run[|run| - 1].state == s;
      var i := RunListed(m, states, ids, parent, edges, run);
    }
    forall s | s in states
      ensures Reachable(m, s)
    {
      var i :| 0 <= i < |states| && states[i] == s;
      ListedReachable(m, states, parent, i);
    }
    forall run: seq<Entry<S, L>> | IsRun(m, run) && |run| > 1
      ensures !Violates(m, run)
    {
      var before := run[..|run| - 1];
      var h := RunListed(m, states, ids, parent, edges, before);
      assert run[|run| - 2] == before[|before| - 1];
      assert IsStep(m, run[|run| - 2].state, run[|run| - 1]);
      var _ := StepListed(m, states, ids, parent, edges, h, run[|run| - 1].action.value, run[|run| - 1].state);
    }
  }

  lemma LimitExceeded<S(!new), L(!new)>(m: Model<S, L>, states: seq<S>, ids: map<S, nat>, parent: seq<Option<(nat, L)>>,
                                        edges: seq<seq<(L, nat)>>, extra: S)
    requires Searched(m, states, ids, parent, edges) && |edges| < |states| && extra !in ids
    requires exists a :: (a, extra) in Outgoing(m, states[|edges|])
    ensures Exceeds(m, |states|)
  {
    var xs := states + [extra];
    forall i | 0 <= i < |xs|
      ensures Reachable(m, xs[i])
    {
      if i < |states| {
        ListedReachable(m, states, parent, i);
      } else {
        var a :| (a, extra) in Outgoing(m, states[|edges|]);
        TreeRun(m, states, parent, |edges|);
        var run := PrefixOf(states, parent, |edges|);
        RunStep(m, run, a, extra);
        assert IsRun(m, run + [Entry(Some(a), extra)]);
      }
    }
    assert DistinctReachable(m, xs);
  }

  lemma ShortestViolation<S(!new), L(!new)>(m: Model<S, L>, states: seq<S>, ids: map<S, nat>,
                                            parent: seq<Option<(nat, L)>>, edges: seq<seq<(L, nat)>>, a: L, t: S)
    requires Searched(m, states, ids, parent, edges) && |edges| < |states|
    requires (a, t) in Outgoing(m, states[|edges|]) && m.violation(states[|edges|], a, t).Some?
    ensures var trace := PrefixOf(states, parent, |edges|) + [Entry(Some(a), t)];
            Violates(m, trace) && forall run :: Violates(m, run) ==> |trace| <= |run|
  {
    var prefix := PrefixOf(states, parent, |edges|);
    TreeRun(m, states, parent, |edges|);
    RunStep(m, prefix, a, t);
    var trace := prefix + [Entry(Some(a), t)];
    assert trace[|trace| - 2] == prefix[|prefix| - 1];
    assert IsStep(m, trace[|trace| - 2].state, trace[|trace| - 1]);
    forall run | Violates(m, run)
      ensures |trace| <= |run|
    {
      NoShorterViolation(m, states, ids, parent, edges, run);
    }
  }

  datatype Search<S, L> =
    | SearchLimit
    | Counterexample(property: string, trace: seq<Entry<S, L>>)
    | Graph(states: seq<S>, edges: seq<seq<(L, nat)>>, parent: seq<Option<(nat, L)>>)

  /**
   * The safety search. A complete graph lists exactly the reachable states and means that no reachable
   * step violates; a counterexample is a violating run from the initial state and none is shorter;
   * the limit is reported only if more states than that are reachable.
   */
  method SearchStates<S(==,!new), L(!new)>(m: Model<S, L>, max: int) returns (r: Search<S, L>)
    ensures r.SearchLimit? ==> max < 1 || Exceeds(m, max)
    ensures r.Counterexample? ==> Violates(m, r.trace) && forall run :: Violates(m, run) ==> |r.trace| <= |run|
    ensures r.Counterexample? ==>
              Some(r.property) == m.violation(r.trace[|r.trace| - 2].state, r.trace[|r.trace| - 1].action.value,
                                              r.trace[|r.trace| - 1].state)
    ensures r.Graph? ==> Complete(m, r.states) && Safe(m) && Built(m, r.states, r.parent, r.edges) && |r.states| <= max
  {
    if max < 1 { return SearchLimit; }
    var states, ids, parent := [m.initial], map[m.initial := 0], [None];
    var edges: seq<seq<(L, nat)>> := [];
    while |edges| < |states|
      invariant Searched(m, states, ids, parent, edges) && |states| <= max
      decreases max - |edges|
    {
      var source := |edges|;
      var x;
      ghost var states0, parent0 := states, parent;
      x, states, ids, parent := Expand(m, max, states, ids, parent, edges, source);
      match x {
        case Limit(extra) =>
          LimitExceeded(m, states, ids, parent, edges, extra);
          return SearchLimit;
        case Broken(property, action, target) =>
          var trace := Prefix(states, parent, source);
          ShortestViolation(m, states, ids, parent, edges, action, target);
          return Counterexample(property, trace + [Entry(Some(action), target)]);
        case Full(row) =>
          edges := edges + [row];
      }
    }
    SearchComplete(m, states, ids, parent, edges);
    r := Graph(states, edges, parent);
  }

  // ------------------------------------------------------------------ liveness

  /** The obligation is pending in a state of the environmental suffix. */
  ghost predicate PendingIn<S, L>(m: Model<S, L>, obligation: S -> bool, s: S) {
    obligation(s) && m.suffix(s, None)
  }

  /** A step of the model that stays among pending suffix states. */
  ghost predicate PendingStep<S, L>(m: Model<S, L>, obligation: S -> bool, x: (S, L, S)) {
    && PendingIn(m, obligation, x.0) && PendingIn(m, obligation, x.2)
    && (x.1, x.2) in Outgoing(m, x.0) && m.suffix(x.0, Some(x.1))
  }

  ghost predicate EnabledIn<S, L>(m: Model<S, L>, s: S, a: L) {
    (exists k :: 0 <= k < |Outgoing(m, s)| && Outgoing(m, s)[k].0 == a) && m.suffix(s, Some(a))
  }

  /** A cycle of pending steps on which every fair label is taken or somewhere disabled. */
  ghost predicate PendingCycle<S, L>(m: Model<S, L>, obligation: S -> bool, cycle: seq<(S, L, S)>) {
    && cycle != []
    && (forall i :: 0 <= i < |cycle| ==> PendingStep(m, obligation, cycle[i]))
    && (forall i :: 0 <= i < |cycle| - 1 ==> cycle[i].2 == cycle[i + 1].0)
    && cycle[|cycle| - 1].2 == cycle[0].0
    && forall f :: f in m.fair ==> exists i :: 0 <= i < |cycle| && (cycle[i].1 == f || !EnabledIn(m, cycle[i].0, f))
  }

  /** A reachable weakly fair cycle along which the obligation is never discharged. */
  ghost predicate Starves<S(!new), L(!new)>(m: Model<S, L>, obligation: S -> bool, cycle: seq<(S, L, S)>) {
    PendingCycle(m, obligation, cycle) && Reachable(m, cycle[0].0)
  }

  function StatesOf<S, L>(states: seq<S>, walk: seq<Move<L>>): (cycle: seq<(S, L, S)>)
    requires forall i :: 0 <= i < |walk| ==> walk[i].0 < |states| && walk[i].2 < |states|
  {
    seq(|walk|, i requires 0 <= i < |walk| => (states[walk[i].0], walk[i].1, states[walk[i].2]))
  }

  ghost function IndexOf<S>(states: seq<S>, s: S): (i: nat)
    requires s in states
    ensures i < |states| && states[i] == s
  {
    var i :| 0 <= i < |states| && states[i] == s;
    i
  }

  /** The restricted graph by positions says exactly what the model says about the states. */
  ghost predicate Reflects<S(!new), L(!new)>(m: Model<S, L>, obligation: S -> bool, states: seq<S>,
                                             adjacency: Adjacency<L>, enabled: map<nat, set<L>>)
  {
    && (forall u: nat, a, v: nat {:trigger IsMove(adjacency, (u, a, v))} :: IsMove(adjacency, (u, a, v)) <==>
          u < |states| && v < |states| && PendingStep(m, obligation, (states[u], a, states[v])))
    && (forall u :: u in enabled <==> 0 <= u < |states| && PendingIn(m, obligation, states[u]))
    && (forall u, a {:trigger EnabledIn(m, states[u], a)} :: u in enabled ==>
          (a in enabled[u] <==> EnabledIn(m, states[u], a)))
  }

  lemma RowEdges<S, L>(m: Model<S, L>, states: seq<S>, parent: seq<Option<(nat, L)>>, edges: seq<seq<(L, nat)>>,
                       u: nat, a: L, v: nat)
    requires Built(m, states, parent, edges) && u < |states|
    requires forall i, j :: 0 <= i < j < |states| ==> states[i] != states[j]
    ensures (a, v) in edges[u] <==> v < |states| && (a, states[v]) in Outgoing(m, states[u])
  {
    assert IsFullRow(m, states, parent, u, edges[u]);
    if v < |states| && (a, states[v]) in Outgoing(m, states[u]) {
      var k :| 0 <= k < |Outgoing(m, states[u])| && Outgoing(m, states[u])[k] == (a, states[v]);
      assert edges[u][k] == (a, v);
    }
    if (a, v) in edges[u] {
      var k :| 0 <= k < |edges[u]| && edges[u][k] == (a, v);
      assert Outgoing(m, states[u])[k] == (a, states[v]);
    }
  }

  lemma RowLabels<S, L>(m: Model<S, L>, states: seq<S>, parent: seq<Option<(nat, L)>>, edges: seq<seq<(L, nat)>>,
                        u: nat, a: L)
    requires Built(m, states, parent, edges) && u < |states|
    ensures (exists k :: 0 <= k < |edges[u]| && edges[u][k].0 == a) <==>
            exists k :: 0 <= k < |Outgoing(m, states[u])| && Outgoing(m, states[u])[k].0 == a
  {
    assert IsFullRow(m, states, parent, u, edges[u]);
    if k :| 0 <= k < |edges[u]| && edges[u][k].0 == a {
      assert Outgoing(m, states[u])[k].0 == a;
    }
    if k :| 0 <= k < |Outgoing(m, states[u])| && Outgoing(m, states[u])[k].0 == a {
      assert edges[u][k].0 == a;
    }
  }

  lemma BuiltReflects<S(!new), L(!new)>(m: Model<S, L>, states: seq<S>, parent: seq<Option<(nat, L)>>,
                                        edges: seq<seq<(L, nat)>>, obligation: S -> bool)
    requires Built(m, states, parent, edges)
    requires forall i, j :: 0 <= i < j < |states| ==> states[i] != states[j]
    ensures Reflects(m, obligation, states, PendingAdjacency(states, edges, obligation, m.suffix),
                     PendingEnabled(states, edges, obligation, m.suffix))
  {
    var adjacency := PendingAdjacency(states, edges, obligation, m.suffix);
    var enabled := PendingEnabled(states, edges, obligation, m.suffix);
    forall u: nat, a, v: nat
      ensures IsMove(adjacency, (u, a, v)) <==>
              u < |states| && v < |states| && PendingStep(m, obligation, (states[u], a, states[v]))
    {
      if u < |states| { RowEdges(m, states, parent, edges, u, a, v); }
    }
    forall u, a | u in enabled
      ensures a in enabled[u] <==> EnabledIn(m, states[u], a)
    {
      RowLabels(m, states, parent, edges, u, a);
    }
  }

  /** A fair label that is taken or disabled on a walk of positions is so on the cycle of their states. */
  lemma FairOnStates<S(!new), L(!new)>(m: Model<S, L>, states: seq<S>, obligation: S -> bool, adjacency: Adjacency<L>,
                                       enabled: map<nat, set<L>>, walk: seq<Move<L>>, f: L)
    requires Reflects(m, obligation, states, adjacency, enabled) && FairCycle(adjacency, enabled, m.fair, walk)
    requires f in m.fair
    requires forall i :: 0 <= i < |walk| ==> walk[i].0 < |states| && walk[i].2 < |states|
    ensures exists i :: 0 <= i < |walk| && (walk[i].1 == f || !EnabledIn(m, states[walk[i].0], f))
  {
    if i :| 0 <= i < |walk| && walk[i].1 == f {
    } else {
      var i :| 0 <= i < |walk| && walk[i].0 in enabled && f !in enabled[walk[i].0];
      assert !EnabledIn(m, states[walk[i].0], f);
    }
  }

  lemma WalkInStates<S(!new), L(!new)>(m: Model<S, L>, states: seq<S>, obligation: S -> bool,
                                       adjacency: Adjacency<L>, enabled: map<nat, set<L>>, walk: seq<Move<L>>, i: nat)
    requires Reflects(m, obligation, states, adjacency, enabled) && FairCycle(adjacency, enabled, m.fair, walk)
    requires i < |walk|
    ensures walk[i].0 < |states| && walk[i].2 < |states|
    ensures PendingStep(m, obligation, (states[walk[i].0], walk[i].1, states[walk[i].2]))
  {
    assert IsMove(adjacency, (walk[i].0, walk[i].1, walk[i].2));
  }

  /** A fair cycle of positions is a starving cycle of states. */
  lemma CycleToStates<S(!new), L(!new)>(m: Model<S, L>, states: seq<S>, obligation: S -> bool,
                                        adjacency: Adjacency<L>, enabled: map<nat, set<L>>, walk: seq<Move<L>>)
    requires Reflects(m, obligation, states, adjacency, enabled)
    requires FairCycle(adjacency, enabled, m.fair, walk)
    ensures forall i :: 0 <= i < |walk| ==> walk[i].0 < |states| && walk[i].2 < |states|
    ensures PendingCycle(m, obligation, StatesOf(states, walk))
  {
    forall i | 0 <= i < |walk|
      ensures walk[i].0 < |states| && walk[i].2 < |states|
      ensures PendingStep(m, obligation, (states[walk[i].0], walk[i].1, states[walk[i].2]))
    {
      WalkInStates(m, states, obligation, adjacency, enabled, walk, i);
    }
    var cycle := StatesOf(states, walk);
    forall f | f in m.fair
      ensures exists i :: 0 <= i < |cycle| && (cycle[i].1 == f || !EnabledIn(m, cycle[i].0, f))
    {
      FairOnStates(m, states, obligation, adjacency, enabled, walk, f);
      var i :| 0 <= i < |walk| && (walk[i].1 == f || !EnabledIn(m, states[walk[i].0], f));
      assert cycle[i].1 == f || !EnabledIn(m, cycle[i].0, f);
    }
  }

  /** Every state of a cycle that starts at a reachable state is reachable. */
  lemma CycleReachable<S(!new), L(!new)>(m: Model<S, L>, obligation: S -> bool, cycle: seq<(S, L, S)>, i: nat)
    requires Starves(m, obligation, cycle) && i < |cycle|
    ensures Reachable(m, cycle[i].0) && Reachable(m, cycle[i].2)
  {
    if i > 0 { CycleReachable(m, obligation, cycle, i - 1); }
    var run: seq<Entry<S, L>> :| IsRun(m, run) && run[|run| - 1].state == cycle[i].0;
    assert PendingStep(m, obligation, cycle[i]);
    RunStep(m, run, cycle[i].1, cycle[i].2);
    assert IsRun(m, run + [Entry(Some(cycle[i].1), cycle[i].2)]);
  }

  /** And the other way round, once every state of the cycle is listed. */
  lemma CycleToPositions<S(!new), L(!new)>(m: Model<S, L>, states: seq<S>, obligation: S -> bool,
                                           adjacency: Adjacency<L>, enabled: map<nat, set<L>>, cycle: seq<(S, L, S)>)
    requires Reflects(m, obligation, states, adjacency, enabled)
    requires PendingCycle(m, obligation, cycle)
    requires forall i :: 0 <= i < |cycle| ==> cycle[i].0 in states && cycle[i].2 in states
    ensures exists walk: seq<Move<L>> :: FairCycle(adjacency, enabled, m.fair, walk)
  {
    var walk: seq<Move<L>> := seq(|cycle|, i requires 0 <= i < |cycle| =>
      (IndexOf(states, cycle[i].0), cycle[i].1, IndexOf(states, cycle[i].2)));
    forall i | 0 <= i < |walk|
      ensures IsMove(adjacency, walk[i])
    {
      assert PendingStep(m, obligation, cycle[i]);
      assert IsMove(adjacency, (walk[i].0, walk[i].1, walk[i].2));
    }
    forall f | f in m.fair
      ensures Takes(walk, f) || exists i :: 0 <= i < |walk| && walk[i].0 in enabled && f !in enabled[walk[i].0]
    {
      var i :| 0 <= i < |cycle| && (cycle[i].1 == f || !EnabledIn(m, cycle[i].0, f));
      assert PendingStep(m, obligation, cycle[i]);
      if cycle[i].1 == f {
        assert walk[i].1 == f;
      } else {
        assert !EnabledIn(m, states[walk[i].0], f);
        assert walk[i].0 in enabled && f !in enabled[walk[i].0];
      }
    }
    assert FairCycle(adjacency, enabled, m.fair, walk);
  }

  lemma NothingStarves<S(!new), L(!new)>(m: Model<S, L>, states: seq<S>, obligation: S -> bool,
                                         adjacency: Adjacency<L>, enabled: map<nat, set<L>>)
    requires Complete(m, states) && Reflects(m, obligation, states, adjacency, enabled)
    requires !exists walk: seq<Move<L>> :: FairCycle(adjacency, enabled, m.fair, walk)
    ensures forall cycle :: !Starves(m, obligation, cycle)
  {
    forall cycle: seq<(S, L, S)> | Starves(m, obligation, cycle)
      ensures false
    {
      forall i | 0 <= i < |cycle|
        ensures cycle[i].0 in states && cycle[i].2 in states
      {
        CycleReachable(m, obligation, cycle, i);
      }
      CycleToPositions(m, states, obligation, adjacency, enabled, cycle);
    }
  }

  /** What the lasso search finds about positions, said of the model's states. */
  lemma LassoStarves<S(!new), L(!new)>(m: Model<S, L>, states: seq<S>, parent: seq<Option<(nat, L)>>,
                                       edges: seq<seq<(L, nat)>>, obligation: S -> bool, walk: seq<Move<L>>)
    requires Built(m, states, parent, edges) && Complete(m, states)
    requires FairCycle(PendingAdjacency(states, edges, obligation, m.suffix),
                       PendingEnabled(states, edges, obligation, m.suffix), m.fair, walk)
    ensures forall i :: 0 <= i < |walk| ==> walk[i].0 < |states| && walk[i].2 < |states|
    ensures Starves(m, obligation, StatesOf(states, walk))
  {
    BuiltReflects(m, states, parent, edges, obligation);
    CycleToStates(m, states, obligation, PendingAdjacency(states, edges, obligation, m.suffix),
                  PendingEnabled(states, edges, obligation, m.suffix), walk);
    ListedReachable(m, states, parent, walk[0].0);
  }

  lemma NoLassoNothingStarves<S(!new), L(!new)>(m: Model<S, L>, states: seq<S>, parent: seq<Option<(nat, L)>>,
                                                edges: seq<seq<(L, nat)>>, obligation: S -> bool)
    requires Built(m, states, parent, edges) && Complete(m, states)
    requires !exists walk: seq<Move<L>> ::
               FairCycle(PendingAdjacency(states, edges, obligation, m.suffix),
                         PendingEnabled(states, edges, obligation, m.suffix), m.fair, walk)
    ensures forall cycle :: !Starves(m, obligation, cycle)
  {
    BuiltReflects(m, states, parent, edges, obligation);
    NothingStarves(m, states, obligation, PendingAdjacency(states, edges, obligation, m.suffix),
                   PendingEnabled(states, edges, obligation, m.suffix));
  }

  datatype Report<S, L> =
    | Limited
    | Unsafe(property: string, trace: seq<Entry<S, L>>)
    | Unfair(obligation: nat, trace: seq<Entry<S, L>>, cycle: seq<(S, L, S)>)
    | Pass

  /** One obligation: a starving cycle and the run to its start, or none exists. */
  method CheckObligation<S(!new), L(==,!new)>(m: Model<S, L>, obligation: S -> bool, states: seq<S>,
                                              edges: seq<seq<(L, nat)>>, parent: seq<Option<(nat, L)>>)
    returns (found: bool, trace: seq<Entry<S, L>>, cycle: seq<(S, L, S)>)
    requires Built(m, states, parent, edges) && Complete(m, states)
    ensures found ==> Starves(m, obligation, cycle)
    ensures found ==> IsRun(m, trace) && trace[|trace| - 1].state == cycle[0].0
    ensures !found ==> forall c :: !Starves(m, obligation, c)
  {
    var lasso := FindLasso(states, edges, parent, obligation, m.suffix, m.fair);
    if lasso.None? {
      NoLassoNothingStarves(m, states, parent, edges, obligation);
      return false, [], [];
    }
    var walk := lasso.value.cycle;
    LassoStarves(m, states, parent, edges, obligation, walk);
    TreeRun(m, states, parent, walk[0].0);
    cycle := StatesOf(states, walk);
    found, trace := true, lasso.value.trace;
  }

  /** The obligations in order; the first that a reachable fair cycle starves is reported. */
  method CheckObligations<S(!new), L(==,!new)>(m: Model<S, L>, states: seq<S>, edges: seq<seq<(L, nat)>>,
                                              parent: seq<Option<(nat, L)>>)
    returns (r: Report<S, L>)
    requires Built(m, states, parent, edges) && Complete(m, states)
    ensures r.Pass? || r.Unfair?
    ensures r.Pass? ==> forall k, cycle :: 0 <= k < |m.obligations| ==> !Starves(m, m.obligations[k], cycle)
    ensures r.Unfair? ==> r.obligation < |m.obligations| && Starves(m, m.obligations[r.obligation], r.cycle)
    ensures r.Unfair? ==> forall k, cycle :: 0 <= k < r.obligation ==> !Starves(m, m.obligations[k], cycle)
    ensures r.Unfair? ==> IsRun(m, r.trace) && r.trace[|r.trace| - 1].state == r.cycle[0].0
  {
    for k := 0 to |m.obligations|
      invariant forall j, cycle :: 0 <= j < k ==> !Starves(m, m.obligations[j], cycle)
    {
      var found, trace, cycle := CheckObligation(m, m.obligations[k], states, edges, parent);
      if found { return Unfair(k, trace, cycle); }
    }
    r := Pass;
  }

  /**
   * The whole campaign. A pass means that no reachable step violates and no obligation can be starved
   * by a weakly fair cycle; every other verdict carries a genuine, and for safety shortest, witness.
   */
  method Explore<S(==,!new), L(==,!new)>(m: Model<S, L>, max: int) returns (r: Report<S, L>)
    ensures r.Limited? ==> max < 1 || Exceeds(m, max)
    ensures r.Unsafe? ==> Violates(m, r.trace) && forall run :: Violates(m, run) ==> |r.trace| <= |run|
    ensures r.Pass? ==> Safe(m) && forall k, cycle :: 0 <= k < |m.obligations| ==> !Starves(m, m.obligations[k], cycle)
    ensures r.Unfair? ==> Safe(m) && r.obligation < |m.obligations| && Starves(m, m.obligations[r.obligation], r.cycle)
    ensures r.Unfair? ==> IsRun(m, r.trace) && r.trace[|r.trace| - 1].state == r.cycle[0].0
  {
    var search := SearchStates(m, max);
    match search {
      case SearchLimit => r := Limited;
      case Counterexample(property, trace) => r := Unsafe(property, trace);
      case Graph(states, edges, parent) => r := CheckObligations(m, states, edges, parent);
    }
  }
}
