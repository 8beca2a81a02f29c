/** Directed graphs as successor maps, with paths and reachability. */
module Graphs {

  /** The successors of every vertex; a vertex outside the map has none. */
  type Graph = map<nat, set<nat>>

  ghost predicate Edge(g: Graph, u: nat, v: nat) {
    u in g && v in g[u]
  }

  /** Every successor of a vertex of `vertices` is again in `vertices`. */
  ghost predicate Closed(g: Graph, vertices: set<nat>) {
    forall u, v :: u in vertices && Edge(g, u, v) ==> v in vertices
  }

  ghost predicate IsPath(g: Graph, p: seq<nat>) {
    && |p| > 0
    && forall i :: 0 <= i < |p| - 1 ==> Edge(g, p[i], p[i + 1])
  }

  ghost predicate Connects(g: Graph, p: seq<nat>, u: nat, v: nat) {
    IsPath(g, p) && p[0] == u && p[|p| - 1] == v
  }

  ghost predicate Reaches(g: Graph, u: nat, v: nat) {
    exists p :: Connects(g, p, u, v)
  }

  ghost predicate Mutual(g: Graph, u: nat, v: nat) {
    Reaches(g, u, v) && Reaches(g, v, u)
  }

  /** Every vertex of `p` but the last lies in `s`. */
  ghost predicate Inner(p: seq<nat>, s: set<nat>) {
    forall i :: 0 <= i < |p| - 1 ==> p[i] in s
  }

  /** `u` reaches `v` along a path whose vertices before the last all lie in `s`. */
  ghost predicate ReachesThrough(g: Graph, s: set<nat>, u: nat, v: nat) {
    exists p :: Connects(g, p, u, v) && Inner(p, s)
  }

  lemma ReachesSelf(g: Graph, u: nat)
    ensures Reaches(g, u, u)
  {
    assert Connects(g, [u], u, u);
  }

  lemma ReachesStep(g: Graph, u: nat, v: nat)
    requires Edge(g, u, v)
    ensures Reaches(g, u, v)
  {
    assert Connects(g, [u, v], u, v);
  }

  lemma ConnectsJoin(g: Graph, p: seq<nat>, q: seq<nat>, u: nat, v: nat, w: nat)
    requires Connects(g, p, u, v) && Connects(g, q, v, w)
    ensures Connects(g, p + q[1..], u, w)
  {
    var r := p + q[1..];
    forall i | 0 <= i < |r| - 1
      ensures Edge(g, r[i], r[i + 1])
    {
      if i == |p| - 1 {
        assert r[i] == q[0] && r[i + 1] == q[1];
      } else if i >= |p| {
        assert r[i] == q[i - |p| + 1] && r[i + 1] == q[i - |p| + 2];
      }
    }
  }

  lemma ReachesTransitive(g: Graph, u: nat, v: nat, w: nat)
    requires Reaches(g, u, v) && Reaches(g, v, w)
    ensures Reaches(g, u, w)
  {
    var p :| Connects(g, p, u, v);
    var q :| Connects(g, q, v, w);
    ConnectsJoin(g, p, q, u, v, w);
  }

  lemma ConnectsParts(g: Graph, p: seq<nat>, k: nat)
    requires IsPath(g, p) && k < |p|
    ensures Connects(g, p[..k + 1], p[0], p[k])
    ensures Connects(g, p[k..], p[k], p[|p| - 1])
  {
  }

  /** Every vertex of a path is reached from its start and reaches its end. */
  lemma ReachesOnPath(g: Graph, p: seq<nat>, k: nat)
    requires IsPath(g, p) && k < |p|
    ensures Reaches(g, p[0], p[k]) && Reaches(g, p[k], p[|p| - 1])
  {
    ConnectsParts(g, p, k);
  }

  /** A path that starts inside a successor-closed set stays inside it. */
  lemma ClosedUnderReaches(g: Graph, s: set<nat>, p: seq<nat>, k: nat)
    requires Closed(g, s) && IsPath(g, p) && p[0] in s && k < |p|
    ensures p[k] in s
  {
    if k > 0 {
      ClosedUnderReaches(g, s, p, k - 1);
      assert Edge(g, p[k - 1], p[k]);
    }
  }

  lemma MutualTransitive(g: Graph, u: nat, v: nat, w: nat)
    requires Mutual(g, u, v) && Mutual(g, v, w)
    ensures Mutual(g, u, w)
  {
    ReachesTransitive(g, u, v, w);
    ReachesTransitive(g, w, v, u);
  }

  /** A path can be cut at the first visit to `x`. */
  lemma FirstVisit(p: seq<nat>, x: nat) returns (k: nat)
    requires exists i :: 0 <= i < |p| && p[i] == x
    ensures k < |p| && p[k] == x
    ensures forall i :: 0 <= i < k ==> p[i] != x
  {
    k := 0;
    while p[k] != x
      invariant k < |p|
      invariant forall i :: 0 <= i < k ==> p[i] != x
      invariant exists i :: k <= i < |p| && p[i] == x
      decreases |p| - k
    {
      k := k + 1;
    }
  }

  /**
   * Growing the permitted inner vertices by `x` adds only detours through `x`:
   * either the old permission still suffices, or the start reaches `x` under it.
   */
  lemma ReachesThroughGrown(g: Graph, s: set<nat>, x: nat, u: nat, v: nat)
    requires ReachesThrough(g, s + {x}, u, v)
    ensures ReachesThrough(g, s, u, v) || ReachesThrough(g, s, u, x)
  {
    var p :| Connects(g, p, u, v) && Inner(p, s + {x});
    if i :| 0 <= i < |p| - 1 && p[i] == x {
      var k := FirstVisit(p, x);
      ConnectsParts(g, p, k);
      assert Inner(p[..k + 1], s);
    } else {
      assert Inner(p, s);
    }
  }
}
