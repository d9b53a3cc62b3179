/** Walks in a finite graph: adjacency lists, where entries that are not nodes are ignored. */
module Reachability {
  type Graph = seq<seq<nat>>

  predicate Edge(g: Graph, u: nat, v: nat) {
    u < |g| && v < |g| && v in g[u]
  }

  predicate Walk(g: Graph, p: seq<nat>) {
    |p| > 0 && forall i :: 0 <= i < |p| - 1 ==> Edge(g, p[i], p[i + 1])
  }

  ghost predicate Reach(g: Graph, u: nat, v: nat) {
    exists p :: Walk(g, p) && p[0] == u && p[|p| - 1] == v
  }

  ghost predicate Mutual(g: Graph, u: nat, v: nat) {
    Reach(g, u, v) && Reach(g, v, u)
  }

  /** Some walk of at least one edge leads back. */
  ghost predicate OnCycle(g: Graph, u: nat) {
    exists v :: Edge(g, u, v) && Reach(g, v, u)
  }

  lemma ReachSelf(g: Graph, u: nat)
    ensures Reach(g, u, u)
  {
    assert Walk(g, [u]) && [u][|[u]| - 1] == u;
  }

  lemma ReachEdge(g: Graph, u: nat, v: nat)
    requires Edge(g, u, v)
    ensures Reach(g, u, v)
  {
    var p := [u, v];
    assert Walk(g, p) && p[|p| - 1] == v;
  }

  lemma ReachTrans(g: Graph, u: nat, v: nat, w: nat)
    requires Reach(g, u, v) && Reach(g, v, w)
    ensures Reach(g, u, w)
  {
    var p :| Walk(g, p) && p[0] == u && p[|p| - 1] == v;
    var q :| Walk(g, q) && q[0] == v && q[|q| - 1] == w;
    var r := p + q[1..];
    forall i | 0 <= i < |r| - 1 ensures Edge(g, r[i], r[i + 1]) {
      if i >= |p| - 1 { assert Edge(g, q[i - (|p| - 1)], q[i - (|p| - 1) + 1]); }
    }
    assert Walk(g, r) && r[0] == u && r[|r| - 1] == w;
  }

  /** Edges do not lead out of a closed set. */
  ghost predicate Closed(g: Graph, s: set<nat>) {
    forall u, v :: u in s && Edge(g, u, v) ==> v in s
  }

  lemma {:induction false} WalkStays(g: Graph, s: set<nat>, p: seq<nat>, i: nat)
    requires Closed(g, s) && Walk(g, p) && p[0] in s && i < |p|
    ensures p[i] in s
  {
    if i > 0 {
      WalkStays(g, s, p, i - 1);
      assert Edge(g, p[i - 1], p[i - 1 + 1]);
    }
  }

  lemma ReachStays(g: Graph, s: set<nat>, u: nat, v: nat)
    requires Closed(g, s) && u in s && Reach(g, u, v)
    ensures v in s
  {
    var p :| Walk(g, p) && p[0] == u && p[|p| - 1] == v;
    WalkStays(g, s, p, |p| - 1);
  }

  /** Two different nodes that reach each other lie on a cycle. */
  lemma MutualOnCycle(g: Graph, u: nat, v: nat)
    requires u != v && Mutual(g, u, v)
    ensures OnCycle(g, u)
  {
    var p :| Walk(g, p) && p[0] == u && p[|p| - 1] == v;
    assert Edge(g, p[0], p[0 + 1]);
    var q := p[1..];
    forall i | 0 <= i < |q| - 1 ensures Edge(g, q[i], q[i + 1]) { assert Edge(g, p[i + 1], p[i + 1 + 1]); }
    assert Walk(g, q) && q[0] == p[1] && q[|q| - 1] == v;
    ReachTrans(g, p[1], v, u);
  }
}
