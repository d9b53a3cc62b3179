/**
 When the walk through an expression table ends. A walk that is still going at one level more than
 there are expressions has met a cycle of references; where all references resolve, a cycle is also
 enough to keep some walk going forever.
 */
module TableCycles {
  import opened Words
  import opened Reachability
  import opened CanonicalTree

  function Heads(exprs: seq<Expr>, ids: seq<u32>): (r: seq<nat>)
    ensures forall id :: id in ids && HeadAt(exprs, id).Some? ==> HeadAt(exprs, id).value in r
    ensures forall j :: j in r ==> exists id :: id in ids && HeadAt(exprs, id) == Some(j)
  {
    if ids == [] then []
    else
      var rest := Heads(exprs, ids[1..]);
      assert forall id :: id in ids <==> id == ids[0] || id in ids[1..];
      match HeadAt(exprs, ids[0])
      case None => rest
      case Some(i) => [i] + rest
  }

  function Referred(exprs: seq<Expr>, i: nat): seq<nat>
    requires i < |exprs|
  {
    if IsLeaf(exprs[i]) then [] else Heads(exprs, exprs[i].args)
  }

  /** Which expressions an expression refers to. */
  function References(exprs: seq<Expr>): (g: Graph)
    ensures |g| == |exprs| && forall i :: 0 <= i < |g| ==> g[i] == Referred(exprs, i)
  {
    seq(|exprs|, i requires 0 <= i < |exprs| => Referred(exprs, i))
  }

  ghost predicate Cyclic(exprs: seq<Expr>) {
    exists i: nat :: i < |exprs| && OnCycle(References(exprs), i)
  }

  // ---------------------------------------------------------------- ranks

  ghost function ReachSet(g: Graph, i: nat): set<nat> {
    set v: nat | v < |g| && Reach(g, i, v)
  }

  lemma ReachShrinks(g: Graph, i: nat, j: nat)
    requires Edge(g, i, j) && !OnCycle(g, i)
    ensures |ReachSet(g, j)| < |ReachSet(g, i)|
  {
    var a, b := ReachSet(g, i), ReachSet(g, j);
    ReachSelf(g, i);
    ReachEdge(g, i, j);
    forall v | v in b ensures v in a { ReachTrans(g, i, j, v); }
    assert i in a && i !in b;
    Smaller(b, a, i);
  }

  lemma Smaller(b: set<nat>, a: set<nat>, i: nat)
    requires b <= a && i in a && i !in b
    ensures |b| < |a|
  {
    assert b <= a - {i};
    Fewer(b, a - {i});
  }

  lemma {:induction false} Fewer(b: set<nat>, a: set<nat>)
    requires b <= a
    ensures |b| <= |a|
  {
    if b != {} {
      var x :| x in b;
      Fewer(b - {x}, a - {x});
    }
  }

  /** A table has no cycle exactly if its expressions can be ranked so that references go down. */
  lemma RankedIffNotCyclic(exprs: seq<Expr>)
    ensures (exists rank :: Ranked(exprs, rank)) <==> !Cyclic(exprs)
  {
    hide Ranked, Cyclic;
    if rank :| Ranked(exprs, rank) { RankedNotCyclic(exprs, rank); }
    if !Cyclic(exprs) { var rank := NotCyclicRanked(exprs); }
  }

  lemma NotCyclicRanked(exprs: seq<Expr>) returns (rank: seq<nat>)
    requires !Cyclic(exprs)
    ensures Ranked(exprs, rank)
  {
    hide HeadAt, OnCycle, Referred;
    var g := References(exprs);
    rank := seq(|exprs|, i requires 0 <= i < |exprs| => |ReachSet(g, i)|);
    forall i | 0 <= i < |exprs| && !IsLeaf(exprs[i]) ensures Below(exprs, rank, exprs[i].args, rank[i]) {
      forall id | id in exprs[i].args && HeadAt(exprs, id).Some? ensures rank[HeadAt(exprs, id).value] < rank[i] {
        EdgeTo(exprs, i, id);
        ReachShrinks(g, i, HeadAt(exprs, id).value);
      }
    }
  }

  lemma EdgeTo(exprs: seq<Expr>, i: nat, id: u32)
    requires i < |exprs| && !IsLeaf(exprs[i]) && id in exprs[i].args && HeadAt(exprs, id).Some?
    ensures Edge(References(exprs), i, HeadAt(exprs, id).value)
  {
  }

  lemma EdgeFrom(exprs: seq<Expr>, i: nat, j: nat) returns (id: u32)
    requires Edge(References(exprs), i, j)
    ensures i < |exprs| && !IsLeaf(exprs[i]) && id in exprs[i].args && HeadAt(exprs, id) == Some(j)
  {
    id :| id in exprs[i].args && HeadAt(exprs, id) == Some(j);
  }

  lemma {:induction false} RankFalls(exprs: seq<Expr>, rank: seq<nat>, p: seq<nat>, k: nat)
    requires Ranked(exprs, rank) && Walk(References(exprs), p) && k < |p| && p[0] < |exprs|
    ensures p[k] < |exprs| && rank[p[k]] + k <= rank[p[0]]
  {
    hide HeadAt, References;
    if k > 0 {
      RankFalls(exprs, rank, p, k - 1);
      assert Edge(References(exprs), p[k - 1], p[k - 1 + 1]);
      var id := EdgeFrom(exprs, p[k - 1], p[k]);
      assert Below(exprs, rank, exprs[p[k - 1]].args, rank[p[k - 1]]);
    }
  }

  lemma RankedNotCyclic(exprs: seq<Expr>, rank: seq<nat>)
    requires Ranked(exprs, rank)
    ensures !Cyclic(exprs)
  {
    hide Ranked, References;
    var g := References(exprs);
    forall i: nat | i < |exprs| ensures !OnCycle(g, i) { RankedOffCycle(exprs, rank, i); }
  }

  lemma RankedOffCycle(exprs: seq<Expr>, rank: seq<nat>, i: nat)
    requires Ranked(exprs, rank) && i < |exprs|
    ensures !OnCycle(References(exprs), i)
  {
    hide References;
    var g := References(exprs);
    forall v | Edge(g, i, v) ensures !Reach(g, v, i) {
      forall q: seq<nat> | Walk(g, q) && q[0] == v ensures q[|q| - 1] != i {
        RankFalls(exprs, rank, q, |q| - 1);
        RankFalls(exprs, rank, [i, v], 1);
      }
    }
  }

  // ---------------------------------------------------------------- walks that do not end

  /** A walk that runs out of depth has followed that many references. */
  lemma {:induction false} DeepWalk(exprs: seq<Expr>, ids: seq<u32>, d: nat) returns (p: seq<nat>)
    requires d > 0 && Unfold(exprs, ids, d) == Deep
    ensures |p| == d && Walk(References(exprs), p)
    ensures p[0] < |exprs| && exists id :: id in ids && HeadAt(exprs, id) == Some(p[0])
    decreases d, |ids|
  {
    hide References, HeadAt;
    var i := HeadAt(exprs, ids[0]).value;
    var e := exprs[i];
    if !IsLeaf(e) && Unfold(exprs, e.args, d - 1) == Deep {
      assert ids[0] in ids && HeadAt(exprs, ids[0]) == Some(i);
      if d == 1 {
        p := [i];
      } else {
        var q := DeepWalk(exprs, e.args, d - 1);
        var id :| id in e.args && HeadAt(exprs, id) == Some(q[0]);
        EdgeTo(exprs, i, id);
        p := [i] + q;
        WalkSnoc(References(exprs), i, q);
      }
    } else {
      p := DeepWalk(exprs, ids[1..], d);
      var id :| id in ids[1..] && HeadAt(exprs, id) == Some(p[0]);
      assert id in ids;
    }
  }

  lemma WalkSnoc(g: Graph, i: nat, q: seq<nat>)
    requires Walk(g, q) && Edge(g, i, q[0])
    ensures Walk(g, [i] + q)
  {
    var p := [i] + q;
    forall k | 0 <= k < |p| - 1 ensures Edge(g, p[k], p[k + 1]) {
      if k > 0 { assert Edge(g, q[k - 1], q[k - 1 + 1]); }
    }
  }

  lemma WalkNodes(g: Graph, p: seq<nat>, k: nat)
    requires Walk(g, p) && p[0] < |g| && k < |p|
    ensures p[k] < |g|
  {
    if k > 0 { assert Edge(g, p[k - 1], p[k - 1 + 1]); }
  }

  lemma RepeatOnCycle(g: Graph, p: seq<nat>, a: nat, b: nat)
    requires Walk(g, p) && a < b < |p| && p[a] == p[b]
    ensures OnCycle(g, p[a])
  {
    assert Edge(g, p[a], p[a + 1]);
    var q := p[a + 1..b + 1];
    forall k | 0 <= k < |q| - 1 ensures Edge(g, q[k], q[k + 1]) { assert Edge(g, p[a + 1 + k], p[a + 1 + k + 1]); }
    assert Walk(g, q) && q[0] == p[a + 1] && q[|q| - 1] == p[a];
    assert Reach(g, p[a + 1], p[a]);
  }

  /** One level more than there are expressions tells: a walk still going there has met a cycle. */
  lemma DeepMeetsCycle(exprs: seq<Expr>, ids: seq<u32>)
    requires Unfold(exprs, ids, |exprs| + 1) == Deep
    ensures Cyclic(exprs)
  {
    hide Unfold, References, OnCycle, HeadAt;
    var g := References(exprs);
    var p := DeepWalk(exprs, ids, |exprs| + 1);
    forall k | 0 <= k < |p| ensures p[k] < |exprs| { WalkNodes(g, p, k); }
    if Distinct(p) { DistinctBelow(p, |exprs|); }
    var a, b :| 0 <= a < b < |p| && p[a] == p[b];
    RepeatOnCycle(g, p, a, b);
  }

  // ---------------------------------------------------------------- tables whose references resolve

  predicate Resolved(exprs: seq<Expr>, ids: seq<u32>) {
    forall id :: id in ids ==> HeadAt(exprs, id).Some?
  }

  predicate AllResolved(exprs: seq<Expr>) {
    forall i :: 0 <= i < |exprs| && !IsLeaf(exprs[i]) ==> Resolved(exprs, exprs[i].args)
  }

  lemma {:induction false} NeverDangling(exprs: seq<Expr>, ids: seq<u32>, d: nat)
    requires AllResolved(exprs) && Resolved(exprs, ids)
    ensures Unfold(exprs, ids, d) != Dangling
    decreases d, |ids|
  {
    if ids != [] && d > 0 {
      assert ids[0] in ids;
      var e := exprs[HeadAt(exprs, ids[0]).value];
      if !IsLeaf(e) { NeverDangling(exprs, e.args, d - 1); }
      NeverDangling(exprs, ids[1..], d);
    }
  }

  /** A forest holds the tree of each of its ids. */
  lemma {:induction false} ForestOfEach(exprs: seq<Expr>, ids: seq<u32>, id: u32, d: nat)
    requires Unfold(exprs, ids, d).Forest? && id in ids
    ensures Unfold(exprs, [id], d).Forest?
    decreases |ids|
  {
    hide HeadAt;
    assert [id][1..] == [] && [id][0] == id;
    if id != ids[0] { ForestOfEach(exprs, ids[1..], id, d); }
  }

  /** From an expression that leads to a cycle the walk never ends. */
  lemma {:induction false} LeadsToCycleIsDeep(exprs: seq<Expr>, i: nat, j: nat, id: u32, d: nat)
    requires AllResolved(exprs) && OnCycle(References(exprs), i) && Reach(References(exprs), j, i)
    requires HeadAt(exprs, id) == Some(j)
    ensures Unfold(exprs, [id], d) == Deep
    decreases d
  {
    hide References, HeadAt, OnCycle, Reach, Unfold;
    if d > 0 {
      var k := StepTowards(References(exprs), i, j);
      var next := EdgeFrom(exprs, j, k);
      LeadsToCycleIsDeep(exprs, i, k, next, d - 1);
      NeverDangling(exprs, exprs[j].args, d - 1);
      DeepArgument(exprs, exprs[j].args, next, d - 1);
    }
    DeepAbove(exprs, id, j, d);
  }

  lemma DeepArgument(exprs: seq<Expr>, ids: seq<u32>, id: u32, d: nat)
    requires id in ids && Unfold(exprs, [id], d) == Deep
    ensures !Unfold(exprs, ids, d).Forest?
  {
    hide Unfold;
    if Unfold(exprs, ids, d).Forest? { ForestOfEach(exprs, ids, id, d); }
  }

  lemma DeepAbove(exprs: seq<Expr>, id: u32, j: nat, d: nat)
    requires HeadAt(exprs, id) == Some(j) && (d > 0 ==> !IsLeaf(exprs[j]) && Unfold(exprs, exprs[j].args, d - 1) == Deep)
    ensures Unfold(exprs, [id], d) == Deep
  {
    hide HeadAt;
    assert [id][0] == id;
  }

  lemma StepTowards(g: Graph, i: nat, j: nat) returns (k: nat)
    requires OnCycle(g, i) && Reach(g, j, i)
    ensures Edge(g, j, k) && Reach(g, k, i)
  {
    if j == i {
      k :| Edge(g, i, k) && Reach(g, k, i);
    } else {
      var p :| Walk(g, p) && p[0] == j && p[|p| - 1] == i;
      k := p[1];
      assert Edge(g, p[0], p[0 + 1]);
      var q := p[1..];
      forall a | 0 <= a < |q| - 1 ensures Edge(g, q[a], q[a + 1]) { assert Edge(g, p[a + 1], p[a + 1 + 1]); }
      assert Walk(g, q) && q[0] == k && q[|q| - 1] == i;
    }
  }

  /** Every walk from a single id ends at some depth. */
  ghost predicate WalksEnd(exprs: seq<Expr>) {
    forall id: u32 :: Ends(exprs, id)
  }

  ghost predicate Ends(exprs: seq<Expr>, id: u32) {
    exists d: nat :: Unfold(exprs, [id], d) != Deep
  }

  /**
   Without cycles every walk ends, whatever the ids; where all references resolve, that is also
   necessary, so that every walk ends exactly if the expressions can be ranked.
   */
  lemma WalksEndIffRanked(exprs: seq<Expr>)
    requires ValidTable(exprs)
    ensures (exists rank :: Ranked(exprs, rank)) ==> WalksEnd(exprs)
    ensures AllResolved(exprs) ==> (WalksEnd(exprs) <==> exists rank :: Ranked(exprs, rank))
  {
    hide Unfold, Ranked, ValidTable, AllResolved, Cyclic, WalksEnd;
    RankedIffNotCyclic(exprs);
    if !Cyclic(exprs) { NotCyclicEnds(exprs); }
    if AllResolved(exprs) && Cyclic(exprs) { CyclicNeverEnds(exprs); }
  }

  lemma NotCyclicEnds(exprs: seq<Expr>)
    requires !Cyclic(exprs)
    ensures WalksEnd(exprs)
  {
    hide Unfold, Cyclic;
    forall id: u32 ensures Ends(exprs, id) {
      if Unfold(exprs, [id], |exprs| + 1) == Deep { DeepMeetsCycle(exprs, [id]); }
    }
  }

  lemma CyclicNeverEnds(exprs: seq<Expr>)
    requires AllResolved(exprs) && Cyclic(exprs) && ValidTable(exprs)
    ensures !WalksEnd(exprs)
  {
    hide Unfold, OnCycle, References, HeadAt, AllResolved;
    var i: nat :| i < |exprs| && OnCycle(References(exprs), i);
    var id: u32 := SlotOf(exprs, i);
    HeadIsUnique(exprs, i);
    ReachSelf(References(exprs), i);
    forall d: nat ensures Unfold(exprs, [id], d) == Deep { LeadsToCycleIsDeep(exprs, i, i, id, d); }
    assert !Ends(exprs, id);
  }

  // ---------------------------------------------------------------- why the references have to resolve

  /** An expression that refers to nothing and then to itself. */
  const BROKEN: seq<Expr> := [Expr(0, 0, [1, 0])]

  lemma BrokenHeads(id: u32)
    ensures HeadAt(BROKEN, id) == if id == 0 then Some(0) else None
  {
    assert SlotOf(BROKEN, 0) == 0;
  }

  /** The walk stops at the reference to nothing and never sees the cycle behind it. */
  lemma UnresolvedHidesCycle()
    ensures ValidTable(BROKEN) && Cyclic(BROKEN) && WalksEnd(BROKEN)
  {
    assert SlotOf(BROKEN, 0) == 0;
    var args := BROKEN[0].args;
    assert args[0] == 1 && args[1] == 0 && 0 in args;
    BrokenHeads(0);
    BrokenHeads(1);
    var g := References(BROKEN);
    EdgeTo(BROKEN, 0, 0);
    ReachSelf(g, 0);
    assert OnCycle(g, 0);
    forall id: u32 ensures Ends(BROKEN, id) {
      BrokenHeads(id);
      assert [id][0] == id;
      assert Unfold(BROKEN, args, 1) == Dangling;
      assert Unfold(BROKEN, [id], 2) == Dangling;
    }
  }
}
