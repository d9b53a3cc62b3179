/**
 Why bounds of moderate size are never clamped: every bound that closing stores is the length of a
 walk that meets no pivot twice, so sizes grow by one given bound per phase and do not double.
 */
module ZoneWalks {
  import opened Words
  import opened Zone

  function Length(m: Matrix, p: seq<nat>): int {
    if |p| < 2 then 0 else At(m, p[0], p[1]) + Length(m, p[1..])
  }

  predicate Connected(m: Matrix, p: seq<nat>) {
    forall i :: 0 <= i < |p| - 1 ==> Finite(m, p[i], p[i + 1])
  }

  function Inner(p: seq<nat>): seq<nat>
    requires |p| >= 2
  {
    p[1..|p| - 1]
  }

  predicate Below(s: seq<nat>, k: nat) {
    forall i :: 0 <= i < |s| ==> s[i] < k
  }

  /** A walk from `i` to `j` whose inner nodes are pivots below `k`. */
  predicate WalkVia(m: Matrix, p: seq<nat>, i: nat, j: nat, k: nat) {
    |p| >= 2 && p[0] == i && p[|p| - 1] == j && Connected(m, p) && Below(Inner(p), k)
  }

  /** The bound between `i` and `j` is the length of a walk that meets no inner node twice. */
  ghost predicate Spelled(m: Matrix, d: Matrix, k: nat, i: nat, j: nat) {
    Finite(d, i, j) ==>
      exists p :: WalkVia(m, p, i, j, k) && Distinct(Inner(p)) && Length(m, p) == At(d, i, j)
  }

  // ---------------------------------------------------------------- lengths

  lemma {:induction false} LengthJoin(m: Matrix, a: seq<nat>, b: seq<nat>)
    requires |a| > 0 && |b| > 0 && a[|a| - 1] == b[0]
    ensures Length(m, a + b[1..]) == Length(m, a) + Length(m, b)
  {
    hide At;
    if |a| == 1 {
      assert a + b[1..] == b;
    } else {
      LengthJoin(m, a[1..], b);
      assert (a + b[1..])[1..] == a[1..] + b[1..];
    }
  }

  lemma LengthSplit(m: Matrix, p: seq<nat>, a: nat)
    requires a < |p|
    ensures Length(m, p) == Length(m, p[..a + 1]) + Length(m, p[a..])
  {
    LengthJoin(m, p[..a + 1], p[a..]);
    assert p[..a + 1] + p[a..][1..] == p;
  }

  lemma {:induction false} LengthSmall(m: Matrix, p: seq<nat>, b: nat)
    requires Small(m, b) && Connected(m, p) && |p| >= 1
    ensures -((|p| - 1) * b) <= Length(m, p) <= (|p| - 1) * b
  {
    hide At, Small;
    if |p| >= 2 {
      var q := p[1..];
      assert Connected(m, q) by {
        forall i | 0 <= i < |q| - 1 ensures Finite(m, q[i], q[i + 1]) { assert Finite(m, p[i + 1], p[i + 1 + 1]); }
      }
      LengthSmall(m, q, b);
      assert SmallAt(m, b, p[0], p[0 + 1]) by { SmallEntry(m, b, p[0], p[1]); }
      assert Finite(m, p[0], p[0 + 1]);
      assert (|p| - 1) * b == (|q| - 1) * b + b;
    }
  }

  lemma SmallEntry(m: Matrix, b: int, i: nat, j: nat)
    requires Small(m, b)
    ensures SmallAt(m, b, i, j)
  {
  }

  /** Few inner nodes, few steps: the length is within `k + 1` given bounds. */
  lemma SimpleIsShort(m: Matrix, p: seq<nat>, i: nat, j: nat, k: nat, b: nat)
    requires Small(m, b) && WalkVia(m, p, i, j, k) && Distinct(Inner(p))
    ensures -((k + 1) * b) <= Length(m, p) <= (k + 1) * b
  {
    hide At, Small;
    LengthSmall(m, p, b);
    DistinctBelow(Inner(p), k);
    Times(|p| - 1, k + 1, b);
  }

  lemma Times(x: nat, y: nat, b: nat)
    requires x <= y
    ensures x * b <= y * b
  {
  }

  // ---------------------------------------------------------------- a walk is no shorter than the stored bound

  lemma {:induction false} WalkAtLeast(m: Matrix, d: Matrix, p: seq<nat>, i: nat, j: nat, k: nat)
    requires Ranged(d) && Triangles(d, k) && Tighter(m, d) && WalkVia(m, p, i, j, k)
    ensures Finite(d, i, j) && At(d, i, j) <= Length(m, p)
  {
    hide At, Ranged, Tighter;
    assert Finite(m, p[0], p[0 + 1]);
    TighterAt(m, d, p[0], p[1]);
    if |p| > 2 {
      var q := p[1..];
      assert Connected(m, q) by {
        forall a | 0 <= a < |q| - 1 ensures Finite(m, q[a], q[a + 1]) { assert Finite(m, p[a + 1], p[a + 1 + 1]); }
      }
      assert Inner(q) == Inner(p)[1..];
      assert Inner(p)[0] == p[1];
      WalkAtLeast(m, d, q, p[1], j, k);
      assert Triangle(d, i, p[1], j);
      RangedSums(d, i, p[1], j);
    } else {
      assert Length(m, p[1..]) == 0;
    }
  }

  lemma RangedSums(d: Matrix, i: nat, p: nat, j: nat)
    requires Ranged(d) && Triangle(d, i, p, j)
    ensures Finite(d, i, p) && Finite(d, p, j) ==> Finite(d, i, j)
  {
    FiniteSums(d, i, p, j);
  }

  lemma PhaseTighter(m: Matrix, k: nat)
    requires Square(m)
    ensures Tighter(m, Phase(m, k))
  {
    hide ClampedAdd;
    forall i: nat, j: nat | i < |m| && j < |m| ensures At(Phase(m, k), i, j) <= At(m, i, j) { PhaseAt(m, k, i, j); }
  }

  lemma {:induction false} ClosureTighter(m: Matrix, k: nat)
    requires Ranged(m)
    ensures Tighter(m, Closure(m, k))
  {
    hide At, Phase, Ranged, Square, Tighter;
    if k > 0 {
      ClosureTighter(m, k - 1);
      ClosureRanged(m, k - 1);
      RangedSquare(Closure(m, k - 1));
      PhaseTighter(Closure(m, k - 1), k - 1);
      TighterTrans(m, Closure(m, k - 1), Closure(m, k));
    } else {
      TighterSelf(m);
    }
  }

  lemma TighterSelf(m: Matrix)
    ensures Tighter(m, m)
  {
  }

  // ---------------------------------------------------------------- joining two walks at the pivot

  /** The part of a walk up to, or from, one of its inner nodes. */
  lemma Parts(m: Matrix, p: seq<nat>, i: nat, j: nat, k: nat, a: nat)
    requires WalkVia(m, p, i, j, k) && 0 < a < |p| - 1
    ensures p[a] < k && WalkVia(m, p[..a + 1], i, p[a], k) && WalkVia(m, p[a..], p[a], j, k)
  {
    hide Finite;
    var x, y := p[..a + 1], p[a..];
    assert Inner(p)[a - 1] == p[a];
    forall c | 0 <= c < |x| - 1 ensures Finite(m, x[c], x[c + 1]) { assert Finite(m, p[c], p[c + 1]); }
    forall c | 0 <= c < |y| - 1 ensures Finite(m, y[c], y[c + 1]) { assert Finite(m, p[a + c], p[a + c + 1]); }
    forall c | 0 <= c < |Inner(x)| ensures Inner(x)[c] < k { assert Inner(x)[c] == Inner(p)[c]; }
    forall c | 0 <= c < |Inner(y)| ensures Inner(y)[c] < k { assert Inner(y)[c] == Inner(p)[a + c]; }
  }

  /** Through a node that both walks meet there is a way round the pivot that is no longer. */
  lemma SharedIsLonger(
      m: Matrix, d: Matrix, k: nat, i: nat, j: nat, p: seq<nat>, q: seq<nat>, a: nat, c: nat)
    requires Ranged(d) && Triangles(d, k) && Tighter(m, d) && At(d, k, k) >= 0
    requires WalkVia(m, p, i, k, k) && WalkVia(m, q, k, j, k) && 0 < a < |p| - 1 && 0 < c < |q| - 1
    ensures p[a] == q[c] ==> At(d, i, j) <= Length(m, p) + Length(m, q)
  {
    hide At, Ranged, Tighter, Connected, Length;
    if p[a] == q[c] {
      var x := p[a];
      Parts(m, p, i, k, k, a);
      Parts(m, q, k, j, k, c);
      LengthSplit(m, p, a);
      LengthSplit(m, q, c);
      WalkAtLeast(m, d, p[..a + 1], i, x, k);
      WalkAtLeast(m, d, p[a..], x, k, k);
      WalkAtLeast(m, d, q[..c + 1], k, x, k);
      WalkAtLeast(m, d, q[c..], x, j, k);
      assert Triangle(d, k, x, k) && Triangle(d, i, x, j);
    }
  }

  lemma JoinedWalk(m: Matrix, k: nat, i: nat, j: nat, p: seq<nat>, q: seq<nat>)
    requires WalkVia(m, p, i, k, k) && WalkVia(m, q, k, j, k)
    ensures WalkVia(m, p + q[1..], i, j, k + 1) && Inner(p + q[1..]) == Inner(p) + [k] + Inner(q)
    ensures Length(m, p + q[1..]) == Length(m, p) + Length(m, q)
  {
    hide Finite, Length;
    LengthJoin(m, p, q);
    var r := p + q[1..];
    forall c | 0 <= c < |r| - 1 ensures Finite(m, r[c], r[c + 1]) {
      if c < |p| - 1 { assert Finite(m, p[c], p[c + 1]); }
      else { assert Finite(m, q[c - (|p| - 1)], q[c - (|p| - 1) + 1]); }
    }
    assert Inner(r) == Inner(p) + [k] + Inner(q);
  }

  lemma DistinctJoin(a: seq<nat>, k: nat, b: seq<nat>)
    requires Distinct(a) && Distinct(b) && Below(a, k) && Below(b, k)
    requires forall i, j :: 0 <= i < |a| && 0 <= j < |b| ==> a[i] != b[j]
    ensures Distinct(a + [k] + b)
  {
  }

  /** A bound that the pivot improves is the length of the joined walk, which meets nothing twice. */
  lemma ImprovedIsSpelled(m: Matrix, d: Matrix, k: nat, i: nat, j: nat)
    requires Ranged(d) && Triangles(d, k) && Tighter(m, d) && At(d, k, k) >= 0 && k < |d| && i < |d| && j < |d|
    requires UnclampedAt(d, k, i, j) && Spelled(m, d, k, i, k) && Spelled(m, d, k, k, j)
    requires Finite(d, i, k) && Finite(d, k, j) && At(d, i, k) + At(d, k, j) < At(d, i, j)
    ensures Spelled(m, Phase(d, k), k + 1, i, j)
  {
    hide At, Ranged, Tighter, Connected, Length, Phase;
    RangedExactVia(d, k, i, j);
    var p :| WalkVia(m, p, i, k, k) && Distinct(Inner(p)) && Length(m, p) == At(d, i, k);
    var q :| WalkVia(m, q, k, j, k) && Distinct(Inner(q)) && Length(m, q) == At(d, k, j);
    var x, y := Inner(p), Inner(q);
    forall a, c | 0 <= a < |x| && 0 <= c < |y| ensures x[a] != y[c] {
      SharedIsLonger(m, d, k, i, j, p, q, a + 1, c + 1);
    }
    JoinedWalk(m, k, i, j, p, q);
    DistinctJoin(x, k, y);
    var r := p + q[1..];
    assert WalkVia(m, r, i, j, k + 1) && Distinct(Inner(r)) && Length(m, r) == At(Phase(d, k), i, j);
  }

  lemma RangedExactVia(m: Matrix, k: nat, i: nat, j: nat)
    requires Ranged(m) && UnclampedAt(m, k, i, j) && i < |m| && j < |m|
    ensures var sum := At(m, i, k) + At(m, k, j);
            At(Phase(m, k), i, j) == if Finite(m, i, k) && Finite(m, k, j) then Min(At(m, i, j), sum) else At(m, i, j)
  {
    ExactVia(m, k, i, j);
  }

  // ---------------------------------------------------------------- every phase

  ghost predicate AllSpelled(m: Matrix, d: Matrix, k: nat) {
    forall i: nat, j: nat :: Spelled(m, d, k, i, j)
  }

  lemma FirstIsSpelled(m: Matrix, i: nat, j: nat)
    ensures Spelled(m, m, 0, i, j)
  {
    hide At;
    var p := [i, j];
    assert Inner(p) == [] && p[1..] == [j];
    assert Length(m, p) == At(m, i, j) + Length(m, [j]) == At(m, i, j);
    if Finite(m, i, j) { assert WalkVia(m, p, i, j, 0); }
  }

  /** A walk through fewer pivots is one through more. */
  lemma KeptIsSpelled(m: Matrix, d: Matrix, d': Matrix, k: nat, i: nat, j: nat)
    requires Spelled(m, d, k, i, j) && At(d', i, j) == At(d, i, j)
    ensures Spelled(m, d', k + 1, i, j)
  {
    hide At, Length, Connected;
    if Finite(d, i, j) {
      var p :| WalkVia(m, p, i, j, k) && Distinct(Inner(p)) && Length(m, p) == At(d, i, j);
      assert WalkVia(m, p, i, j, k + 1);
    }
  }

  lemma PhaseSpelled(m: Matrix, d: Matrix, k: nat, i: nat, j: nat)
    requires Ranged(d) && Triangles(d, k) && Tighter(m, d) && At(d, k, k) >= 0 && k < |d|
    requires Unclamped(d, k) && AllSpelled(m, d, k)
    ensures Spelled(m, Phase(d, k), k + 1, i, j)
  {
    hide At, Ranged, Tighter, Phase;
    assert UnclampedAt(d, k, i, j) && Spelled(m, d, k, i, j) && Spelled(m, d, k, i, k) && Spelled(m, d, k, k, j);
    hide Spelled;
    if i < |d| && j < |d| {
      RangedExactVia(d, k, i, j);
      if Finite(d, i, k) && Finite(d, k, j) && At(d, i, k) + At(d, k, j) < At(d, i, j) {
        ImprovedIsSpelled(m, d, k, i, j);
      } else {
        KeptIsSpelled(m, d, Phase(d, k), k, i, j);
      }
    } else {
      RangedSquare(d);
      OutOfRange(d, i, j);
      OutOfRange(Phase(d, k), i, j);
      KeptIsSpelled(m, d, Phase(d, k), k, i, j);
    }
  }

  lemma SpelledIsSmall(m: Matrix, d: Matrix, k: nat, b: nat)
    requires Small(m, b) && AllSpelled(m, d, k)
    ensures Small(d, (k + 1) * b)
  {
    hide At, Length, Connected;
    var c := (k + 1) * b;
    forall i: nat, j: nat ensures SmallAt(d, c, i, j) {
      assert Spelled(m, d, k, i, j);
      if Finite(d, i, j) {
        var p :| WalkVia(m, p, i, j, k) && Distinct(Inner(p)) && Length(m, p) == At(d, i, j);
        SimpleIsShort(m, p, i, j, k, b);
      }
    }
  }

  lemma SmallIsUnclamped(d: Matrix, k: nat, b: int)
    requires Small(d, b) && 2 * b <= POS_BOUND
    ensures Unclamped(d, k)
  {
    hide At;
    forall i: nat, j: nat ensures UnclampedAt(d, k, i, j) { assert SmallAt(d, b, i, k) && SmallAt(d, b, k, j); }
  }

  /**
   As long as no pivot is negative, bounds of at most `b` grow by at most `b` in each phase; none is
   clamped if twice the dimension times `b` is in range.
   */
  lemma {:induction false} ClosureSpelled(m: Matrix, b: nat, k: nat)
    requires Ranged(m) && Small(m, b) && 2 * (|m| * b) <= POS_BOUND && k <= |m| && Pivots(m, k)
    ensures NoneClamped(m, k) && AllSpelled(m, Closure(m, k), k) && Small(Closure(m, k), (k + 1) * b)
  {
    hide At, Ranged, Small, Phase, Spelled, Triangles, Tighter, Unclamped;
    if k > 0 {
      assert Pivots(m, k - 1);
      ClosureSpelled(m, b, k - 1);
      var d := Closure(m, k - 1);
      Times(k, |m|, b);
      SmallIsUnclamped(d, k - 1, k * b);
      ClosureTriangles(m, k - 1);
      ClosureTighter(m, k - 1);
      assert At(d, k - 1, k - 1) >= 0;
      forall i: nat, j: nat ensures Spelled(m, Closure(m, k), k, i, j) { PhaseSpelled(m, d, k - 1, i, j); }
    } else {
      forall i: nat, j: nat ensures Spelled(m, m, 0, i, j) { FirstIsSpelled(m, i, j); }
    }
    SpelledIsSmall(m, Closure(m, k), k, b);
  }

  /** For bounds of at most `b`, with twice the dimension times `b` in range, closing decides. */
  lemma CloseDecidesSmall(m: Matrix, m': Matrix, b: nat)
    requires Sane(m) && Small(m, b) && 2 * (|m| * b) <= POS_BOUND && ClosedFrom(m, m')
    ensures Decided(m, m')
  {
    hide At, Pivots, NoneClamped, Decided, Tighter, SameMeaning, AllSpelled, Closure;
    assert Ranged(m) by { SmallIsRanged(m, b); }
    if Pivots(m, |m|) { ClosureSpelled(m, b, |m|); }
    CloseDecides(m, m');
  }

  lemma SmallIsRanged(m: Matrix, b: nat)
    requires Sane(m) && Small(m, b) && 2 * (|m| * b) <= POS_BOUND
    ensures Ranged(m)
  {
    hide At, Sane;
    forall i: nat, j: nat ensures SmallAt(m, POS_BOUND, i, j) {
      assert SmallAt(m, b, i, j);
      if |m| > 0 { Times(1, |m|, b); } else { RangedNone(m, i, j); }
    }
  }

  lemma RangedNone(m: Matrix, i: nat, j: nat)
    requires |m| == 0
    ensures !Finite(m, i, j)
  {
  }

  /** The dimension in the analysis: the constant zero, eleven registers and three anchors. */
  const DBM_DIM: nat := 15

  /** In the dimension of the analysis every bound below 2^55 is small enough. */
  lemma RegisterBoundsFit(m: Matrix, m': Matrix)
    requires Sane(m) && |m| == DBM_DIM && Small(m, 0x80_0000_0000_0000) && ClosedFrom(m, m')
    ensures Decided(m, m')
  {
    hide Sane, Small, ClosedFrom, Decided;
    CloseDecidesSmall(m, m', 0x80_0000_0000_0000);
  }
}
