/**
 Difference bounds: the matrix of a zone, its closure by Floyd and Warshall with clamped sums, and
 what the closed matrix says about the valuations it stands for.
 */
module Zone {
  import opened Words


  const INF: int := 0x7FFF_FFFF_FFFF_FFFF / 4
  const POS_BOUND: int := INF / 2
  const NEG_BOUND: int := -POS_BOUND
  const I64_MIN: int := -0x8000_0000_0000_0000
  const I64_MAX: int := 0x7FFF_FFFF_FFFF_FFFF

  /** `m[i][j]` bounds `x_i - x_j` from above, unless it is `INF` or more. */
  type Matrix = seq<seq<int>>

  predicate Square(m: Matrix) {
    forall i :: 0 <= i < |m| ==> |m[i]| == |m|
  }

  function At(m: Matrix, i: nat, j: nat): int {
    if i < |m| && j < |m[i]| then m[i][j] else INF
  }

  predicate Finite(m: Matrix, i: nat, j: nat) {
    At(m, i, j) < INF
  }

  function ClampUpper(c: int): int {
    if c > POS_BOUND then INF else if c < NEG_BOUND then NEG_BOUND else c
  }

  /** Addition that gives up its bound on overflow of the 64-bit sum. */
  function ClampedAdd(a: int, b: int): int {
    if a >= INF || b >= INF then INF
    else if a + b > I64_MAX || a + b < I64_MIN then INF
    else ClampUpper(a + b)
  }

  // ---------------------------------------------------------------- meaning

  /** A valuation within all bounds. */
  ghost predicate Satisfies(m: Matrix, x: nat -> int) {
    forall i: nat, j: nat :: Within(m, x, i, j)
  }

  predicate Within(m: Matrix, x: nat -> int, i: nat, j: nat) {
    Finite(m, i, j) ==> x(i) - x(j) <= At(m, i, j)
  }

  /** A clamped sum never promises more than the sum. */
  lemma ClampedIsWeaker(a: int, b: int)
    ensures ClampedAdd(a, b) < INF ==> a < INF && b < INF && a + b <= ClampedAdd(a, b)
  {
  }

  ghost predicate SameMeaning(m: Matrix, m': Matrix) {
    forall x: nat -> int :: Satisfies(m, x) <==> Satisfies(m', x)
  }

  function Set(m: Matrix, i: nat, j: nat, c: int): Matrix
    requires i < |m| && j < |m[i]|
  {
    m[i := m[i][j := c]]
  }

  lemma SetAt(m: Matrix, i: nat, j: nat, c: int, a: nat, b: nat)
    requires i < |m| && j < |m[i]|
    ensures At(Set(m, i, j, c), a, b) == if a == i && b == j then c else At(m, a, b)
  {
  }

  /** Tightening a bound to the clamped sum of two others keeps the meaning, even if one of them is outdated. */
  lemma TightenKeepsMeaning(m: Matrix, i: nat, k: nat, j: nat, dik: int)
    requires i < |m| && j < |m[i]| && At(m, i, k) <= dik && ClampedAdd(dik, At(m, k, j)) < At(m, i, j)
    ensures SameMeaning(m, Set(m, i, j, ClampedAdd(dik, At(m, k, j))))
  {
    var c := ClampedAdd(dik, At(m, k, j));
    var m' := Set(m, i, j, c);
    ClampedIsWeaker(dik, At(m, k, j));
    hide ClampedAdd, At, Set;
    forall x: nat -> int ensures Satisfies(m, x) <==> Satisfies(m', x) {
      if Satisfies(m, x) {
        assert Within(m, x, i, k) && Within(m, x, k, j);
        forall a: nat, b: nat ensures Within(m', x, a, b) { SetAt(m, i, j, c, a, b); assert Within(m, x, a, b); }
      }
      if Satisfies(m', x) {
        forall a: nat, b: nat ensures Within(m, x, a, b) { SetAt(m, i, j, c, a, b); assert Within(m', x, a, b); }
      }
    }
  }

  lemma MeaningTrans(a: Matrix, b: Matrix, c: Matrix)
    requires SameMeaning(a, b) && SameMeaning(b, c)
    ensures SameMeaning(a, c)
  {
    hide Satisfies;
    forall x: nat -> int ensures Satisfies(a, x) <==> Satisfies(c, x) {
      assert Satisfies(a, x) <==> Satisfies(b, x);
    }
  }

  /** A negative bound of a variable by itself leaves no valuation. */
  lemma NegativeIsEmpty(m: Matrix, i: nat, x: nat -> int)
    requires At(m, i, i) < 0
    ensures !Satisfies(m, x)
  {
    assert !Within(m, x, i, i);
  }

  // ---------------------------------------------------------------- one phase

  predicate Sane(m: Matrix) {
    Square(m) && forall i: nat, j: nat :: i < |m| && j < |m| ==> m[i][j] <= INF
  }

  /** The bound between `i` and `j` once walks through `k` count. */
  function Via(m: Matrix, k: nat, i: nat, j: nat): int {
    Min(At(m, i, j), ClampedAdd(At(m, i, k), At(m, k, j)))
  }

  function Phase(m: Matrix, k: nat): (r: Matrix)
    ensures |r| == |m| && Square(r)
  {
    seq(|m|, i requires 0 <= i < |m| => seq(|m|, j requires 0 <= j < |m| => Via(m, k, i, j)))
  }

  lemma PhaseAt(m: Matrix, k: nat, i: nat, j: nat)
    requires i < |m| && j < |m|
    ensures At(Phase(m, k), i, j) == Via(m, k, i, j)
  {
  }

  /** With a pivot that is not negative, the row and the column of the pivot do not change. */
  lemma PivotStays(m: Matrix, k: nat, i: nat)
    requires Sane(m) && At(m, k, k) >= 0
    ensures Via(m, k, i, k) == At(m, i, k) && Via(m, k, k, i) == At(m, k, i)
  {
    ClampedIsWeaker(At(m, i, k), At(m, k, k));
    ClampedIsWeaker(At(m, k, k), At(m, k, i));
    ClampedAtMost(At(m, i, k), At(m, k, k));
    ClampedAtMost(At(m, k, k), At(m, k, i));
    SaneAt(m, i, k);
    SaneAt(m, k, i);
  }

  lemma ClampedAtMost(a: int, b: int)
    ensures ClampedAdd(a, b) <= INF
  {
  }

  lemma SaneAt(m: Matrix, i: nat, j: nat)
    requires Sane(m)
    ensures At(m, i, j) <= INF
  {
  }

  // ---------------------------------------------------------------- the code

  ghost function Snapshot(a: array2<int>): (m: Matrix)
    requires a.Length0 == a.Length1
    reads a
    ensures |m| == a.Length0 && Square(m) && forall i: nat, j: nat :: i < |m| && j < |m| ==> m[i][j] == a[i, j]
  {
    seq(a.Length0, i requires 0 <= i < a.Length0 reads a => seq(a.Length1, j requires 0 <= j < a.Length1 reads a => a[i, j]))
  }

  method Store(a: array2<int>, i: nat, j: nat, c: int)
    requires a.Length0 == a.Length1 && i < a.Length0 && j < a.Length1
    modifies a
    ensures Snapshot(a) == Set(old(Snapshot(a)), i, j, c)
  {
    a[i, j] := c;
    ghost var m, m' := Snapshot(a), Set(old(Snapshot(a)), i, j, c);
    forall r | 0 <= r < |m| ensures m[r] == m'[r] { assert forall s :: 0 <= s < |m| ==> m[r][s] == m'[r][s]; }
  }

  /** Nothing loosened. */
  ghost predicate Tighter(m: Matrix, m': Matrix) {
    |m'| == |m| && forall i: nat, j: nat :: At(m', i, j) <= At(m, i, j)
  }

  /** The cells of row `i` before column `j` are done, and so are the rows above. */
  ghost predicate DoneUpTo(was: Matrix, m: Matrix, k: nat, i: nat, j: nat) {
    forall a: nat, b: nat :: a < |was| && b < |was| ==> CellDone(was, m, k, i, j, a, b)
  }

  predicate CellDone(was: Matrix, m: Matrix, k: nat, i: nat, j: nat, a: nat, b: nat) {
    At(m, a, b) == if a < i || (a == i && b < j) then Via(was, k, a, b) else At(was, a, b)
  }

  /** What the inner loop does to one cell. */
  function Relaxed(m: Matrix, k: nat, i: nat, j: nat, dik: int): Matrix
    requires i < |m| && j < |m[i]|
  {
    var via := ClampedAdd(dik, At(m, k, j));
    if via < At(m, i, j) then Set(m, i, j, via) else m
  }

  lemma RelaxedKeeps(m: Matrix, k: nat, i: nat, j: nat, dik: int)
    requires Sane(m) && i < |m| && j < |m| && At(m, i, k) <= dik
    ensures var m' := Relaxed(m, k, i, j, dik); SameMeaning(m, m') && Tighter(m, m') && Sane(m')
  {
    var c, m' := ClampedAdd(dik, At(m, k, j)), Relaxed(m, k, i, j, dik);
    if c < At(m, i, j) {
      TightenKeepsMeaning(m, i, k, j, dik);
      hide ClampedAdd, SameMeaning;
      forall a: nat, b: nat ensures At(m', a, b) <= At(m, a, b) { SetAt(m, i, j, c, a, b); }
      forall a: nat, b: nat | a < |m'| && b < |m'| ensures m'[a][b] <= INF { SetAt(m, i, j, c, a, b); SaneAt(m, a, b); }
    }
  }

  lemma RelaxedDone(was: Matrix, m: Matrix, k: nat, i: nat, j: nat)
    requires Sane(was) && Sane(m) && |m| == |was| && k < |m| && i < |m| && j < |m| && At(was, k, k) >= 0
    requires DoneUpTo(was, m, k, i, j)
    ensures DoneUpTo(was, Relaxed(m, k, i, j, At(was, i, k)), k, i, j + 1)
  {
    var m' := Relaxed(m, k, i, j, At(was, i, k));
    PivotStays(was, k, j);
    assert CellDone(was, m, k, i, j, k, j) && CellDone(was, m, k, i, j, i, j);
    hide ClampedAdd, Set;
    var next := j + 1;
    forall a: nat, b: nat | a < |was| && b < |was| ensures CellDone(was, m', k, i, next, a, b) {
      assert CellDone(was, m, k, i, j, a, b);
      SetAt(m, i, j, ClampedAdd(At(was, i, k), At(m, k, j)), a, b);
    }
  }

  /** One row of a phase: an unbounded `dik` skips it, an unbounded `dkj` skips the cell. */
  method RelaxRow(a: array2<int>, k: nat, i: nat, ghost was: Matrix)
    requires a.Length0 == a.Length1 && k < a.Length0 && i < a.Length0
    requires Sane(Snapshot(a)) && Sane(was) && |was| == a.Length0
    requires At(was, k, k) >= 0 ==> DoneUpTo(was, Snapshot(a), k, i, 0)
    modifies a
    ensures Sane(Snapshot(a)) && SameMeaning(old(Snapshot(a)), Snapshot(a)) && Tighter(old(Snapshot(a)), Snapshot(a))
    ensures At(was, k, k) >= 0 ==> DoneUpTo(was, Snapshot(a), k, i + 1, 0)
  {
    hide ClampedAdd, Set, SameMeaning, Tighter, Sane, DoneUpTo, Via;
    var dik := a[i, k];
    ghost var m0 := Snapshot(a);
    ghost var m, ok := m0, At(was, k, k) >= 0;
    MeaningSelf(m0);
    if ok { StartOfRow(was, m0, k, i); }
    if dik < INF {
      var n := a.Length1;
      for j := 0 to n
        invariant Snapshot(a) == m && Sane(m) && |m| == |was| && SameMeaning(m0, m) && Tighter(m0, m)
        invariant ok ==> DoneUpTo(was, m, k, i, j)
      {
        var dkj := a[k, j];
        TighterAt(m0, m, i, k);
        RelaxedKeeps(m, k, i, j, dik);
        if ok { RelaxedDone(was, m, k, i, j); }
        ghost var m' := Relaxed(m, k, i, j, dik);
        MeaningTrans(m0, m, m');
        TighterTrans(m0, m, m');
        SkipUnbounded(m, k, i, j, dik);
        if dkj < INF {
          var via := ClampedAdd(dik, dkj);
          if via < a[i, j] { Store(a, i, j, via); }
        }
        m := m';
      }
      if ok { EndOfRow(was, m, k, i); }
    } else if ok {
      SkipRow(was, m0, k, i);
    }
  }

  lemma MeaningSelf(m: Matrix)
    ensures SameMeaning(m, m) && Tighter(m, m)
  {
  }

  lemma TighterAt(m: Matrix, m': Matrix, i: nat, j: nat)
    requires Tighter(m, m')
    ensures At(m', i, j) <= At(m, i, j)
  {
  }

  lemma TighterTrans(a: Matrix, b: Matrix, c: Matrix)
    requires Tighter(a, b) && Tighter(b, c)
    ensures Tighter(a, c)
  {
    hide At;
    forall i: nat, j: nat ensures At(c, i, j) <= At(a, i, j) { TighterAt(a, b, i, j); TighterAt(b, c, i, j); }
  }

  lemma SkipUnbounded(m: Matrix, k: nat, i: nat, j: nat, dik: int)
    requires Sane(m) && i < |m| && j < |m[i]|
    ensures At(m, k, j) >= INF ==> Relaxed(m, k, i, j, dik) == m
  {
  }

  lemma StartOfRow(was: Matrix, m: Matrix, k: nat, i: nat)
    requires DoneUpTo(was, m, k, i, 0) && k < |was| && i < |was|
    ensures At(m, i, k) == At(was, i, k)
  {
    assert CellDone(was, m, k, i, 0, i, k);
  }

  lemma EndOfRow(was: Matrix, m: Matrix, k: nat, i: nat)
    requires DoneUpTo(was, m, k, i, |was|)
    ensures DoneUpTo(was, m, k, i + 1, 0)
  {
    hide Via, At;
    var next := i + 1;
    forall a: nat, b: nat | a < |was| && b < |was| ensures CellDone(was, m, k, next, 0, a, b) {
      assert CellDone(was, m, k, i, |was|, a, b);
    }
  }

  lemma SkipRow(was: Matrix, m: Matrix, k: nat, i: nat)
    requires Sane(was) && DoneUpTo(was, m, k, i, 0) && At(was, i, k) >= INF
    ensures DoneUpTo(was, m, k, i + 1, 0)
  {
    var next := i + 1;
    forall a: nat, b: nat | a < |was| && b < |was| ensures CellDone(was, m, k, next, 0, a, b) {
      assert CellDone(was, m, k, i, 0, a, b);
      SaneAt(was, a, b);
    }
  }

  /** All rows for one pivot. */
  method RunPhase(a: array2<int>, k: nat)
    requires a.Length0 == a.Length1 && k < a.Length0 && Sane(Snapshot(a))
    modifies a
    ensures Sane(Snapshot(a)) && SameMeaning(old(Snapshot(a)), Snapshot(a)) && Tighter(old(Snapshot(a)), Snapshot(a))
    ensures At(old(Snapshot(a)), k, k) >= 0 ==> Snapshot(a) == Phase(old(Snapshot(a)), k)
  {
    hide SameMeaning, Tighter, Sane, DoneUpTo, Phase, At;
    ghost var was := Snapshot(a);
    var n := a.Length0;
    MeaningSelf(was);
    NothingDone(was, k);
    for i := 0 to n
      invariant Sane(Snapshot(a)) && SameMeaning(was, Snapshot(a)) && Tighter(was, Snapshot(a))
      invariant At(was, k, k) >= 0 ==> DoneUpTo(was, Snapshot(a), k, i, 0)
    {
      ghost var m := Snapshot(a);
      RelaxRow(a, k, i, was);
      MeaningTrans(was, m, Snapshot(a));
      TighterTrans(was, m, Snapshot(a));
    }
    if At(was, k, k) >= 0 { AllCellsDone(was, Snapshot(a), k); }
  }

  lemma NothingDone(m: Matrix, k: nat)
    ensures DoneUpTo(m, m, k, 0, 0)
  {
  }

  lemma AllCellsDone(was: Matrix, m: Matrix, k: nat)
    requires Square(m) && |m| == |was| && DoneUpTo(was, m, k, |was|, 0)
    ensures m == Phase(was, k)
  {
    hide Via;
    var p := Phase(was, k);
    forall i | 0 <= i < |m| ensures m[i] == p[i] {
      forall j | 0 <= j < |m| ensures m[i][j] == p[i][j] { assert CellDone(was, m, k, |was|, 0, i, j); }
    }
  }

  // ---------------------------------------------------------------- all phases

  function Closure(m: Matrix, k: nat): (r: Matrix)
    ensures |r| == |m|
  {
    if k == 0 then m else Phase(Closure(m, k - 1), k - 1)
  }

  /** Each pivot was not negative when its turn came. */
  ghost predicate Pivots(m: Matrix, k: nat) {
    forall p: nat :: p < k ==> At(Closure(m, p), p, p) >= 0
  }

  /** Some variable is bounded below itself: the diagonal part of the inconsistency test. */
  ghost predicate Negative(m: Matrix) {
    exists i: nat :: i < |m| && At(m, i, i) < 0
  }

  lemma NegativeStays(m: Matrix, m': Matrix)
    requires Tighter(m, m') && Negative(m)
    ensures Negative(m')
  {
    hide At;
    var i: nat :| i < |m| && At(m, i, i) < 0;
    TighterAt(m, m', i, i);
  }

  /** How `Close` leaves a matrix: with the same meaning, and visibly empty if a pivot was negative. */
  ghost predicate ClosedFrom(m: Matrix, m': Matrix) {
    && Sane(m') && SameMeaning(m, m') && Tighter(m, m')
    && if Pivots(m, |m|) then m' == Closure(m, |m|) else Negative(m')
  }

  method Close(a: array2<int>)
    requires a.Length0 == a.Length1 && Sane(Snapshot(a))
    modifies a
    ensures ClosedFrom(old(Snapshot(a)), Snapshot(a))
  {
    hide SameMeaning, Tighter, Sane, Negative, Pivots, Closure, Phase;
    ghost var m0, clean := Snapshot(a), true;
    var n := a.Length0;
    MeaningSelf(m0);
    NoPhases(m0);
    for k := 0 to n
      invariant Sane(Snapshot(a)) && SameMeaning(m0, Snapshot(a)) && Tighter(m0, Snapshot(a))
      invariant clean <==> Pivots(m0, k)
      invariant if clean then Snapshot(a) == Closure(m0, k) else Negative(Snapshot(a))
    {
      ghost var m := Snapshot(a);
      RunPhase(a, k);
      MeaningTrans(m0, m, Snapshot(a));
      TighterTrans(m0, m, Snapshot(a));
      if clean && At(m, k, k) >= 0 {
        NextPivot(m0, k);
      } else {
        if clean { PivotIsNegative(m, k); }
        NegativeStays(m, Snapshot(a));
        NoFurtherPivot(m0, k);
        clean := false;
      }
    }
  }

  lemma NoPhases(m: Matrix)
    ensures Closure(m, 0) == m && Pivots(m, 0)
  {
  }

  lemma NextPivot(m: Matrix, k: nat)
    requires Pivots(m, k) && At(Closure(m, k), k, k) >= 0
    ensures Pivots(m, k + 1) && Closure(m, k + 1) == Phase(Closure(m, k), k)
  {
    hide At;
  }

  lemma NoFurtherPivot(m: Matrix, k: nat)
    requires !Pivots(m, k) || At(Closure(m, k), k, k) < 0
    ensures !Pivots(m, k + 1)
  {
    hide At, Closure;
  }

  lemma PivotIsNegative(m: Matrix, k: nat)
    requires k < |m| && At(m, k, k) < 0
    ensures Negative(m)
  {
  }

  /** The ranges kept beside the matrix for a variable: signed and unsigned, of its low half and of all of it. */
  datatype Shadow = Shadow(
    s32Min: int, s32Max: int, u32Min: int, u32Max: int,
    s64Min: int, s64Max: int, u64Min: int, u64Max: int)
  {
    predicate Empty() {
      s32Min > s32Max || u32Min > u32Max || s64Min > s64Max || u64Min > u64Max
    }
  }

  method IsInconsistent(a: array2<int>, shadows: seq<Shadow>) returns (r: bool)
    requires a.Length0 == a.Length1
    ensures r <==> Negative(Snapshot(a)) || exists b :: b in shadows && b.Empty()
  {
    ghost var m := Snapshot(a);
    for i := 0 to a.Length0
      invariant forall p: nat :: p < i ==> At(m, p, p) >= 0
    {
      if a[i, i] < 0 {
        PivotIsNegative(m, i);
        return true;
      }
    }
    assert !Negative(m);
    for i := 0 to |shadows|
      invariant forall p :: 0 <= p < i ==> !shadows[p].Empty()
    {
      if shadows[i].Empty() { return true; }
    }
    return false;
  }

  // ---------------------------------------------------------------- sums that are not clamped

  /** Every finite bound is at most `b` in size. */
  ghost predicate Small(m: Matrix, b: int) {
    forall i: nat, j: nat :: SmallAt(m, b, i, j)
  }

  predicate SmallAt(m: Matrix, b: int, i: nat, j: nat) {
    Finite(m, i, j) ==> -b <= At(m, i, j) <= b
  }

  /** What a matrix holds at any time: no bound but infinity above the clamping range, none below it. */
  ghost predicate Ranged(m: Matrix) {
    Sane(m) && Small(m, POS_BOUND)
  }

  predicate UnclampedAt(m: Matrix, k: nat, i: nat, j: nat) {
    Finite(m, i, k) && Finite(m, k, j) ==> NEG_BOUND <= At(m, i, k) + At(m, k, j) <= POS_BOUND
  }

  /** The sums through pivot `k` are all in range. */
  ghost predicate Unclamped(m: Matrix, k: nat) {
    forall i: nat, j: nat :: UnclampedAt(m, k, i, j)
  }

  /** None of the first `k` phases clamps a sum. */
  ghost predicate NoneClamped(m: Matrix, k: nat) {
    forall p: nat :: p < k ==> Unclamped(Closure(m, p), p)
  }

  lemma ExactSum(a: int, c: int)
    requires NEG_BOUND <= a + c <= POS_BOUND
    ensures a < INF && c < INF ==> ClampedAdd(a, c) == a + c < INF
  {
  }

  lemma InfiniteSum(a: int, c: int)
    ensures a >= INF || c >= INF ==> ClampedAdd(a, c) == INF
    ensures ClampedAdd(a, c) < INF ==> NEG_BOUND <= ClampedAdd(a, c) <= POS_BOUND
  {
  }

  /** A sum in range is added exactly. */
  lemma ExactVia(m: Matrix, k: nat, i: nat, j: nat)
    requires Sane(m) && UnclampedAt(m, k, i, j) && i < |m| && j < |m|
    ensures var sum := At(m, i, k) + At(m, k, j);
            At(Phase(m, k), i, j) == if Finite(m, i, k) && Finite(m, k, j) then Min(At(m, i, j), sum) else At(m, i, j)
  {
    PhaseAt(m, k, i, j);
    SaneAt(m, i, j);
    InfiniteSum(At(m, i, k), At(m, k, j));
    if Finite(m, i, k) && Finite(m, k, j) { ExactSum(At(m, i, k), At(m, k, j)); }
    hide ClampedAdd, At, Phase;
  }

  /** Clamped or not, a phase keeps its entries in range. */
  lemma PhaseRanged(m: Matrix, k: nat)
    requires Ranged(m)
    ensures Ranged(Phase(m, k))
  {
    hide At, Via, Phase;
    var p := Phase(m, k);
    forall i: nat, j: nat ensures SmallAt(p, POS_BOUND, i, j) {
      if i < |m| && j < |m| { PhaseRangedAt(m, k, i, j); } else { OutOfRange(p, i, j); }
    }
    forall i: nat, j: nat | i < |p| && j < |p| ensures p[i][j] <= INF { PhaseRangedAt(m, k, i, j); CellIs(p, i, j); }
  }

  lemma PhaseRangedAt(m: Matrix, k: nat, i: nat, j: nat)
    requires Ranged(m) && i < |m| && j < |m|
    ensures SmallAt(Phase(m, k), POS_BOUND, i, j) && At(Phase(m, k), i, j) <= INF
  {
    PhaseAt(m, k, i, j);
    SaneAt(m, i, j);
    InfiniteSum(At(m, i, k), At(m, k, j));
    assert SmallAt(m, POS_BOUND, i, j);
    hide ClampedAdd, At, Phase;
  }

  lemma OutOfRange(m: Matrix, i: nat, j: nat)
    requires Square(m) && (i >= |m| || j >= |m|)
    ensures At(m, i, j) == INF
  {
  }

  lemma CellIs(m: Matrix, i: nat, j: nat)
    requires i < |m| && j < |m[i]|
    ensures At(m, i, j) == m[i][j]
  {
  }

  // ---------------------------------------------------------------- triangles

  /** The bound between `i` and `j` is no weaker than the walk through `p`. */
  predicate Triangle(m: Matrix, i: nat, p: nat, j: nat) {
    Finite(m, i, p) && Finite(m, p, j) ==> At(m, i, j) <= At(m, i, p) + At(m, p, j)
  }

  ghost predicate Triangles(m: Matrix, k: nat) {
    forall i: nat, p: nat, j: nat :: p < k ==> Triangle(m, i, p, j)
  }

  lemma PhaseTriangle(m: Matrix, k: nat, i: nat, p: nat, j: nat)
    requires Ranged(m) && Unclamped(m, k) && Triangles(m, k) && At(m, k, k) >= 0
    requires k < |m| && p <= k && i < |m| && j < |m|
    ensures Triangle(Phase(m, k), i, p, j)
  {
    hide ClampedAdd, At, Phase, Via, Small, Sane;
    assert UnclampedAt(m, k, i, p) && UnclampedAt(m, k, p, j) && UnclampedAt(m, k, i, j);
    ExactVia(m, k, i, p);
    ExactVia(m, k, p, j);
    ExactVia(m, k, i, j);
    if p < k {
      assert Triangle(m, i, p, j) && Triangle(m, k, p, j) && Triangle(m, i, p, k) && Triangle(m, k, p, k);
      FiniteSums(m, k, p, j);
      FiniteSums(m, i, p, k);
    } else {
      PivotStays(m, k, i);
      PivotStays(m, k, j);
      PhaseAt(m, k, i, k);
      PhaseAt(m, k, k, j);
    }
  }

  /** Bounds that follow from two finite ones are finite. */
  lemma FiniteSums(m: Matrix, i: nat, p: nat, j: nat)
    requires Small(m, POS_BOUND) && Triangle(m, i, p, j)
    ensures Finite(m, i, p) && Finite(m, p, j) ==> Finite(m, i, j)
  {
    hide At;
    assert SmallAt(m, POS_BOUND, i, p) && SmallAt(m, POS_BOUND, p, j);
  }

  lemma {:induction false} ClosureRanged(m: Matrix, k: nat)
    requires Ranged(m)
    ensures Ranged(Closure(m, k))
  {
    hide Ranged, Phase;
    if k > 0 {
      ClosureRanged(m, k - 1);
      PhaseRanged(Closure(m, k - 1), k - 1);
    }
  }

  /** Unless a sum is clamped, no walk through the pivots so far is shorter than the stored bound. */
  lemma {:induction false} ClosureTriangles(m: Matrix, k: nat)
    requires Ranged(m) && k <= |m| && Pivots(m, k) && NoneClamped(m, k)
    ensures Ranged(Closure(m, k)) && Triangles(Closure(m, k), k)
  {
    hide At, Phase, Ranged, Unclamped;
    ClosureRanged(m, k);
    if k > 0 {
      assert Pivots(m, k - 1);
      ClosureTriangles(m, k - 1);
      var d := Closure(m, k - 1);
      assert Unclamped(d, k - 1);
      forall i: nat, p: nat, j: nat | p < k ensures Triangle(Closure(m, k), i, p, j) {
        if i < |m| && j < |m| {
          PhaseTriangle(d, k - 1, i, p, j);
        } else {
          RangedSquare(Closure(m, k));
          if i >= |m| { OutOfRange(Closure(m, k), i, p); } else { OutOfRange(Closure(m, k), p, j); }
        }
      }
    }
  }

  lemma RangedSquare(m: Matrix)
    requires Ranged(m)
    ensures Square(m)
  {
  }

  // ---------------------------------------------------------------- valuations of a closed matrix

  /** Closed, with bounds below the clamping range and none negative on the diagonal. */
  ghost predicate Canonical(m: Matrix) {
    && Ranged(m) && Triangles(m, |m|)
    && forall i: nat :: i < |m| ==> At(m, i, i) >= 0
  }

  /** Values for some of the variables, within the bounds between them. */
  ghost predicate Partial(m: Matrix, s: map<nat, int>) {
    (forall i: nat :: i in s ==> i < |m|) && forall i: nat, j: nat :: PartialAt(m, s, i, j)
  }

  predicate PartialAt(m: Matrix, s: map<nat, int>, i: nat, j: nat) {
    i in s && j in s && Finite(m, i, j) ==> s[i] - s[j] <= At(m, i, j)
  }

  /** The least upper limit that the values below index `n` set for `v`, if any sets one. */
  lemma {:induction false} LeastUpper(m: Matrix, s: map<nat, int>, v: nat, n: nat) returns (some: bool, x: int, at: nat)
    ensures some ==> at in s && Finite(m, v, at) && x == s[at] + At(m, v, at)
    ensures forall j: nat :: j < n && j in s && Finite(m, v, j) ==> some && x <= s[j] + At(m, v, j)
  {
    hide At;
    some, x, at := false, 0, 0;
    if n > 0 {
      some, x, at := LeastUpper(m, s, v, n - 1);
      var j: nat := n - 1;
      if j in s && Finite(m, v, j) && (!some || s[j] + At(m, v, j) < x) {
        some, x, at := true, s[j] + At(m, v, j), j;
      }
    }
  }

  lemma {:induction false} GreatestLower(m: Matrix, s: map<nat, int>, v: nat, n: nat) returns (some: bool, x: int, at: nat)
    ensures some ==> at in s && Finite(m, at, v) && x == s[at] - At(m, at, v)
    ensures forall i: nat :: i < n && i in s && Finite(m, i, v) ==> some && s[i] - At(m, i, v) <= x
  {
    hide At;
    some, x, at := false, 0, 0;
    if n > 0 {
      some, x, at := GreatestLower(m, s, v, n - 1);
      var i: nat := n - 1;
      if i in s && Finite(m, i, v) && (!some || x < s[i] - At(m, i, v)) {
        some, x, at := true, s[i] - At(m, i, v), i;
      }
    }
  }

  /** Lower limits never exceed upper ones: the two bounds meet in a triangle. */
  lemma LimitsMeet(m: Matrix, s: map<nat, int>, v: nat, i: nat, j: nat)
    requires Canonical(m) && Partial(m, s) && v < |m| && i in s && j in s && Finite(m, i, v) && Finite(m, v, j)
    ensures s[i] - At(m, i, v) <= s[j] + At(m, v, j)
  {
    hide At;
    assert Triangle(m, i, v, j) && SmallAt(m, POS_BOUND, i, v) && SmallAt(m, POS_BOUND, v, j) && PartialAt(m, s, i, j);
  }

  /** A further variable can always be given a value. */
  lemma Extend(m: Matrix, s: map<nat, int>, v: nat) returns (x: int)
    requires Canonical(m) && Partial(m, s) && v < |m| && v !in s
    ensures Partial(m, s[v := x])
  {
    hide At, Sane, Triangles, Small;
    var some, up, at := LeastUpper(m, s, v, |m|);
    var any, lo, at' := GreatestLower(m, s, v, |m|);
    x := if some then up else if any then lo else 0;
    var t := s[v := x];
    forall i: nat, j: nat ensures PartialAt(m, t, i, j) {
      assert PartialAt(m, s, i, j);
      if i in t && j in t && Finite(m, i, j) {
        if i == v && j == v {
          assert At(m, v, v) >= 0;
        } else if j == v && some {
          LimitsMeet(m, s, v, i, at);
        }
      }
    }
  }

  /** Any consistent choice for some variables extends to a valuation. */
  lemma {:induction false} Complete(m: Matrix, s: map<nat, int>, n: nat) returns (t: map<nat, int>)
    requires Canonical(m) && Partial(m, s) && n <= |m|
    ensures Partial(m, t) && (forall i: nat :: i < n ==> i in t) && forall i: nat :: i in s ==> i in t && t[i] == s[i]
  {
    hide Canonical, Partial;
    t := s;
    if n > 0 {
      t := Complete(m, s, n - 1);
      var v: nat := n - 1;
      if v !in t {
        var x := Extend(m, t, v);
        t := t[v := x];
      }
    }
  }

  function Valuation(t: map<nat, int>): nat -> int {
    (i: nat) => if i in t then t[i] else 0
  }

  lemma CompleteSatisfies(m: Matrix, t: map<nat, int>)
    requires Canonical(m) && Partial(m, t) && forall i: nat :: i < |m| ==> i in t
    ensures Satisfies(m, Valuation(t))
  {
    RangedSquare(m);
    hide At, Sane, Triangles, Small;
    forall i: nat, j: nat ensures Within(m, Valuation(t), i, j) {
      if i < |m| && j < |m| { assert PartialAt(m, t, i, j); } else { OutOfRange(m, i, j); }
    }
  }

  lemma HasValuation(m: Matrix) returns (x: nat -> int)
    requires Canonical(m)
    ensures Satisfies(m, x)
  {
    hide Canonical, Satisfies;
    var t := Complete(m, map[], |m|);
    CompleteSatisfies(m, t);
    x := Valuation(t);
  }

  /** A value of the difference that the bound still allows, above any given one that it does not rule out. */
  lemma Witness(m: Matrix, i: nat, j: nat, c: int) returns (x: nat -> int)
    requires Canonical(m) && i < |m| && j < |m| && i != j && (Finite(m, i, j) ==> c < At(m, i, j))
    ensures Satisfies(m, x) && x(i) - x(j) > c
  {
    var least := if Finite(m, j, i) then -At(m, j, i) else c + 1;
    var d := if Finite(m, i, j) then At(m, i, j) else if least > c then least else c + 1;
    var s: map<nat, int> := map[j := 0, i := d];
    assert Triangle(m, i, j, i);
    hide At;
    forall a: nat, b: nat ensures PartialAt(m, s, a, b) { assert At(m, i, i) >= 0 && At(m, j, j) >= 0; }
    hide Canonical, Satisfies;
    var t := Complete(m, s, |m|);
    CompleteSatisfies(m, t);
    x := Valuation(t);
  }

  ghost predicate Implies(m: Matrix, i: nat, j: nat, c: int) {
    forall x: nat -> int :: Satisfies(m, x) ==> x(i) - x(j) <= c
  }

  /** The bounds of a canonical matrix are the tightest: they say whatever can be said of a difference. */
  lemma BoundsAreTightest(m: Matrix, i: nat, j: nat, c: int)
    requires Canonical(m) && i < |m| && j < |m| && i != j
    ensures Implies(m, i, j, c) <==> Finite(m, i, j) && At(m, i, j) <= c
  {
    hide At, Canonical;
    if Finite(m, i, j) && At(m, i, j) <= c {
      forall x: nat -> int | Satisfies(m, x) ensures x(i) - x(j) <= c { assert Within(m, x, i, j); }
    } else {
      var x := Witness(m, i, j, c);
      assert Satisfies(m, x) && !(x(i) - x(j) <= c);
    }
  }

  // ---------------------------------------------------------------- what closing decides

  /** The diagonal test and the bounds of `m'` answer for the valuations of `m`. */
  ghost predicate Decided(m: Matrix, m': Matrix) {
    && (Negative(m') <==> forall x: nat -> int :: !Satisfies(m, x))
    && (!Negative(m') ==>
          forall i: nat, j: nat, c: int :: i < |m| && j < |m| && i != j ==>
            (Implies(m, i, j, c) <==> Finite(m', i, j) && At(m', i, j) <= c))
  }

  lemma ClosedIsCanonical(m: Matrix, m': Matrix)
    requires Ranged(m) && (Pivots(m, |m|) ==> NoneClamped(m, |m|)) && ClosedFrom(m, m') && !Negative(m')
    ensures Canonical(m')
  {
    hide At, SameMeaning, Tighter, Phase, NoneClamped;
    ClosureTriangles(m, |m|);
  }

  /**
   Whenever no phase clamps a sum: after closing, the diagonal test answers exactly whether there is
   no valuation, and if there is one, the matrix holds the tightest bounds that the given ones imply.
   */
  lemma CloseDecides(m: Matrix, m': Matrix)
    requires Ranged(m) && (Pivots(m, |m|) ==> NoneClamped(m, |m|)) && ClosedFrom(m, m')
    ensures Decided(m, m')
  {
    hide At, Satisfies, Tighter, Phase, Closure, Pivots, NoneClamped, Ranged;
    if Negative(m') {
      var i: nat :| i < |m'| && At(m', i, i) < 0;
      forall x: nat -> int ensures !Satisfies(m, x) {
        NegativeIsEmpty(m', i, x);
        assert Satisfies(m, x) <==> Satisfies(m', x);
      }
    } else {
      ClosedIsCanonical(m, m');
      var x := HasValuation(m');
      assert Satisfies(m, x) <==> Satisfies(m', x);
      forall i: nat, j: nat, c: int | i < |m| && j < |m| && i != j
        ensures Implies(m, i, j, c) <==> Finite(m', i, j) && At(m', i, j) <= c
      {
        BoundsAreTightest(m', i, j, c);
        SameImplications(m, m', i, j, c);
      }
    }
  }

  lemma SameImplications(m: Matrix, m': Matrix, i: nat, j: nat, c: int)
    requires SameMeaning(m, m')
    ensures Implies(m, i, j, c) <==> Implies(m', i, j, c)
  {
    hide Satisfies;
    if Implies(m, i, j, c) {
      forall x: nat -> int | Satisfies(m', x) ensures x(i) - x(j) <= c { assert Satisfies(m, x); }
    }
    if Implies(m', i, j, c) {
      forall x: nat -> int | Satisfies(m, x) ensures x(i) - x(j) <= c { assert Satisfies(m', x); }
    }
  }

  // ---------------------------------------------------------------- why the size of the bounds matters

  /** A cycle of total weight -1 whose halves are clamped, one at either end of the range. */
  const CYCLE: Matrix := [[0, INF, INF, NEG_BOUND], [INF, 0, POS_BOUND - 1, INF], [NEG_BOUND, INF, 0, INF], [INF, POS_BOUND, INF, 0]]
  const AFTER_0: Matrix := [[0, INF, INF, NEG_BOUND], [INF, 0, POS_BOUND - 1, INF], [NEG_BOUND, INF, 0, NEG_BOUND], [INF, POS_BOUND, INF, 0]]
  const AFTER_2: Matrix := [[0, INF, INF, NEG_BOUND], [-1, 0, POS_BOUND - 1, -1], [NEG_BOUND, INF, 0, NEG_BOUND], [INF, POS_BOUND, INF, 0]]
  const AFTER_3: Matrix := [[0, 0, INF, NEG_BOUND], [-1, 0, POS_BOUND - 1, -1], [NEG_BOUND, 0, 0, NEG_BOUND], [INF, POS_BOUND, INF, 0]]

  lemma PhaseIs(m: Matrix, k: nat, r: Matrix)
    requires |r| == |m| == 4 && Square(m) && Square(r) && k < 4
    requires forall i: nat, j: nat :: i < 4 && j < 4 ==> r[i][j] == Via(m, k, i, j)
    ensures Phase(m, k) == r
  {
    var p := Phase(m, k);
    hide Via;
    forall i | 0 <= i < 4 ensures p[i] == r[i] { assert forall j :: 0 <= j < 4 ==> p[i][j] == r[i][j]; }
  }

  lemma FirstPhases()
    ensures Phase(CYCLE, 0) == AFTER_0 && Phase(AFTER_0, 1) == AFTER_0
  {
    PhaseIs(CYCLE, 0, AFTER_0);
    PhaseIs(AFTER_0, 1, AFTER_0);
  }

  lemma ThirdPhase()
    ensures Phase(AFTER_0, 2) == AFTER_2
  {
    PhaseIs(AFTER_0, 2, AFTER_2);
  }

  lemma LastPhase()
    ensures Phase(AFTER_2, 3) == AFTER_3
  {
    PhaseIs(AFTER_2, 3, AFTER_3);
  }

  lemma CycleCloses()
    ensures Closure(CYCLE, 4) == AFTER_3 && Pivots(CYCLE, 4)
  {
    hide Phase;
    FirstPhases();
    ThirdPhase();
    LastPhase();
    var c0, c1, c2, c3 := Closure(CYCLE, 0), Closure(CYCLE, 1), Closure(CYCLE, 2), Closure(CYCLE, 3);
    assert c0 == CYCLE && c1 == AFTER_0 && c2 == AFTER_0 && c3 == AFTER_2;
    assert At(c0, 0, 0) == 0 && At(c1, 1, 1) == 0 && At(c2, 2, 2) == 0 && At(c3, 3, 3) == 0;
    forall p: nat | p < 4 ensures At(Closure(CYCLE, p), p, p) >= 0 {
      assert p == 0 || p == 1 || p == 2 || p == 3;
    }
  }

  lemma CycleIsEmpty(x: nat -> int)
    ensures !Satisfies(CYCLE, x)
  {
    assert !Within(CYCLE, x, 0, 3) || !Within(CYCLE, x, 3, 1) || !Within(CYCLE, x, 1, 2) || !Within(CYCLE, x, 2, 0);
  }

  /** Without the size condition the test can miss: no valuation, and nothing negative after closing. */
  lemma ClampingHidesEmptiness(m': Matrix)
    requires ClosedFrom(CYCLE, m')
    ensures !Negative(m') && forall x: nat -> int :: !Satisfies(CYCLE, x)
  {
    hide Closure, Pivots, SameMeaning, Tighter, Satisfies;
    CycleCloses();
    forall x: nat -> int ensures !Satisfies(CYCLE, x) { CycleIsEmpty(x); }
  }
}
