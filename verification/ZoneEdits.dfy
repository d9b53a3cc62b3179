/** Adding a bound to the matrix and forgetting a variable, and what either does to the valuations. */
module ZoneEdits {
  import opened Zone

  // ---------------------------------------------------------------- adding a bound

  function Added(m: Matrix, i: nat, j: nat, c: int): Matrix
    requires i < |m| && j < |m[i]|
  {
    var c' := ClampUpper(c);
    if c' == INF || c' >= At(m, i, j) then m else Set(m, i, j, c')
  }

  method AddConstraint(a: array2<int>, i: nat, j: nat, c: int)
    requires a.Length0 == a.Length1 && i < a.Length0 && j < a.Length1
    modifies a
    ensures Snapshot(a) == Added(old(Snapshot(a)), i, j, c)
  {
    var c' := ClampUpper(c);
    var was := a[i, j];
    if c' == INF { return; }
    if c' < was { Store(a, i, j, c'); }
  }

  /** What a bound still says once it is clamped. */
  predicate Says(x: nat -> int, i: nat, j: nat, c: int) {
    c <= POS_BOUND ==> x(i) - x(j) <= (if c < NEG_BOUND then NEG_BOUND else c)
  }

  /** The valuations are those of before that also keep the clamped bound, and the entries stay in range. */
  lemma AddedMeans(m: Matrix, i: nat, j: nat, c: int)
    requires Ranged(m) && i < |m| && j < |m|
    ensures Ranged(Added(m, i, j, c))
    ensures forall x: nat -> int :: Satisfies(Added(m, i, j, c), x) <==> Satisfies(m, x) && Says(x, i, j, c)
  {
    RangedSquare(m);
    var m' := Added(m, i, j, c);
    AddedRanged(m, i, j, c);
    forall x: nat -> int ensures Satisfies(m', x) <==> Satisfies(m, x) && Says(x, i, j, c) { AddedAt(m, i, j, c, x); }
  }

  lemma AddedRanged(m: Matrix, i: nat, j: nat, c: int)
    requires Ranged(m) && Square(m) && i < |m| && j < |m|
    ensures Ranged(Added(m, i, j, c))
  {
    var m', c' := Added(m, i, j, c), ClampUpper(c);
    if m' != m {
      assert c' <= POS_BOUND && c' >= NEG_BOUND;
      forall a: nat, b: nat ensures SmallAt(m', POS_BOUND, a, b) {
        SetAt(m, i, j, c', a, b);
        assert SmallAt(m, POS_BOUND, a, b);
      }
    }
  }

  lemma AddedAt(m: Matrix, i: nat, j: nat, c: int, x: nat -> int)
    requires Ranged(m) && Square(m) && i < |m| && j < |m|
    ensures Satisfies(Added(m, i, j, c), x) <==> Satisfies(m, x) && Says(x, i, j, c)
  {
    var m', c' := Added(m, i, j, c), ClampUpper(c);
    assert c <= POS_BOUND ==> c' == if c < NEG_BOUND then NEG_BOUND else c;
    assert SmallAt(m, POS_BOUND, i, j);
    forall a: nat, b: nat ensures At(m', a, b) == if m' != m && a == i && b == j then c' else At(m, a, b) {
      if m' != m { SetAt(m, i, j, c', a, b); }
    }
    hide At, Added, Set, ClampUpper;
    if Satisfies(m', x) {
      assert Within(m', x, i, j);
      forall a: nat, b: nat ensures Within(m, x, a, b) { assert Within(m', x, a, b); }
    }
    if Satisfies(m, x) && Says(x, i, j, c) {
      assert Within(m, x, i, j);
      forall a: nat, b: nat ensures Within(m', x, a, b) { assert Within(m, x, a, b); }
    }
  }

  // ---------------------------------------------------------------- forgetting a variable

  function Free(i: nat, j: nat): int {
    if i == j then 0 else INF
  }

  /** Every bound on `v` is dropped. */
  function Forgotten(m: Matrix, v: nat): (r: Matrix)
    ensures |r| == |m| && Square(r)
    ensures forall i: nat, j: nat :: i < |m| && j < |m| ==>
              r[i][j] == if i == v || j == v then Free(i, j) else At(m, i, j)
  {
    seq(|m|, i requires 0 <= i < |m| =>
      seq(|m|, j requires 0 <= j < |m| => if i == v || j == v then Free(i, j) else At(m, i, j)))
  }

  lemma ForgottenAt(m: Matrix, v: nat, i: nat, j: nat)
    requires Square(m) && v < |m|
    ensures At(Forgotten(m, v), i, j) == if i < |m| && j < |m| && (i == v || j == v) then Free(i, j) else At(m, i, j)
  {
  }

  method ForgetVar(a: array2<int>, v: nat)
    requires a.Length0 == a.Length1 && v < a.Length0
    modifies a
    ensures Snapshot(a) == Forgotten(old(Snapshot(a)), v)
  {
    ghost var was := Snapshot(a);
    var n := a.Length0;
    for j := 0 to n
      invariant forall p: nat, q: nat :: p < n && q < n ==> a[p, q] == if p == v && q < j then Free(p, q) else was[p][q]
    {
      if v == j { a[v, j] := 0; } else { a[v, j] := INF; }
    }
    for k := 0 to n
      invariant forall p: nat, q: nat :: p < n && q < n ==>
                  a[p, q] == if p == v || (q == v && p < k) then Free(p, q) else was[p][q]
    {
      if k == v { a[k, v] := 0; } else { a[k, v] := INF; }
    }
    ghost var m := Snapshot(a);
    forall p: nat, q: nat | p < n && q < n ensures m[p][q] == Forgotten(was, v)[p][q] {
      assert m[p][q] == a[p, q];
    }
    SameCells(m, Forgotten(was, v));
  }

  lemma SameCells(m: Matrix, m': Matrix)
    requires Square(m) && Square(m') && |m| == |m'|
    requires forall p: nat, q: nat :: p < |m| && q < |m| ==> m[p][q] == m'[p][q]
    ensures m == m'
  {
    forall p: nat | p < |m| ensures m[p] == m'[p] { SameRow(m[p], m'[p]); }
  }

  lemma SameRow(r: seq<int>, r': seq<int>)
    requires |r| == |r'| && forall q: nat :: q < |r| ==> r[q] == r'[q]
    ensures r == r'
  {
  }

  function Moved(x: nat -> int, v: nat, y: int): nat -> int {
    (i: nat) => if i == v then y else x(i)
  }

  /** The values of all variables but `v`. */
  function Others(x: nat -> int, v: nat, n: nat): (s: map<nat, int>)
    ensures forall i: nat :: (i in s <==> i < n && i != v) && (i in s ==> s[i] == x(i))
  {
    map i: nat | i < n && i != v :: x(i)
  }

  lemma OthersPartial(m: Matrix, v: nat, x: nat -> int)
    requires Square(m) && v < |m| && Satisfies(Forgotten(m, v), x)
    ensures Partial(m, Others(x, v, |m|))
  {
    hide At, Others;
    var s := Others(x, v, |m|);
    forall i: nat, j: nat ensures PartialAt(m, s, i, j) {
      ForgottenAt(m, v, i, j);
      assert Within(Forgotten(m, v), x, i, j);
    }
  }

  /** The valuations of a closed matrix without a variable are those to which the variable can be added. */
  lemma ForgetIsProjection(m: Matrix, v: nat, x: nat -> int)
    requires Canonical(m) && v < |m|
    ensures Satisfies(Forgotten(m, v), x) <==> exists y: int :: Satisfies(m, Moved(x, v, y))
  {
    hide At, Canonical, Forgotten, Others;
    CanonicalSquare(m);
    if Satisfies(Forgotten(m, v), x) {
      OthersPartial(m, v, x);
      var y := Extend(m, Others(x, v, |m|), v);
      var t := Others(x, v, |m|)[v := y];
      CompleteSatisfies(m, t);
      SameInside(m, Valuation(t), Moved(x, v, y));
      assert Satisfies(m, Moved(x, v, y));
    }
    if y: int :| Satisfies(m, Moved(x, v, y)) {
      forall i: nat, j: nat ensures Within(Forgotten(m, v), x, i, j) {
        ForgottenAt(m, v, i, j);
        assert Within(m, Moved(x, v, y), i, j);
        if i >= |m| || j >= |m| { OutOfRange(m, i, j); }
      }
    }
  }

  lemma CanonicalSquare(m: Matrix)
    requires Canonical(m)
    ensures Square(m)
  {
  }

  /** Only the variables of the matrix matter. */
  lemma SameInside(m: Matrix, x: nat -> int, x': nat -> int)
    requires Square(m) && Satisfies(m, x) && forall i: nat :: i < |m| ==> x(i) == x'(i)
    ensures Satisfies(m, x')
  {
    hide At;
    forall i: nat, j: nat ensures Within(m, x', i, j) {
      assert Within(m, x, i, j);
      if i >= |m| || j >= |m| { OutOfRange(m, i, j); }
    }
  }

  /** Forgetting in a closed matrix leaves it closed. */
  lemma ForgetKeepsCanonical(m: Matrix, v: nat)
    requires Canonical(m) && v < |m|
    ensures Canonical(Forgotten(m, v))
  {
    CanonicalSquare(m);
    var f := Forgotten(m, v);
    forall i: nat, j: nat ensures SmallAt(f, POS_BOUND, i, j) { ForgottenAt(m, v, i, j); assert SmallAt(m, POS_BOUND, i, j); }
    forall i: nat, j: nat | i < |f| && j < |f| ensures f[i][j] <= INF { SaneAt(m, i, j); }
    hide Forgotten, Sane;
    forall i: nat, p: nat, j: nat | p < |f| ensures Triangle(f, i, p, j) {
      ForgottenAt(m, v, i, p);
      ForgottenAt(m, v, p, j);
      ForgottenAt(m, v, i, j);
      assert Triangle(m, i, p, j);
      if i >= |m| || j >= |m| { OutOfRange(m, i, j); }
    }
    forall i: nat | i < |f| ensures At(f, i, i) >= 0 { ForgottenAt(m, v, i, i); assert At(m, i, i) >= 0; }
  }
}
