/**
 The meaning of a slot-addressed expression table, and the canonical byte stream of an
 expression as a pure function of its unfolded tree.

 Functions work on forests (sequences of trees); the encoder visits the arguments of an
 expression left to right, so a forest is what one call of its argument loop handles.
 */
module CanonicalTree {
  import opened Words

  const TAG_VAR: u8 := 0x01
  const TAG_LEAF_CONST: u8 := 0x02
  const TAG_INTERNAL: u8 := 0x03

  /** The only code whose arguments are raw words and not references: BCF_BV | BCF_VAL. */
  const BV_VAL: u8 := 0x08

  /** (code & 0xf8) == 0x18 */
  predicate IsVar(code: u8) {
    code / 8 == 3
  }

  datatype Expr = Expr(code: u8, params: u16, args: seq<u32>)

  predicate IsLeaf(e: Expr) {
    e.args == [] || e.code == BV_VAL
  }

  // ---------------------------------------------------------------- slots

  /** Expression `i` starts after the slots of its predecessors, each taking 1 + vlen. */
  function SlotOf(exprs: seq<Expr>, i: nat): nat
    requires i <= |exprs|
  {
    if i == 0 then 0 else SlotOf(exprs, i - 1) + 1 + |exprs[i - 1].args|
  }

  lemma {:induction false} SlotsIncrease(exprs: seq<Expr>, i: nat, j: nat)
    requires i < j <= |exprs|
    ensures SlotOf(exprs, i) < SlotOf(exprs, j)
  {
    if i + 1 < j { SlotsIncrease(exprs, i, j - 1); }
  }

  /** vlen is one byte, and every head slot is a 32-bit id other than the empty marker. */
  predicate ValidTable(exprs: seq<Expr>) {
    && (forall i :: 0 <= i < |exprs| ==> |exprs[i].args| <= 255)
    && (forall i :: 0 <= i < |exprs| ==> SlotOf(exprs, i) < U32_MAX)
  }

  /** Array index of the expression whose head is `slot`, among the first `n`. */
  function HeadBelow(exprs: seq<Expr>, slot: nat, n: nat): (r: Option<nat>)
    requires n <= |exprs|
    ensures r.Some? ==> r.value < n && SlotOf(exprs, r.value) == slot
    ensures r.None? ==> forall i :: 0 <= i < n ==> SlotOf(exprs, i) != slot
  {
    if n == 0 then None
    else if SlotOf(exprs, n - 1) == slot then Some(n - 1)
    else HeadBelow(exprs, slot, n - 1)
  }

  function HeadAt(exprs: seq<Expr>, slot: nat): (r: Option<nat>)
    ensures r.Some? ==> r.value < |exprs| && SlotOf(exprs, r.value) == slot
    ensures r.None? ==> forall i :: 0 <= i < |exprs| ==> SlotOf(exprs, i) != slot
  {
    HeadBelow(exprs, slot, |exprs|)
  }

  lemma HeadIsUnique(exprs: seq<Expr>, i: nat)
    requires i < |exprs|
    ensures HeadAt(exprs, SlotOf(exprs, i)) == Some(i)
  {
    var j := HeadAt(exprs, SlotOf(exprs, i)).value;
    if i < j { SlotsIncrease(exprs, i, j); }
    if j < i { SlotsIncrease(exprs, j, i); }
  }

  // ---------------------------------------------------------------- unfolding

  datatype Tree =
    | Var(code: u8, params: u16, slot: u32)
    | Const(code: u8, params: u16, args: seq<u32>)
    | Node(code: u8, params: u16, kids: seq<Tree>)

  /** `Dangling`: the walk met an id that is no head slot. `Deep`: it needs more depth. */
  datatype Unfolding = Forest(trees: seq<Tree>) | Dangling | Deep

  /**
   The trees denoted by `ids`, walked depth first and left to right to at most `depth`
   levels, stopping at the first id that cannot be resolved. `Deep` at every depth is
   exactly a walk that never ends.
   */
  function Unfold(exprs: seq<Expr>, ids: seq<u32>, depth: nat): (r: Unfolding)
    ensures r.Forest? ==> |r.trees| == |ids|
    decreases depth, |ids|
  {
    if ids == [] then Forest([])
    else if depth == 0 then Deep
    else
      match HeadAt(exprs, ids[0])
      case None => Dangling
      case Some(i) =>
        var e := exprs[i];
        var below := if IsLeaf(e) then Forest([]) else Unfold(exprs, e.args, depth - 1);
        if !below.Forest? then below
        else
          var rest := Unfold(exprs, ids[1..], depth);
          if !rest.Forest? then rest
          else Forest([Root(e, ids[0], below.trees)] + rest.trees)
  }

  function Root(e: Expr, id: u32, kids: seq<Tree>): Tree {
    if !IsLeaf(e) then Node(e.code, e.params, kids)
    else if IsVar(e.code) then Var(e.code, e.params, id)
    else Const(e.code, e.params, e.args)
  }

  /** The verdict of the walk does not depend on how much spare depth it was given. */
  lemma {:induction false} UnfoldIsStable(exprs: seq<Expr>, ids: seq<u32>, d: nat, d': nat)
    requires d <= d' && Unfold(exprs, ids, d) != Deep
    ensures Unfold(exprs, ids, d') == Unfold(exprs, ids, d)
    decreases d, |ids|
  {
    if ids != [] && HeadAt(exprs, ids[0]).Some? {
      var e := exprs[HeadAt(exprs, ids[0]).value];
      if !IsLeaf(e) { UnfoldIsStable(exprs, e.args, d - 1, d' - 1); }
      if IsLeaf(e) || Unfold(exprs, e.args, d - 1).Forest? {
        UnfoldIsStable(exprs, ids[1..], d, d');
      }
    }
  }

  /** Every reference that resolves goes to an expression of smaller rank: the table has no cycle. */
  predicate Ranked(exprs: seq<Expr>, rank: seq<nat>) {
    && |rank| == |exprs|
    && forall i :: 0 <= i < |exprs| && !IsLeaf(exprs[i]) ==> Below(exprs, rank, exprs[i].args, rank[i])
  }

  predicate Below(exprs: seq<Expr>, rank: seq<nat>, ids: seq<u32>, n: nat)
    requires |rank| == |exprs|
  {
    forall id :: id in ids && HeadAt(exprs, id).Some? ==> rank[HeadAt(exprs, id).value] < n
  }

  /** Without cycles every walk ends, so `Deep` is not seen at a sufficient depth. */
  lemma {:induction false} AcyclicWalksEnd(exprs: seq<Expr>, rank: seq<nat>, ids: seq<u32>, n: nat)
    requires Ranked(exprs, rank) && Below(exprs, rank, ids, n)
    ensures Unfold(exprs, ids, n + 1) != Deep
    decreases n, |ids|
  {
    if ids != [] && HeadAt(exprs, ids[0]).Some? {
      var i := HeadAt(exprs, ids[0]).value;
      assert ids[0] in ids;
      if !IsLeaf(exprs[i]) {
        AcyclicWalksEnd(exprs, rank, exprs[i].args, n - 1);
      }
      AcyclicWalksEnd(exprs, rank, ids[1..], n);
    }
  }

  /** Every argument of an internal expression lies below the head slot of that expression. */
  predicate BottomUp(exprs: seq<Expr>) {
    forall i, k :: 0 <= i < |exprs| && !IsLeaf(exprs[i]) && 0 <= k < |exprs[i].args| ==> exprs[i].args[k] < SlotOf(exprs, i)
  }

  /** The order a caller can check: in a table written bottom up, the indices are a rank and every walk ends. */
  lemma BottomUpWalksEnd(exprs: seq<Expr>, ids: seq<u32>)
    requires BottomUp(exprs)
    ensures Unfold(exprs, ids, |exprs| + 1) != Deep
  {
    hide Unfold, HeadAt;
    var rank: seq<nat> := seq(|exprs|, i => i);
    forall i | 0 <= i < |exprs| && !IsLeaf(exprs[i]) ensures Below(exprs, rank, exprs[i].args, rank[i]) {
      forall id | id in exprs[i].args && HeadAt(exprs, id).Some? ensures HeadAt(exprs, id).value < i {
        var k :| 0 <= k < |exprs[i].args| && exprs[i].args[k] == id;
        var j := HeadAt(exprs, id).value;
        if i < j { SlotsIncrease(exprs, i, j); }
      }
    }
    AcyclicWalksEnd(exprs, rank, ids, |exprs|);
  }

  /** What unfolding a table can yield: argument counts fit one byte, internal nodes have arguments. */
  predicate WellFormed(ts: seq<Tree>) {
    ts == []
    || (&& WellFormed(ts[1..])
        && match ts[0]
           case Var(_, _, _) => true
           case Const(_, _, args) => |args| <= 255
           case Node(_, _, kids) => 1 <= |kids| <= 255 && WellFormed(kids))
  }

  lemma {:induction false} UnfoldedIsWellFormed(exprs: seq<Expr>, ids: seq<u32>, depth: nat)
    requires ValidTable(exprs) && Unfold(exprs, ids, depth).Forest?
    ensures WellFormed(Unfold(exprs, ids, depth).trees)
    decreases depth, |ids|
  {
    if ids != [] {
      var e := exprs[HeadAt(exprs, ids[0]).value];
      if !IsLeaf(e) { UnfoldedIsWellFormed(exprs, e.args, depth - 1); }
      UnfoldedIsWellFormed(exprs, ids[1..], depth);
    }
  }

  // ---------------------------------------------------------------- first-occurrence names

  function IndexOf(s: seq<u32>, x: u32): (i: nat)
    requires x in s
    ensures i < |s| && s[i] == x
  {
    if s[0] == x then 0 else 1 + IndexOf(s[1..], x)
  }

  /** A name not yet in `order` gets a number that is itself a 32-bit word. */
  lemma FreshNumberFits(order: seq<u32>, slot: u32)
    requires Distinct(order) && slot !in order
    ensures |order| <= U32_MAX
  {
    DistinctBelow(order + [slot], 0x1_0000_0000);
  }

  /** The numbers already given out, after meeting `slot`. */
  function Met(order: seq<u32>, slot: u32): (r: seq<u32>)
    requires Distinct(order)
    ensures Distinct(r) && order <= r && slot in r
  {
    if slot in order then order else order + [slot]
  }

  function Number(order: seq<u32>, slot: u32): (n: u32)
    requires Distinct(order)
    ensures n < |Met(order, slot)| && Met(order, slot)[n] == slot
  {
    if slot in order then
      DistinctBelow(order, 0x1_0000_0000);
      IndexOf(order, slot)
    else
      FreshNumberFits(order, slot);
      |order|
  }

  datatype Named = Named(trees: seq<Tree>, order: seq<u32>)

  /** Replace each variable slot by its first-occurrence number, continuing from `order`. */
  function Canon(ts: seq<Tree>, order: seq<u32>): (r: Named)
    requires Distinct(order)
    ensures |r.trees| == |ts| && Distinct(r.order) && order <= r.order
    decreases ts
  {
    if ts == [] then Named([], order)
    else
      var (t, o) :=
        match ts[0]
        case Var(c, p, s) => (Var(c, p, Number(order, s)), Met(order, s))
        case Const(c, p, args) => (ts[0], order)
        case Node(c, p, kids) => var k := Canon(kids, order); (Node(c, p, k.trees), k.order);
      var rest := Canon(ts[1..], o);
      Named([t] + rest.trees, rest.order)
  }

  /** The names met once `t` has been numbered. */
  function After(t: Tree, order: seq<u32>): (r: seq<u32>)
    requires Distinct(order)
    ensures Distinct(r) && order <= r && r == Canon([t], order).order
  {
    match t
    case Var(c, p, s) => Met(order, s)
    case Const(c, p, args) => order
    case Node(c, p, kids) => Canon(kids, order).order
  }

  function Numbered(t: Tree, order: seq<u32>): Tree
    requires Distinct(order)
  {
    match t
    case Var(c, p, s) => Var(c, p, Number(order, s))
    case Const(c, p, args) => t
    case Node(c, p, kids) => Node(c, p, Canon(kids, order).trees)
  }

  lemma CanonStep(ts: seq<Tree>, order: seq<u32>)
    requires Distinct(order) && ts != []
    ensures var rest := Canon(ts[1..], After(ts[0], order));
            Canon(ts, order) == Named([Numbered(ts[0], order)] + rest.trees, rest.order)
  {
  }

  lemma CanonNone(order: seq<u32>)
    requires Distinct(order)
    ensures Canon([], order) == Named([], order)
  {
  }

  lemma CanonTail(ts: seq<Tree>, order: seq<u32>)
    requires Distinct(order) && ts != []
    ensures Canon(ts, order).trees == Canon([ts[0]], order).trees + Canon(ts[1..], After(ts[0], order)).trees
    ensures Canon(ts, order).trees[1..] == Canon(ts[1..], After(ts[0], order)).trees
    ensures Canon(ts, order).order == Canon(ts[1..], After(ts[0], order)).order
  {
    hide Canon, Numbered, Distinct, After;
    CanonStep(ts, order);
    CanonOne(ts[0], order);
    Prepended(Numbered(ts[0], order), Canon(ts[1..], After(ts[0], order)).trees);
  }

  lemma CanonOne(t: Tree, order: seq<u32>)
    requires Distinct(order)
    ensures Canon([t], order).trees == [Numbered(t, order)]
  {
    hide Canon, Numbered, Distinct, After;
    var one := [t];
    assert one[1..] == [];
    CanonStep(one, order);
    CanonNone(After(t, order));
    Prepended(Numbered(t, order), []);
  }

  lemma Prepended(t: Tree, ts: seq<Tree>)
    ensures ([t] + ts)[1..] == ts && [t] + [] == [t]
  {
  }

  // ---------------------------------------------------------------- byte stream

  function ConstArgs(args: seq<u32>): (bs: seq<u8>)
    ensures |bs| == 4 * |args|
  {
    if args == [] then [] else LE32(args[0]) + ConstArgs(args[1..])
  }

  function Record(tag: u8, code: u8, vlen: u8, params: u16): (bs: seq<u8>)
    ensures |bs| == 5
  {
    [tag, code, vlen] + LE16(params)
  }

  /** Post order: the records of the children, then the record of their parent. */
  function Bytes(t: Tree): (bs: seq<u8>)
    requires WellFormed([t])
    decreases t
  {
    match t
    case Var(c, p, n) => Record(TAG_VAR, c, 0, p) + LE32(n)
    case Const(c, p, args) => Record(TAG_LEAF_CONST, c, |args|, p) + ConstArgs(args)
    case Node(c, p, kids) => Serialize(kids) + Record(TAG_INTERNAL, c, |kids|, p)
  }

  function Serialize(ts: seq<Tree>): (bs: seq<u8>)
    requires WellFormed(ts)
    decreases ts
  {
    if ts == [] then [] else Bytes(ts[0]) + Serialize(ts[1..])
  }

  lemma {:induction false} CanonIsWellFormed(ts: seq<Tree>, order: seq<u32>)
    requires Distinct(order) && WellFormed(ts)
    ensures WellFormed(Canon(ts, order).trees)
    decreases ts
  {
    if ts != [] {
      CanonTail(ts, order);
      if ts[0].Node? { CanonIsWellFormed(ts[0].kids, order); }
      CanonIsWellFormed(ts[1..], After(ts[0], order));
    }
  }

  /** The canonical stream of one tree. */
  function Stream(t: Tree): (bs: seq<u8>)
    requires WellFormed([t])
  {
    CanonIsWellFormed([t], []);
    Serialize(Canon([t], []).trees)
  }

  // ---------------------------------------------------------------- renaming

  function Renamed(f: map<u32, u32>, ts: seq<Tree>): (r: seq<Tree>)
    requires Slots(ts) <= f.Keys
    ensures |r| == |ts|
    decreases ts
  {
    if ts == [] then []
    else
      [match ts[0]
       case Var(c, p, s) => Var(c, p, f[s])
       case Const(c, p, args) => ts[0]
       case Node(c, p, kids) => Node(c, p, Renamed(f, kids))]
      + Renamed(f, ts[1..])
  }

  /** Variable slots occurring in a forest. */
  function Slots(ts: seq<Tree>): set<u32>
    decreases ts
  {
    if ts == [] then {}
    else
      (match ts[0]
       case Var(_, _, s) => {s}
       case Const(_, _, _) => {}
       case Node(_, _, kids) => Slots(kids))
      + Slots(ts[1..])
  }

  predicate Injective(f: map<u32, u32>) {
    forall x, y :: x in f && y in f && f[x] == f[y] ==> x == y
  }

  /** The same expression up to a one-to-one renaming of its variables. */
  ghost predicate AlphaEquivalent(t: Tree, u: Tree) {
    exists f: map<u32, u32> :: Injective(f) && Slots([t]) <= f.Keys && Renamed(f, [t]) == [u]
  }

  function Image(f: map<u32, u32>, order: seq<u32>): (r: seq<u32>)
    requires forall x :: x in order ==> x in f
    ensures |r| == |order| && forall i :: 0 <= i < |r| ==> r[i] == f[order[i]]
  {
    seq(|order|, i requires 0 <= i < |order| => f[order[i]])
  }

  lemma MetRenamed(f: map<u32, u32>, order: seq<u32>, s: u32)
    requires Injective(f) && Distinct(order) && s in f && (forall x :: x in order ==> x in f)
    ensures Distinct(Image(f, order))
    ensures forall x :: x in Met(order, s) ==> x in f
    ensures Met(Image(f, order), f[s]) == Image(f, Met(order, s))
    ensures Number(Image(f, order), f[s]) == Number(order, s)
  {
    var fo := Image(f, order);
    if s in order { assert fo[IndexOf(order, s)] == f[s]; }
    if f[s] in fo { assert order[IndexOf(fo, f[s])] == s; }
    var m := Met(order, s);
    assert Image(f, m)[Number(order, s)] == f[s];
    assert Met(fo, f[s])[Number(fo, f[s])] == f[s];
  }

  /** Renaming one-to-one before numbering changes nothing but the list of names met. */
  lemma {:induction false} CanonOfRenamed(f: map<u32, u32>, ts: seq<Tree>, order: seq<u32>)
    requires Injective(f) && Distinct(order) && Slots(ts) <= f.Keys
    requires forall x :: x in order ==> x in f
    ensures Distinct(Image(f, order))
    ensures forall x :: x in Canon(ts, order).order ==> x in f
    ensures Canon(Renamed(f, ts), Image(f, order)).trees == Canon(ts, order).trees
    ensures Canon(Renamed(f, ts), Image(f, order)).order == Image(f, Canon(ts, order).order)
    decreases ts
  {
    assert Distinct(Image(f, order));
    if ts != [] {
      var us := Renamed(f, ts);
      assert us[1..] == Renamed(f, ts[1..]);
      match ts[0] {
        case Var(c, p, s) =>
          MetRenamed(f, order, s);
          CanonOfRenamed(f, ts[1..], Met(order, s));
        case Const(c, p, args) =>
          CanonOfRenamed(f, ts[1..], order);
        case Node(c, p, kids) =>
          CanonOfRenamed(f, kids, order);
          CanonOfRenamed(f, ts[1..], Canon(kids, order).order);
      }
    }
  }

  /** Send the i-th name of one list to the i-th name of the other. */
  function Pairing(a: seq<u32>, b: seq<u32>): (f: map<u32, u32>)
    requires |a| == |b| && Distinct(a)
    ensures forall i :: 0 <= i < |a| ==> a[i] in f && f[a[i]] == b[i]
    ensures forall x :: x in f ==> x in a
  {
    map x | x in a :: b[IndexOf(a, x)]
  }

  /** Equal numbered forests come from forests that the pairing of their names relates. */
  lemma {:induction false} EqualCanonRelates(
      ts: seq<Tree>, us: seq<Tree>, o: seq<u32>, p: seq<u32>, a: seq<u32>, b: seq<u32>)
    requires Distinct(o) && Distinct(p) && |o| == |p|
    requires Canon(ts, o).trees == Canon(us, p).trees
    requires Distinct(a) && |a| == |b|
    requires Canon(ts, o).order <= a && Canon(us, p).order <= b
    ensures Slots(ts) <= Pairing(a, b).Keys && Renamed(Pairing(a, b), ts) == us
    decreases ts
  {
    if ts != [] {
      var o', p' := After(ts[0], o), After(us[0], p);
      CanonTail(ts, o);
      CanonTail(us, p);
      assert o' <= a && p' <= b;
      EqualLengths([ts[0]], [us[0]], o, p);
      EqualCanonRelates(ts[1..], us[1..], o', p', a, b);
      assert Canon(ts, o).trees[0] == Canon(us, p).trees[0];
      if ts[0].Node? {
        EqualCanonRelates(ts[0].kids, us[0].kids, o, p, a, b);
      } else if ts[0].Var? {
        assert a[Number(o, ts[0].slot)] == ts[0].slot && b[Number(p, us[0].slot)] == us[0].slot;
      }
      assert us == [us[0]] + us[1..];
    }
  }

  lemma SameNumberSameStep(o: seq<u32>, p: seq<u32>, s: u32, s': u32)
    requires Distinct(o) && Distinct(p) && |o| == |p|
    requires Number(o, s) == Number(p, s')
    ensures |Met(o, s)| == |Met(p, s')|
  {
    if s in o { assert Number(o, s) < |o|; }
    if s' in p { assert Number(p, s') < |p|; }
  }

  lemma RenamedSameCanon(f: map<u32, u32>, ts: seq<Tree>)
    requires Injective(f) && Slots(ts) <= f.Keys
    ensures Canon(Renamed(f, ts), []).trees == Canon(ts, []).trees
  {
    hide Canon, Renamed, Slots;
    CanonOfRenamed(f, ts, []);
    assert Image(f, []) == [];
  }

  lemma SameCanonRenamed(ts: seq<Tree>, us: seq<Tree>) returns (f: map<u32, u32>)
    requires Canon(ts, []).trees == Canon(us, []).trees
    ensures Injective(f) && Slots(ts) <= f.Keys && Renamed(f, ts) == us
  {
    hide Canon, Renamed, Slots;
    var a, b := Canon(ts, []).order, Canon(us, []).order;
    EqualLengths(ts, us, [], []);
    EqualCanonRelates(ts, us, [], [], a, b);
    f := Pairing(a, b);
    assert forall x :: x in f ==> a[IndexOf(a, x)] == x;
  }

  lemma AlphaEquivalentIffSameCanon(t: Tree, u: Tree)
    ensures AlphaEquivalent(t, u) <==> Canon([t], []).trees == Canon([u], []).trees
  {
    hide Canon, Renamed, Slots, Injective;
    if AlphaEquivalent(t, u) {
      var f: map<u32, u32> :| Injective(f) && Slots([t]) <= f.Keys && Renamed(f, [t]) == [u];
      RenamedSameCanon(f, [t]);
    }
    if Canon([t], []).trees == Canon([u], []).trees {
      var f := SameCanonRenamed([t], [u]);
    }
  }

  lemma {:induction false} EqualLengths(ts: seq<Tree>, us: seq<Tree>, o: seq<u32>, p: seq<u32>)
    requires Distinct(o) && Distinct(p) && |o| == |p|
    requires Canon(ts, o).trees == Canon(us, p).trees
    ensures |Canon(ts, o).order| == |Canon(us, p).order|
    decreases ts
  {
    if ts != [] {
      CanonTail(ts, o);
      CanonTail(us, p);
      assert Canon(ts, o).trees[0] == Canon(us, p).trees[0];
      if ts[0].Node? {
        EqualLengths(ts[0].kids, us[0].kids, o, p);
      } else if ts[0].Var? {
        SameNumberSameStep(o, p, ts[0].slot, us[0].slot);
      }
      EqualLengths(ts[1..], us[1..], After(ts[0], o), After(us[0], p));
    }
  }
}
