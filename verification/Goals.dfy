/**
 What it means that two goals are the same, said of the tables themselves: slot by slot, with the
 variables matched one to one. Equal streams are exactly that.
 */
module Goals {
  import opened Words
  import opened CanonicalTree
  import CanonicalHash

  type Pairs = iset<(u32, u32)>

  /** The upper five bits of the code say that an expression without arguments is a variable. */
  predicate VarCode(code: u8) {
    (code as bv8) & 0xf8 == 0x18
  }

  /** Same code, parameters and number of arguments; variables paired, raw words equal, references related. */
  ghost predicate Alike(e: Expr, f: Expr, x: u32, y: u32, names: map<u32, u32>, related: Pairs) {
    && e.code == f.code && e.params == f.params && |e.args| == |f.args|
    && if |e.args| == 0 then VarCode(e.code) ==> x in names && names[x] == y
       else if e.code == 0x08 then e.args == f.args
       else forall k :: 0 <= k < |e.args| ==> (e.args[k], f.args[k]) in related
  }

  ghost predicate AlikeSlots(exprs: seq<Expr>, exprs': seq<Expr>, names: map<u32, u32>, related: Pairs, x: u32, y: u32) {
    exists i, j :: 0 <= i < |exprs| && 0 <= j < |exprs'| && AlikeAt(exprs, exprs', names, related, x, y, i, j)
  }

  ghost predicate AlikeAt(
      exprs: seq<Expr>, exprs': seq<Expr>, names: map<u32, u32>, related: Pairs, x: u32, y: u32, i: nat, j: nat)
    requires i < |exprs| && j < |exprs'|
  {
    SlotOf(exprs, i) == x && SlotOf(exprs', j) == y && Alike(exprs[i], exprs'[j], x, y, names, related)
  }

  /** Every related pair of slots is alike. */
  ghost predicate Matching(exprs: seq<Expr>, exprs': seq<Expr>, names: map<u32, u32>, related: Pairs) {
    forall x, y :: (x, y) in related ==> AlikeSlots(exprs, exprs', names, related, x, y)
  }

  /** The two slots can be related, with some one-to-one pairing of variables. */
  ghost predicate SameGoal(exprs: seq<Expr>, x: u32, exprs': seq<Expr>, y: u32) {
    exists names: map<u32, u32>, related: Pairs ::
      Injective(names) && Matching(exprs, exprs', names, related) && (x, y) in related
  }

  // ---------------------------------------------------------------- codes

  lemma MaskedCodes(b: bv8)
    ensures b & 0xf8 == 0x18 <==> (b == 0x18 || b == 0x19 || b == 0x1a || b == 0x1b || b == 0x1c || b == 0x1d || b == 0x1e || b == 0x1f)
  {
  }

  lemma ByteValues()
    ensures ByteValue(0x18) == 0x18 && ByteValue(0x19) == 0x19 && ByteValue(0x1a) == 0x1a && ByteValue(0x1b) == 0x1b
    ensures ByteValue(0x1c) == 0x1c && ByteValue(0x1d) == 0x1d && ByteValue(0x1e) == 0x1e && ByteValue(0x1f) == 0x1f
  {
  }

  lemma Masked(code: u8)
    ensures VarCode(code) <==> (code as bv8) & 0xf8 == 0x18
  {
  }

  lemma VarCodes(code: u8)
    ensures VarCode(code) <==> IsVar(code)
  {
    hide VarCode, ByteValue;
    Masked(code);
    MaskedCodes(code as bv8);
    ValueOfByte(code);
    ByteValues();
  }

  // ---------------------------------------------------------------- matched slots have renamed trees

  lemma AlikeRoots(e: Expr, f: Expr, x: u32, y: u32, names: map<u32, u32>, related: Pairs, kids: seq<Tree>)
    requires Alike(e, f, x, y, names, related) && (IsLeaf(e) ==> kids == []) && Slots(kids) <= names.Keys
    ensures IsLeaf(e) <==> IsLeaf(f)
    ensures Slots([Root(e, x, kids)]) <= names.Keys
    ensures Renamed(names, [Root(e, x, kids)]) == [Root(f, y, Renamed(names, kids))]
  {
    VarCodes(e.code);
    hide VarCode;
    var one := [Root(e, x, kids)];
    assert one[1..] == [];
    assert Slots([]) == {} && Renamed(names, []) == [];
  }

  lemma UnfoldCons(exprs: seq<Expr>, ids: seq<u32>, d: nat, i: nat)
    requires ids != [] && i < |exprs| && SlotOf(exprs, i) == ids[0]
    ensures var e, rest := exprs[i], Unfold(exprs, ids[1..], d);
            && (Unfold(exprs, ids, d).Forest? <==>
                  d > 0 && (IsLeaf(e) || Unfold(exprs, e.args, d - 1).Forest?) && rest.Forest?)
            && (Unfold(exprs, ids, d).Forest? ==>
                  var kids := if IsLeaf(e) then [] else Unfold(exprs, e.args, d - 1).trees;
                  Unfold(exprs, ids, d).trees == [Root(e, ids[0], kids)] + rest.trees)
  {
    HeadIsUnique(exprs, i);
    hide HeadAt, Root, IsLeaf, SlotOf;
  }

  lemma {:induction false} MatchedUnfold(
      exprs: seq<Expr>, exprs': seq<Expr>, names: map<u32, u32>, related: Pairs, ids: seq<u32>, ids': seq<u32>, d: nat)
    requires Matching(exprs, exprs', names, related) && |ids| == |ids'|
    requires forall k :: 0 <= k < |ids| ==> (ids[k], ids'[k]) in related
    requires Unfold(exprs, ids, d).Forest?
    ensures Unfold(exprs', ids', d).Forest?
    ensures var ts, us := Unfold(exprs, ids, d).trees, Unfold(exprs', ids', d).trees;
            Slots(ts) <= names.Keys && Renamed(names, ts) == us
    decreases d, |ids|
  {
    hide HeadAt, Alike, Unfold, Root, IsLeaf;
    if ids == [] {
      UnfoldNone(exprs, d);
      UnfoldNone(exprs', d);
    } else {
      var x, y := ids[0], ids'[0];
      assert AlikeSlots(exprs, exprs', names, related, x, y);
      var i, j :| 0 <= i < |exprs| && 0 <= j < |exprs'| && AlikeAt(exprs, exprs', names, related, x, y, i, j);
      UnfoldCons(exprs, ids, d, i);
      UnfoldCons(exprs', ids', d, j);
      var e, f := exprs[i], exprs'[j];
      AlikeKind(e, f, x, y, names, related);
      var kids := if IsLeaf(e) then [] else Unfold(exprs, e.args, d - 1).trees;
      if !IsLeaf(e) { MatchedUnfold(exprs, exprs', names, related, e.args, f.args, d - 1); }
      MatchedUnfold(exprs, exprs', names, related, ids[1..], ids'[1..], d);
      AlikeRoots(e, f, x, y, names, related, kids);
      RenamedCons(names, Root(e, x, kids), Unfold(exprs, ids[1..], d).trees);
    }
  }

  lemma UnfoldNone(exprs: seq<Expr>, d: nat)
    ensures Unfold(exprs, [], d) == Forest([]) && Slots([]) == {} && forall f :: Renamed(f, []) == []
  {
  }

  lemma AlikeKind(e: Expr, f: Expr, x: u32, y: u32, names: map<u32, u32>, related: Pairs)
    requires Alike(e, f, x, y, names, related)
    ensures (IsLeaf(e) <==> IsLeaf(f)) && |e.args| == |f.args|
    ensures !IsLeaf(e) ==> forall k :: 0 <= k < |e.args| ==> (e.args[k], f.args[k]) in related
  {
  }

  lemma RenamedCons(names: map<u32, u32>, t: Tree, ts: seq<Tree>)
    requires Slots([t]) <= names.Keys && Slots(ts) <= names.Keys
    ensures Slots([t] + ts) <= names.Keys && Renamed(names, [t] + ts) == Renamed(names, [t]) + Renamed(names, ts)
  {
    var all, one := [t] + ts, [t];
    assert all[1..] == ts && one[1..] == [];
    assert Slots([]) == {} && Renamed(names, []) == [];
  }

  // ---------------------------------------------------------------- renamed trees match slot by slot

  /** Both slots unfold, and renaming takes one tree to the other. */
  ghost predicate RenamedTo(exprs: seq<Expr>, exprs': seq<Expr>, names: map<u32, u32>, x: u32, y: u32) {
    exists d: nat, d': nat :: RenamedAt(exprs, exprs', names, [x], [y], d, d')
  }

  ghost predicate RenamedAt(
      exprs: seq<Expr>, exprs': seq<Expr>, names: map<u32, u32>, ids: seq<u32>, ids': seq<u32>, d: nat, d': nat)
  {
    var u, u' := Unfold(exprs, ids, d), Unfold(exprs', ids', d');
    u.Forest? && u'.Forest? && Slots(u.trees) <= names.Keys && Renamed(names, u.trees) == u'.trees
  }

  ghost function AllRenamed(exprs: seq<Expr>, exprs': seq<Expr>, names: map<u32, u32>): Pairs {
    iset x: u32, y: u32 | RenamedTo(exprs, exprs', names, x, y) :: (x, y)
  }

  lemma UnfoldFirst(exprs: seq<Expr>, ids: seq<u32>, d: nat)
    requires ids != [] && Unfold(exprs, ids, d).Forest?
    ensures Unfold(exprs, [ids[0]], d).Forest? && Unfold(exprs, ids[1..], d).Forest?
    ensures Unfold(exprs, ids, d).trees == Unfold(exprs, [ids[0]], d).trees + Unfold(exprs, ids[1..], d).trees
  {
    hide HeadAt;
    assert [ids[0]][1..] == [] && [ids[0]][0] == ids[0];
    assert Unfold(exprs, [], d) == Forest([]);
  }

  lemma {:induction false} EachRenamed(
      exprs: seq<Expr>, exprs': seq<Expr>, names: map<u32, u32>, ids: seq<u32>, ids': seq<u32>, d: nat, d': nat, k: nat)
    requires RenamedAt(exprs, exprs', names, ids, ids', d, d') && k < |ids|
    ensures |ids| == |ids'| && RenamedTo(exprs, exprs', names, ids[k], ids'[k])
    decreases k
  {
    hide Unfold;
    var ts, us := Unfold(exprs, ids, d).trees, Unfold(exprs', ids', d').trees;
    UnfoldFirst(exprs, ids, d);
    UnfoldFirst(exprs', ids', d');
    var t, rest := Unfold(exprs, [ids[0]], d).trees[0], Unfold(exprs, ids[1..], d).trees;
    var u, rest' := Unfold(exprs', [ids'[0]], d').trees[0], Unfold(exprs', ids'[1..], d').trees;
    assert ts == [t] + rest && us == [u] + rest';
    assert Unfold(exprs, [ids[0]], d).trees == [t] && Unfold(exprs', [ids'[0]], d').trees == [u];
    SplitRenamed(names, t, rest);
    Parts(Renamed(names, [t]), Renamed(names, rest), u, rest');
    if k == 0 {
      assert RenamedAt(exprs, exprs', names, [ids[0]], [ids'[0]], d, d');
    } else {
      EachRenamed(exprs, exprs', names, ids[1..], ids'[1..], d, d', k - 1);
    }
  }

  lemma Parts(a: seq<Tree>, b: seq<Tree>, u: Tree, us: seq<Tree>)
    requires |a| == 1 && a + b == [u] + us
    ensures a == [u] && b == us
  {
    assert a == (a + b)[..1] && b == (a + b)[1..];
  }

  lemma SplitRenamed(names: map<u32, u32>, t: Tree, ts: seq<Tree>)
    requires Slots([t] + ts) <= names.Keys
    ensures Slots([t]) <= names.Keys && Slots(ts) <= names.Keys
    ensures Renamed(names, [t] + ts) == Renamed(names, [t]) + Renamed(names, ts)
  {
    var all, one := [t] + ts, [t];
    assert all[1..] == ts && one[1..] == [];
    assert Slots([]) == {};
    RenamedCons(names, t, ts);
  }

  lemma UnfoldOne(exprs: seq<Expr>, x: u32, d: nat) returns (i: nat, kids: seq<Tree>)
    requires Unfold(exprs, [x], d).Forest?
    ensures d > 0 && i < |exprs| && SlotOf(exprs, i) == x
    ensures if IsLeaf(exprs[i]) then kids == [] else Unfold(exprs, exprs[i].args, d - 1) == Forest(kids)
    ensures Unfold(exprs, [x], d).trees == [Root(exprs[i], x, kids)]
  {
    hide HeadAt;
    assert [x][0] == x && [x][1..] == [];
    assert Unfold(exprs, [], d) == Forest([]);
    i := HeadAt(exprs, x).value;
    kids := if IsLeaf(exprs[i]) then [] else Unfold(exprs, exprs[i].args, d - 1).trees;
  }

  lemma RootsAlike(e: Expr, f: Expr, x: u32, y: u32, names: map<u32, u32>, related: Pairs, kids: seq<Tree>, kids': seq<Tree>)
    requires Slots([Root(e, x, kids)]) <= names.Keys && Renamed(names, [Root(e, x, kids)]) == [Root(f, y, kids')]
    requires IsLeaf(e) || |kids| == |e.args|
    requires IsLeaf(f) || |kids'| == |f.args|
    requires !IsLeaf(e) && !IsLeaf(f) && |e.args| == |f.args|
             ==> forall k :: 0 <= k < |e.args| ==> (e.args[k], f.args[k]) in related
    ensures Alike(e, f, x, y, names, related)
  {
    VarCodes(e.code);
    hide VarCode;
    var one := [Root(e, x, kids)];
    assert one[1..] == [];
    assert Renamed(names, one)[0] == Root(f, y, kids');
  }

  lemma RootKids(e: Expr, f: Expr, x: u32, y: u32, names: map<u32, u32>, kids: seq<Tree>, kids': seq<Tree>)
    requires Slots([Root(e, x, kids)]) <= names.Keys && Renamed(names, [Root(e, x, kids)]) == [Root(f, y, kids')]
    ensures !IsLeaf(e) && !IsLeaf(f) ==> Slots(kids) <= names.Keys && Renamed(names, kids) == kids'
  {
    var one := [Root(e, x, kids)];
    assert one[1..] == [];
    assert Renamed(names, one)[0] == Root(f, y, kids');
  }

  lemma RenamedIsAlike(exprs: seq<Expr>, exprs': seq<Expr>, names: map<u32, u32>, x: u32, y: u32)
    requires RenamedTo(exprs, exprs', names, x, y)
    ensures AlikeSlots(exprs, exprs', names, AllRenamed(exprs, exprs', names), x, y)
  {
    hide Unfold, Root, IsLeaf, Alike, Slots, Renamed;
    var related := AllRenamed(exprs, exprs', names);
    var d: nat, d': nat :| RenamedAt(exprs, exprs', names, [x], [y], d, d');
    var i, kids := UnfoldOne(exprs, x, d);
    var j, kids' := UnfoldOne(exprs', y, d');
    var e, f := exprs[i], exprs'[j];
    RootKids(e, f, x, y, names, kids, kids');
    if !IsLeaf(e) && !IsLeaf(f) && |e.args| == |f.args| {
      forall k | 0 <= k < |e.args| ensures (e.args[k], f.args[k]) in related {
        EachRenamed(exprs, exprs', names, e.args, f.args, d - 1, d' - 1, k);
      }
    }
    RootsAlike(e, f, x, y, names, related, kids, kids');
    assert AlikeAt(exprs, exprs', names, related, x, y, i, j);
  }

  // ---------------------------------------------------------------- the lookup contract

  lemma SameGoalIffAlphaEquivalent(exprs: seq<Expr>, x: u32, d: nat, exprs': seq<Expr>, y: u32, d': nat)
    requires Unfold(exprs, [x], d).Forest? && Unfold(exprs', [y], d').Forest?
    ensures SameGoal(exprs, x, exprs', y)
        <==> AlphaEquivalent(Unfold(exprs, [x], d).trees[0], Unfold(exprs', [y], d').trees[0])
  {
    hide Unfold, AlikeSlots, Slots, Renamed, Injective, Matching, RenamedTo;
    var ts, us := Unfold(exprs, [x], d).trees, Unfold(exprs', [y], d').trees;
    assert ts == [ts[0]] && us == [us[0]];
    if SameGoal(exprs, x, exprs', y) {
      var names: map<u32, u32>, related: Pairs :|
        Injective(names) && Matching(exprs, exprs', names, related) && (x, y) in related;
      MatchedUnfold(exprs, exprs', names, related, [x], [y], d);
      SameAtAnyDepth(exprs', [y], d, d');
    }
    if AlphaEquivalent(ts[0], us[0]) {
      var names: map<u32, u32> :| Injective(names) && Slots([ts[0]]) <= names.Keys && Renamed(names, [ts[0]]) == [us[0]];
      var related := AllRenamed(exprs, exprs', names);
      MatchingRenamed(exprs, exprs', names);
      assert RenamedAt(exprs, exprs', names, [x], [y], d, d');
      RenamedNow(exprs, exprs', names, x, y, d, d');
      assert (x, y) in related;
    }
  }

  lemma RenamedNow(exprs: seq<Expr>, exprs': seq<Expr>, names: map<u32, u32>, x: u32, y: u32, d: nat, d': nat)
    requires RenamedAt(exprs, exprs', names, [x], [y], d, d')
    ensures RenamedTo(exprs, exprs', names, x, y)
  {
  }

  lemma MatchingRenamed(exprs: seq<Expr>, exprs': seq<Expr>, names: map<u32, u32>)
    ensures Matching(exprs, exprs', names, AllRenamed(exprs, exprs', names))
  {
    hide RenamedTo, AlikeSlots;
    forall x, y | (x, y) in AllRenamed(exprs, exprs', names)
      ensures AlikeSlots(exprs, exprs', names, AllRenamed(exprs, exprs', names), x, y)
    {
      RenamedIsAlike(exprs, exprs', names, x, y);
    }
  }

  lemma SameAtAnyDepth(exprs: seq<Expr>, ids: seq<u32>, d: nat, d': nat)
    requires Unfold(exprs, ids, d).Forest? && Unfold(exprs, ids, d').Forest?
    ensures Unfold(exprs, ids, d) == Unfold(exprs, ids, d')
  {
    hide Unfold;
    if d <= d' { UnfoldIsStable(exprs, ids, d, d'); } else { UnfoldIsStable(exprs, ids, d', d); }
  }

  /**
   The lookup contract on the tables: two goals, in whatever tables, have the same stream exactly if
   they can be matched slot by slot, and then they hash alike. A goal matched with one whose walk ends
   has a walk that ends as well.
   */
  lemma SameStreamIffSameGoal(exprs: seq<Expr>, x: u32, d: nat, exprs': seq<Expr>, y: u32, d': nat)
    requires ValidTable(exprs) && ValidTable(exprs')
    requires Unfold(exprs, [x], d).Forest? && Unfold(exprs', [y], d').Forest?
    ensures var t, u := Unfold(exprs, [x], d).trees[0], Unfold(exprs', [y], d').trees[0];
            && WellFormed([t]) && WellFormed([u])
            && (Stream(t) == Stream(u) <==> SameGoal(exprs, x, exprs', y))
            && (SameGoal(exprs, x, exprs', y) ==> CanonicalHash.TreeHash(t) == CanonicalHash.TreeHash(u))
  {
    hide Unfold, SameGoal, Stream, AlphaEquivalent, WellFormed, ValidTable, CanonicalHash.TreeHash;
    SameGoalIffAlphaEquivalent(exprs, x, d, exprs', y, d');
    CanonicalHash.EquivalentExpressionsHashAlike(exprs, x, d, exprs', y, d');
  }

  lemma SameGoalEnds(exprs: seq<Expr>, x: u32, d: nat, exprs': seq<Expr>, y: u32)
    requires Unfold(exprs, [x], d).Forest? && SameGoal(exprs, x, exprs', y)
    ensures Unfold(exprs', [y], d).Forest?
  {
    hide Unfold, Slots, Renamed, Injective, Matching;
    var names: map<u32, u32>, related: Pairs :|
      Injective(names) && Matching(exprs, exprs', names, related) && (x, y) in related;
    MatchedUnfold(exprs, exprs', names, related, [x], [y], d);
  }
}
