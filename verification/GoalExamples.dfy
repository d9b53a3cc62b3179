/** Goals written out: which streams differ, which bytes a stream has, and one hash. */
module GoalExamples {
  import opened Words
  import opened CanonicalTree
  import opened Goals
  import CanonicalHash
  import SipVectors

  // ---------------------------------------------------------------- x == y is not x == x

  /** Two variables, and two comparisons: of both, and of the first with itself. */
  const COMPARISONS: seq<Expr> := [Expr(0x18, 64, []), Expr(0x18, 64, []), Expr(0x11, 0, [0, 1]), Expr(0x11, 0, [0, 0])]

  lemma ComparisonSlots()
    ensures SlotOf(COMPARISONS, 0) == 0 && SlotOf(COMPARISONS, 1) == 1 && SlotOf(COMPARISONS, 2) == 2
    ensures SlotOf(COMPARISONS, 3) == 5 && ValidTable(COMPARISONS)
  {
    assert SlotOf(COMPARISONS, 0) == 0;
    assert SlotOf(COMPARISONS, 1) == 1;
    assert SlotOf(COMPARISONS, 2) == 2;
  }

  lemma OnlyAt(names: map<u32, u32>, related: Pairs, x: u32, y: u32, i: nat, j: nat)
    requires Matching(COMPARISONS, COMPARISONS, names, related) && (x, y) in related
    requires i < 4 && j < 4 && SlotOf(COMPARISONS, i) == x && SlotOf(COMPARISONS, j) == y
    ensures Alike(COMPARISONS[i], COMPARISONS[j], x, y, names, related)
  {
    hide Alike, SlotOf;
    assert AlikeSlots(COMPARISONS, COMPARISONS, names, related, x, y);
    var a, b :| 0 <= a < 4 && 0 <= b < 4 && AlikeAt(COMPARISONS, COMPARISONS, names, related, x, y, a, b);
    HeadIsUnique(COMPARISONS, a);
    HeadIsUnique(COMPARISONS, i);
    HeadIsUnique(COMPARISONS, b);
    HeadIsUnique(COMPARISONS, j);
  }

  lemma PairedVariable(names: map<u32, u32>, related: Pairs, x: u32, y: u32)
    requires Matching(COMPARISONS, COMPARISONS, names, related) && (x, y) in related && x < 2 && y < 2
    ensures x in names && names[x] == y
  {
    hide Matching, VarCode;
    ComparisonSlots();
    OnlyAt(names, related, x, y, x, y);
    VarCodes(0x18);
  }

  lemma ComparisonsDiffer()
    ensures !SameGoal(COMPARISONS, 2, COMPARISONS, 5)
  {
    hide Matching;
    forall names: map<u32, u32>, related: Pairs
      | Matching(COMPARISONS, COMPARISONS, names, related) && (2, 5) in related
      ensures !Injective(names)
    {
      ComparisonSlots();
      OnlyAt(names, related, 2, 5, 2, 3);
      var e, f := COMPARISONS[2], COMPARISONS[3];
      assert (e.args[0], f.args[0]) in related && (e.args[1], f.args[1]) in related;
      PairedVariable(names, related, 0, 0);
      PairedVariable(names, related, 1, 0);
    }
  }

  lemma ComparisonsUnfold()
    ensures Unfold(COMPARISONS, [2], 2).Forest? && Unfold(COMPARISONS, [5], 2).Forest?
  {
    hide Unfold, Root;
    ComparisonSlots();
    assert forall x: u32 :: [x][0] == x && [x][1..] == [];
    UnfoldNone(COMPARISONS, 1);
    UnfoldNone(COMPARISONS, 2);
    UnfoldCons(COMPARISONS, [0], 1, 0);
    UnfoldCons(COMPARISONS, [1], 1, 1);
    var a: seq<u32>, b: seq<u32> := [0, 1], [0, 0];
    assert a[1..] == [1] && b[1..] == [0];
    UnfoldCons(COMPARISONS, a, 1, 0);
    UnfoldCons(COMPARISONS, b, 1, 0);
    UnfoldCons(COMPARISONS, [2], 2, 2);
    UnfoldCons(COMPARISONS, [5], 2, 3);
  }

  /** Comparing two variables and comparing one with itself have different streams. */
  lemma ComparisonStreams()
    ensures ValidTable(COMPARISONS) && Unfold(COMPARISONS, [2], 2).Forest? && Unfold(COMPARISONS, [5], 2).Forest?
    ensures var t, u := Unfold(COMPARISONS, [2], 2).trees[0], Unfold(COMPARISONS, [5], 2).trees[0];
            WellFormed([t]) && WellFormed([u]) && Stream(t) != Stream(u)
  {
    hide Unfold, SameGoal, Stream, WellFormed, ValidTable, CanonicalHash.TreeHash;
    ComparisonSlots();
    ComparisonsUnfold();
    ComparisonsDiffer();
    SameStreamIffSameGoal(COMPARISONS, 2, 2, COMPARISONS, 5, 2);
  }

  // ---------------------------------------------------------------- the worked example of the encoding

  const FILLER := Expr(0x08, 0, [0])

  /** add(x, mul(y, x)), with unrelated constants in between so that slots and positions differ. */
  const WORKED: seq<Expr> :=
    [FILLER, FILLER, FILLER, FILLER, FILLER, FILLER, FILLER, Expr(0x18, 0, []), FILLER, Expr(0x18, 0, []),
     Expr(0x20, 0, [17, 14]), Expr(0x00, 0, [14, 18])]

  const FACTORS: seq<Tree> := [Var(0x18, 0, 17), Var(0x18, 0, 14)]
  const SUMMANDS: seq<Tree> := [Var(0x18, 0, 14), Node(0x20, 0, FACTORS)]
  const WORKED_TREE := Node(0x00, 0, SUMMANDS)

  lemma WorkedSlots()
    ensures SlotOf(WORKED, 7) == 14 && SlotOf(WORKED, 9) == 17 && SlotOf(WORKED, 10) == 18 && SlotOf(WORKED, 11) == 21
  {
    assert SlotOf(WORKED, 0) == 0;
    assert SlotOf(WORKED, 1) == 2;
    assert SlotOf(WORKED, 2) == 4;
    assert SlotOf(WORKED, 3) == 6;
    assert SlotOf(WORKED, 4) == 8;
    assert SlotOf(WORKED, 5) == 10;
    assert SlotOf(WORKED, 6) == 12;
    assert SlotOf(WORKED, 8) == 15;
  }

  lemma FactorsUnfold()
    ensures Unfold(WORKED, [17, 14], 1) == Forest(FACTORS)
  {
    hide Unfold, SlotOf;
    WorkedSlots();
    var ids: seq<u32>, last: seq<u32> := [17, 14], [14];
    assert ids[1..] == last && last[1..] == [];
    UnfoldNone(WORKED, 1);
    UnfoldCons(WORKED, last, 1, 7);
    UnfoldCons(WORKED, ids, 1, 9);
  }

  lemma SummandsUnfold()
    ensures Unfold(WORKED, [14, 18], 2) == Forest(SUMMANDS)
  {
    hide Unfold, SlotOf;
    WorkedSlots();
    FactorsUnfold();
    var ids: seq<u32>, last: seq<u32> := [14, 18], [18];
    assert ids[1..] == last && last[1..] == [];
    UnfoldNone(WORKED, 2);
    UnfoldCons(WORKED, last, 2, 10);
    UnfoldCons(WORKED, ids, 2, 7);
  }

  lemma WorkedUnfolds()
    ensures Unfold(WORKED, [21], 3) == Forest([WORKED_TREE])
  {
    hide Unfold, SlotOf;
    WorkedSlots();
    SummandsUnfold();
    var ids: seq<u32> := [21];
    assert ids[1..] == [];
    UnfoldNone(WORKED, 3);
    UnfoldCons(WORKED, ids, 3, 11);
  }

  lemma FactorsNumbered()
    ensures Canon(FACTORS, [14]) == Named([Var(0x18, 0, 1), Var(0x18, 0, 0)], [14, 17])
  {
    var order: seq<u32> := [14];
    var last := [FACTORS[1]];
    assert FACTORS[1..] == last && last[1..] == [];
    assert Met(order, 17) == [14, 17] && Number(order, 17) == 1;
    assert Met([14, 17], 14) == [14, 17] && Number([14, 17], 14) == 0;
    CanonNone([14, 17]);
    CanonStep(last, [14, 17]);
    CanonStep(FACTORS, order);
  }

  lemma SummandsNumbered()
    ensures Canon(SUMMANDS, []) == Named([Var(0x18, 0, 0), Node(0x20, 0, [Var(0x18, 0, 1), Var(0x18, 0, 0)])], [14, 17])
  {
    var last := [SUMMANDS[1]];
    assert SUMMANDS[1..] == last && last[1..] == [];
    assert Met([], 14) == [14] && Number([], 14) == 0;
    FactorsNumbered();
    hide Canon, Met, Number;
    CanonNone([14, 17]);
    CanonStep(last, [14]);
    CanonStep(SUMMANDS, []);
  }

  lemma WorkedNumbered()
    ensures Canon([WORKED_TREE], []).trees
         == [Node(0x00, 0, [Var(0x18, 0, 0), Node(0x20, 0, [Var(0x18, 0, 1), Var(0x18, 0, 0)])])]
  {
    SummandsNumbered();
    hide Canon;
    CanonOne(WORKED_TREE, []);
  }

  lemma VarBytes(n: u8)
    ensures WellFormed([Var(0x18, 0, n)]) && Bytes(Var(0x18, 0, n)) == [0x01, 0x18, 0, 0, 0, n, 0, 0, 0]
  {
    LE32OfByte(n);
    assert LE16(0) == [0, 0];
    hide LE32, LE16;
    var one := [Var(0x18, 0, n)];
    assert one[1..] == [];
  }

  lemma PairBytes(t: Tree, u: Tree, code: u8)
    requires WellFormed([t]) && WellFormed([u])
    ensures WellFormed([Node(code, 0, [t, u])])
    ensures Bytes(Node(code, 0, [t, u])) == Bytes(t) + Bytes(u) + [0x03, code, 2, 0, 0]
  {
    var kids, last, one, none: seq<Tree> := [t, u], [u], [Node(code, 0, [t, u])], [];
    assert kids[1..] == last && last[1..] == none && one[1..] == none && [t][1..] == none;
    assert WellFormed(none) && WellFormed(last) && WellFormed(kids);
    assert LE16(0) == [0, 0];
    hide LE16, Bytes, WellFormed;
    assert Serialize(none) == [];
    assert Serialize(last) == Bytes(u) + [];
    assert Serialize(kids) == Bytes(t) + Serialize(last);
    BytesOfNode(code, kids);
    assert Record(TAG_INTERNAL, code, 2, 0) == [0x03, code, 2, 0, 0];
  }

  lemma BytesOfNode(code: u8, kids: seq<Tree>)
    requires |kids| == 2 && WellFormed(kids)
    ensures WellFormed([Node(code, 0, kids)]) && Bytes(Node(code, 0, kids)) == Serialize(kids) + Record(TAG_INTERNAL, code, 2, 0)
  {
    var one := [Node(code, 0, kids)];
    assert one[1..] == [];
  }

  const WORKED_BYTES: seq<u8> :=
    [0x01, 0x18, 0x00, 0x00, 0x00, 0x00, 0x00, 0x00, 0x00]
    + ([0x01, 0x18, 0x00, 0x00, 0x00, 0x01, 0x00, 0x00, 0x00]
       + [0x01, 0x18, 0x00, 0x00, 0x00, 0x00, 0x00, 0x00, 0x00]
       + [0x03, 0x20, 0x02, 0x00, 0x00])
    + [0x03, 0x00, 0x02, 0x00, 0x00]

  /** The stream of the worked example, byte by byte. */
  lemma WorkedStream()
    ensures Unfold(WORKED, [21], 3) == Forest([WORKED_TREE])
    ensures WellFormed([WORKED_TREE]) && Stream(WORKED_TREE) == WORKED_BYTES
  {
    WorkedUnfolds();
    WorkedNumbered();
    hide Unfold, Canon, Bytes;
    VarBytes(14);
    VarBytes(17);
    VarBytes(0);
    VarBytes(1);
    var x, y := Var(0x18, 0, 0), Var(0x18, 0, 1);
    PairBytes(y, x, 0x20);
    PairBytes(x, Node(0x20, 0, [y, x]), 0x00);
    PairBytes(Var(0x18, 0, 17), Var(0x18, 0, 14), 0x20);
    PairBytes(Var(0x18, 0, 14), Node(0x20, 0, FACTORS), 0x00);
    SerializeOne(Node(0x00, 0, [x, Node(0x20, 0, [y, x])]));
  }

  lemma SerializeOne(t: Tree)
    requires WellFormed([t])
    ensures Serialize([t]) == Bytes(t)
  {
    hide Bytes;
    var one, none: seq<Tree> := [t], [];
    assert one[1..] == none;
    assert WellFormed(none) && Serialize(none) == [];
  }

  // ---------------------------------------------------------------- the hash of one variable

  lemma VariableStream(slot: u32)
    ensures WellFormed([Var(0x18, 64, slot)])
    ensures Stream(Var(0x18, 64, slot)) == [0x01, 0x18, 0x00, 0x40, 0x00, 0x00, 0x00, 0x00, 0x00]
  {
    var t, n := Var(0x18, 64, slot), Var(0x18, 64, 0);
    assert Numbered(t, []) == n;
    var one, two := [t], [n];
    assert one[1..] == [] && two[1..] == [];
    assert WellFormed([]);
    assert LE16(64) == [0x40, 0];
    LE32OfByte(0);
    hide Canon, Numbered, LE16, LE32;
    CanonOne(t, []);
    SerializeOne(n);
  }

  lemma VariableBytes(slot: u32)
    ensures WellFormed([Var(0x18, 64, slot)])
    ensures CanonicalHash.ToBytes(Stream(Var(0x18, 64, slot))) == SipVectors.VARIABLE_BYTES
  {
    hide Stream, WellFormed;
    VariableStream(slot);
    assert 1 as bv8 == 0x01 && 0x18 as bv8 == 0x18 && 0x40 as bv8 == 0x40 && 0 as bv8 == 0;
  }

  /** A 64-bit variable on its own, whatever its slot. */
  lemma VariableHash(slot: u32)
    ensures WellFormed([Var(0x18, 64, slot)]) && CanonicalHash.TreeHash(Var(0x18, 64, slot)) == 0xaa63d5536844300a
  {
    hide Stream, WellFormed, SipVectors.SipHash.Digest;
    VariableBytes(slot);
    SipVectors.VariableDigest();
  }
}
