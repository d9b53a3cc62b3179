/**
 The canonical hash as the C reference computes it: a recursive walk over the slot-addressed
 table, writing records into a growing buffer, then SipHash-2-4 over the buffer.
 */
module CanonicalHash {
  import opened Words
  import opened CanonicalTree
  import opened EncoderTables
  import ProbeTable
  import SipHash
  import StreamDecoder

  // ---------------------------------------------------------------- output buffer

  class OutBuf {
    var data: array<u8>
    var len: nat
    var oom: bool

    ghost predicate Valid()
      reads this, data
    {
      len <= data.Length && 64 <= data.Length
    }

    ghost function Contents(): seq<u8>
      requires Valid()
      reads this, data
    {
      data[..len]
    }

    constructor ()
      ensures Valid() && Contents() == [] && !oom && fresh(data)
    {
      data := new u8[64];
      len, oom := 0, false;
    }

    /** Doubles the capacity until `extra` more bytes fit; the contents move along. */
    method Reserve(extra: nat)
      requires Valid()
      modifies this`data
      ensures Valid() && Contents() == old(Contents())
      ensures !oom ==> len + extra <= data.Length
      ensures data == old(data) || fresh(data)
    {
      if oom { return; }
      if len + extra <= data.Length { return; }
      var nc := data.Length;
      while nc < len + extra
        invariant data.Length <= nc
      {
        nc := nc * 2;
      }
      var nd := new u8[nc];
      forall i | 0 <= i < len { nd[i] := data[i]; }
      assert nd[..len] == data[..len];
      data := nd;
    }

    /** Appends `bs`, or nothing once the buffer has failed. */
    method Push(bs: seq<u8>)
      requires Valid()
      modifies this`data, this`len, data
      ensures Valid() && Contents() == if oom then old(Contents()) else old(Contents()) + bs
      ensures data == old(data) || fresh(data)
    {
      Reserve(|bs|);
      if oom { return; }
      var n, d := len, data;
      ghost var was := data[..n];
      for i := 0 to |bs|
        invariant data == d && n + |bs| <= d.Length && len == n + i
        invariant d[..n] == was && d[n..len] == bs[..i]
        modifies this`len, d
      {
        data[len] := bs[i];
        len := len + 1;
      }
      assert data[..len] == was + bs;
    }
  }

  // ---------------------------------------------------------------- forests grow at the right end

  lemma {:induction false} WellFormedAppend(a: seq<Tree>, b: seq<Tree>)
    requires WellFormed(a) && WellFormed(b)
    ensures WellFormed(a + b)
  {
    if a == [] {
      assert a + b == b;
    } else {
      WellFormedAppend(a[1..], b);
      assert (a + b)[1..] == a[1..] + b;
    }
  }

  lemma {:induction false} SerializeAppend(a: seq<Tree>, b: seq<Tree>)
    requires WellFormed(a) && WellFormed(b)
    ensures WellFormed(a + b) && Serialize(a + b) == Serialize(a) + Serialize(b)
  {
    hide Bytes;
    WellFormedAppend(a, b);
    if a == [] {
      assert a + b == b;
    } else {
      SerializeAppend(a[1..], b);
      assert (a + b)[1..] == a[1..] + b;
    }
  }

  lemma {:induction false} CanonAppend(a: seq<Tree>, b: seq<Tree>, order: seq<u32>)
    requires Distinct(order)
    ensures var l := Canon(a, order);
            Canon(a + b, order) == Named(l.trees + Canon(b, l.order).trees, Canon(b, l.order).order)
  {
    hide Canon, After, Distinct;
    if a == [] {
      CanonNone(order);
      assert a + b == b;
    } else {
      CanonTail(a, order);
      CanonTail(a + b, order);
      assert (a + b)[1..] == a[1..] + b && [(a + b)[0]] == [a[0]];
      CanonAppend(a[1..], b, After(a[0], order));
    }
  }

  /** Splitting off the first id of a walk. */
  lemma UnfoldFirst(exprs: seq<Expr>, ids: seq<u32>, depth: nat)
    requires ids != []
    ensures var h := Unfold(exprs, [ids[0]], depth);
            Unfold(exprs, ids, depth) == if h.Forest? then Joined(h.trees, Unfold(exprs, ids[1..], depth)) else h
  {
    hide Unfold, FirstTree;
    var one := [ids[0]];
    assert one[1..] == [];
    UnfoldStep(exprs, ids, depth);
    UnfoldStep(exprs, one, depth);
    UnfoldNone(exprs, depth);
    var h := FirstTree(exprs, ids[0], depth);
    if h.Forest? { assert h.trees + [] == h.trees; }
  }

  /** What the walk makes of one id. */
  function FirstTree(exprs: seq<Expr>, id: u32, depth: nat): Unfolding {
    if depth == 0 then Deep
    else
      match HeadAt(exprs, id)
      case None => Dangling
      case Some(i) =>
        var below := if IsLeaf(exprs[i]) then Forest([]) else Unfold(exprs, exprs[i].args, depth - 1);
        if below.Forest? then Forest([Root(exprs[i], id, below.trees)]) else below
  }

  lemma UnfoldStep(exprs: seq<Expr>, ids: seq<u32>, depth: nat)
    requires ids != []
    ensures var h := FirstTree(exprs, ids[0], depth);
            Unfold(exprs, ids, depth) == if h.Forest? then Joined(h.trees, Unfold(exprs, ids[1..], depth)) else h
  {
  }

  lemma UnfoldNone(exprs: seq<Expr>, depth: nat)
    ensures Unfold(exprs, [], depth) == Forest([])
  {
  }

  function Joined(pre: seq<Tree>, rest: Unfolding): Unfolding {
    if rest.Forest? then Forest(pre + rest.trees) else rest
  }

  // ---------------------------------------------------------------- encoder

  ghost predicate Apart(st: SlotTable, r: Renamer, b: OutBuf)
    reads st, r, b
  {
    var ts: set<object>, rs: set<object>, bs: set<object> :=
      {st, st.keys, st.vals}, {r, r.keys, r.vals}, {b, b.data};
    ts !! rs && ts !! bs && rs !! bs
  }

  ghost predicate Ready(exprs: seq<Expr>, st: SlotTable, r: Renamer, b: OutBuf)
    reads st, st.keys, st.vals, r, r.keys, r.vals, b, b.data
  {
    Apart(st, r, b) && st.Valid(exprs) && r.Valid() && b.Valid()
  }

  /** What the walk over `ids` has to have appended and numbered when it comes back. */
  ghost predicate Encoded(u: Unfolding, order: seq<u32>, bytes: seq<u8>, order': seq<u32>, bytes': seq<u8>)
    requires Distinct(order)
  {
    && u.Forest? && WellFormed(u.trees) && WellFormed(Canon(u.trees, order).trees)
    && order' == Canon(u.trees, order).order
    && bytes' == bytes + Serialize(Canon(u.trees, order).trees)
  }

  lemma StepOver(exprs: seq<Expr>, ids: seq<u32>, depth: nat, i: nat, pre: seq<Tree>)
    requires i < |ids| && |pre| == i
    requires Unfold(exprs, ids, depth) == Joined(pre, Unfold(exprs, ids[i..], depth))
    ensures var h := Unfold(exprs, [ids[i]], depth);
            if h.Forest? then Unfold(exprs, ids, depth) == Joined(pre + h.trees, Unfold(exprs, ids[i + 1..], depth))
            else Unfold(exprs, ids, depth) == h
  {
    hide Unfold;
    UnfoldFirst(exprs, ids[i..], depth);
    assert ids[i..][1..] == ids[i + 1..];
    var h := Unfold(exprs, [ids[i]], depth);
    var rest := Unfold(exprs, ids[i + 1..], depth);
    if h.Forest? && rest.Forest? {
      assert pre + (h.trees + rest.trees) == pre + h.trees + rest.trees;
    }
  }

  lemma EncodedMore(pre: seq<Tree>, h: seq<Tree>, o0: seq<u32>, c0: seq<u8>, o1: seq<u32>, c1: seq<u8>, o2: seq<u32>, c2: seq<u8>)
    requires Distinct(o0) && Encoded(Forest(pre), o0, c0, o1, c1)
    requires Distinct(o1) && Encoded(Forest(h), o1, c1, o2, c2)
    ensures Encoded(Forest(pre + h), o0, c0, o2, c2)
  {
    hide Canon, Serialize, WellFormed;
    WellFormedAppend(pre, h);
    CanonAppend(pre, h, o0);
    SerializeAppend(Canon(pre, o0).trees, Canon(h, o1).trees);
    var x, y := Serialize(Canon(pre, o0).trees), Serialize(Canon(h, o1).trees);
    assert c0 + x + y == c0 + (x + y);
  }

  // what one visited expression contributes, by the three branches of the encoder

  lemma VarLeaf(exprs: seq<Expr>, id: u32, depth: nat, i: nat, order: seq<u32>, c: seq<u8>)
    requires Distinct(order) && depth > 0 && HeadAt(exprs, id) == Some(i) && i < |exprs|
    requires IsLeaf(exprs[i]) && IsVar(exprs[i].code)
    ensures Unfold(exprs, [id], depth).Forest?
    ensures var e := exprs[i];
            Encoded(Unfold(exprs, [id], depth), order, c,
                    Met(order, id), c + Record(TAG_VAR, e.code, 0, e.params) + LE32(Number(order, id)))
  {
    hide HeadAt, LE32, Record, Number, Met;
    var e, ids := exprs[i], [id];
    assert ids[1..] == [];
    var ts := [Var(e.code, e.params, id)];
    assert Unfold(exprs, ids, depth) == Forest(ts + []) && ts + [] == ts;
    OneTree(ts[0], order);
  }

  lemma ConstLeaf(exprs: seq<Expr>, id: u32, depth: nat, i: nat, order: seq<u32>, c: seq<u8>)
    requires Distinct(order) && depth > 0 && HeadAt(exprs, id) == Some(i) && i < |exprs|
    requires IsLeaf(exprs[i]) && !IsVar(exprs[i].code) && |exprs[i].args| <= 255
    ensures Unfold(exprs, [id], depth).Forest?
    ensures var e := exprs[i];
            Encoded(Unfold(exprs, [id], depth), order, c,
                    order, c + Record(TAG_LEAF_CONST, e.code, |e.args|, e.params) + ConstArgs(e.args))
  {
    hide HeadAt, Record, ConstArgs;
    var e, ids := exprs[i], [id];
    assert ids[1..] == [];
    var ts := [Const(e.code, e.params, e.args)];
    assert Unfold(exprs, ids, depth) == Forest(ts + []) && ts + [] == ts;
    OneTree(ts[0], order);
  }

  lemma InternalNode(exprs: seq<Expr>, id: u32, depth: nat, i: nat,
                     order: seq<u32>, c: seq<u8>, order': seq<u32>, c': seq<u8>)
    requires Distinct(order) && depth > 0 && HeadAt(exprs, id) == Some(i) && i < |exprs|
    requires !IsLeaf(exprs[i]) && |exprs[i].args| <= 255
    requires Encoded(Unfold(exprs, exprs[i].args, depth - 1), order, c, order', c')
    ensures var e := exprs[i];
            Encoded(Unfold(exprs, [id], depth), order, c,
                    order', c' + Record(TAG_INTERNAL, e.code, |e.args|, e.params))
  {
    var kids := Unfold(exprs, exprs[i].args, depth - 1).trees;
    InternalUnfolds(exprs, id, depth, i);
    hide HeadAt, Record, Unfold, Serialize;
    var t := Node(exprs[i].code, exprs[i].params, kids);
    OneTree(t, order);
    var x, y := Serialize(Canon(kids, order).trees), Record(TAG_INTERNAL, t.code, |kids|, t.params);
    assert c + x + y == c + (x + y);
  }

  lemma InternalUnfolds(exprs: seq<Expr>, id: u32, depth: nat, i: nat)
    requires depth > 0 && HeadAt(exprs, id) == Some(i) && i < |exprs| && !IsLeaf(exprs[i])
    ensures var below := Unfold(exprs, exprs[i].args, depth - 1);
            Unfold(exprs, [id], depth)
            == if below.Forest? then Forest([Node(exprs[i].code, exprs[i].params, below.trees)]) else below
  {
    hide HeadAt;
    var ids := [id];
    assert ids[1..] == [];
    assert Unfold(exprs, ids[1..], depth) == Forest([]);
  }

  predicate Sized(t: Tree, order: seq<u32>)
    requires Distinct(order)
  {
    match t
    case Var(_, _, _) => true
    case Const(_, _, args) => |args| <= 255
    case Node(_, _, kids) => 1 <= |kids| <= 255 && WellFormed(kids) && WellFormed(Canon(kids, order).trees)
  }

  /** Numbering and serializing a single tree. */
  lemma OneTree(t: Tree, order: seq<u32>)
    requires Distinct(order) && Sized(t, order)
    ensures WellFormed([t]) && WellFormed(Canon([t], order).trees)
    ensures Canon([t], order).order == After(t, order)
    ensures WellFormed([Numbered(t, order)])
    ensures Serialize(Canon([t], order).trees) == Bytes(Numbered(t, order))
  {
    hide LE32, Record, ConstArgs, Number, Met;
    var one := [t];
    assert one[1..] == [];
    var us := [Numbered(t, order)];
    assert us[1..] == [] && us + [] == us;
    assert Canon(one, order).trees == us;
    assert Serialize(us) == Bytes(us[0]) + Serialize(us[1..]);
  }

  lemma {:induction false} ConstArgsSnoc(args: seq<u32>, i: nat)
    requires i < |args|
    ensures ConstArgs(args[..i + 1]) == ConstArgs(args[..i]) + LE32(args[i])
  {
    hide LE32;
    if i == 0 {
      assert args[..1][1..] == [] && args[..0] == [];
    } else {
      ConstArgsSnoc(args[1..], i - 1);
      assert args[1..][..i] == args[..i + 1][1..] && args[1..][..i - 1] == args[..i][1..];
      var x, y, z := LE32(args[0]), ConstArgs(args[1..][..i - 1]), LE32(args[i]);
      assert x + (y + z) == x + y + z;
    }
  }

  method PushConst(e: Expr, b: OutBuf)
    requires b.Valid() && !b.oom && |e.args| <= 255
    modifies b, b.data
    ensures b.Valid() && !b.oom
    ensures b.Contents() == old(b.Contents()) + Record(TAG_LEAF_CONST, e.code, |e.args|, e.params) + ConstArgs(e.args)
    ensures b.data == old(b.data) || fresh(b.data)
  {
    hide LE32, ConstArgs, Record;
    b.Push(Record(TAG_LEAF_CONST, e.code, |e.args|, e.params));
    PushWords(e.args, b);
  }

  /** The loop over the raw argument words. */
  method PushWords(args: seq<u32>, b: OutBuf)
    requires b.Valid() && !b.oom
    modifies b, b.data
    ensures b.Valid() && !b.oom && b.Contents() == old(b.Contents()) + ConstArgs(args)
    ensures b.data == old(b.data) || fresh(b.data)
  {
    hide LE32, ConstArgs;
    ghost var c := b.Contents();
    NoConstArgs(c);
    assert args[..0] == [];
    for i := 0 to |args|
      invariant b.Valid() && !b.oom && b.Contents() == c + ConstArgs(args[..i])
      invariant b.data == old(b.data) || fresh(b.data)
    {
      ConstArgsSnoc(args, i);
      Grouped(c, ConstArgs(args[..i]), LE32(args[i]));
      b.Push(LE32(args[i]));
    }
    assert args[..|args|] == args;
  }

  lemma NoConstArgs(c: seq<u8>)
    ensures c + ConstArgs([]) == c
  {
  }

  lemma Grouped(a: seq<u8>, b: seq<u8>, c: seq<u8>)
    ensures a + b + c == a + (b + c)
  {
  }

  method PushVar(e: Expr, id: u32, r: Renamer, b: OutBuf)
    requires r.Valid() && b.Valid() && !b.oom && id != ProbeTable.EMPTY && e.args == []
    requires var rs: set<object>, bs: set<object> := {r, r.keys, r.vals}, {b, b.data}; rs !! bs
    modifies r, r.keys, r.vals, b, b.data
    ensures r.Valid() && b.Valid() && !b.oom
    ensures r.order == Met(old(r.order), id)
    ensures b.Contents() == old(b.Contents()) + Record(TAG_VAR, e.code, 0, e.params) + LE32(Number(old(r.order), id))
    ensures r.keys == old(r.keys) || fresh(r.keys)
    ensures r.vals == old(r.vals) || fresh(r.vals)
    ensures b.data == old(b.data) || fresh(b.data)
  {
    hide LE32, Record, Renames, Met, Number, Distinct;
    var idx := r.Intern(id);
    b.Push(Record(TAG_VAR, e.code, |e.args|, e.params));
    b.Push(LE32(idx));
  }

  lemma WalkHead(exprs: seq<Expr>, id: u32, depth: nat)
    requires Unfold(exprs, [id], depth) != Deep
    ensures depth > 0
    ensures HeadAt(exprs, id).None? ==> Unfold(exprs, [id], depth) == Dangling
  {
  }

  lemma WalkNothing(exprs: seq<Expr>, ids: seq<u32>, depth: nat, o: seq<u32>, c: seq<u8>)
    requires Distinct(o)
    ensures Unfold(exprs, ids, depth) == Joined([], Unfold(exprs, ids[0..], depth))
    ensures Encoded(Forest([]), o, c, o, c)
  {
    assert ids[0..] == ids;
    var u := Unfold(exprs, ids, depth);
    if u.Forest? { assert [] + u.trees == u.trees; }
    assert c + [] == c;
  }

  lemma WalkEnd(exprs: seq<Expr>, ids: seq<u32>, depth: nat, pre: seq<Tree>)
    requires Unfold(exprs, ids, depth) == Joined(pre, Unfold(exprs, ids[|ids|..], depth))
    ensures Unfold(exprs, ids, depth) == Forest(pre)
  {
    assert ids[|ids|..] == [] && pre + [] == pre;
    assert Unfold(exprs, [], depth) == Forest([]);
  }

  /**
   The recursive walk. It fails exactly when it meets an id that heads no expression; otherwise
   it appends the canonical records of the unfolded tree and extends the numbering.
   `depth` bounds the recursion of this call and does not affect what it computes.
   */
  method Encode(id: u32, exprs: seq<Expr>, st: SlotTable, r: Renamer, b: OutBuf, ghost depth: nat)
    requires Ready(exprs, st, r, b) && !b.oom && Unfold(exprs, [id], depth) != Deep
    modifies r, r.keys, r.vals, b, b.data
    ensures Ready(exprs, st, r, b)
    ensures r.keys == old(r.keys) || fresh(r.keys)
    ensures r.vals == old(r.vals) || fresh(r.vals)
    ensures b.data == old(b.data) || fresh(b.data)
    ensures b.oom <==> Unfold(exprs, [id], depth) == Dangling
    ensures !b.oom ==> Encoded(Unfold(exprs, [id], depth), old(r.order), old(b.Contents()), r.order, b.Contents())
    decreases depth, 0
  {
    hide HeadAt, Unfold, Encoded, Record, LE32, ConstArgs, Distinct, Renames, Number, Met, ProbeTable.Table, Heads;
    ghost var o, c := r.order, b.Contents();
    WalkHead(exprs, id, depth);
    var found := st.Get(id, exprs);
    if found.None? {
      b.oom := true;
      return;
    }
    var e := exprs[found.value];
    if IsLeaf(e) {
      EncodeLeaf(id, found.value, exprs, st, r, b, depth);
    } else {
      InternalUnfolds(exprs, id, depth, found.value);
      EncodeArgs(e.args, exprs, st, r, b, depth - 1);
      if b.oom { return; }
      InternalNode(exprs, id, depth, found.value, o, c, r.order, b.Contents());
      b.Push(Record(TAG_INTERNAL, e.code, |e.args|, e.params));
    }
  }

  /** A variable or a constant. */
  method EncodeLeaf(id: u32, i: nat, exprs: seq<Expr>, st: SlotTable, r: Renamer, b: OutBuf, ghost depth: nat)
    requires Ready(exprs, st, r, b) && !b.oom && depth > 0
    requires HeadAt(exprs, id) == Some(i) && i < |exprs| && IsLeaf(exprs[i])
    modifies r, r.keys, r.vals, b, b.data
    ensures Ready(exprs, st, r, b) && !b.oom
    ensures r.keys == old(r.keys) || fresh(r.keys)
    ensures r.vals == old(r.vals) || fresh(r.vals)
    ensures b.data == old(b.data) || fresh(b.data)
    ensures Unfold(exprs, [id], depth).Forest?
    ensures Encoded(Unfold(exprs, [id], depth), old(r.order), old(b.Contents()), r.order, b.Contents())
  {
    hide HeadAt, Unfold, Encoded, Record, LE32, ConstArgs, Distinct, Renames, Number, Met, ProbeTable.Table, Heads;
    var e := exprs[i];
    if IsVar(e.code) {
      VarLeaf(exprs, id, depth, i, r.order, b.Contents());
      PushVar(e, id, r, b);
    } else {
      ConstLeaf(exprs, id, depth, i, r.order, b.Contents());
      PushConst(e, b);
    }
  }

  /** The argument loop of an internal node. */
  method EncodeArgs(ids: seq<u32>, exprs: seq<Expr>, st: SlotTable, r: Renamer, b: OutBuf, ghost depth: nat)
    requires Ready(exprs, st, r, b) && !b.oom && Unfold(exprs, ids, depth) != Deep
    modifies r, r.keys, r.vals, b, b.data
    ensures Ready(exprs, st, r, b)
    ensures r.keys == old(r.keys) || fresh(r.keys)
    ensures r.vals == old(r.vals) || fresh(r.vals)
    ensures b.data == old(b.data) || fresh(b.data)
    ensures b.oom <==> Unfold(exprs, ids, depth) == Dangling
    ensures !b.oom ==> Encoded(Unfold(exprs, ids, depth), old(r.order), old(b.Contents()), r.order, b.Contents())
    decreases depth, 1
  {
    hide HeadAt, Unfold, Encoded, Distinct, Renames, ProbeTable.Table, Heads;
    ghost var o, c, pre: seq<Tree> := r.order, b.Contents(), [];
    WalkNothing(exprs, ids, depth, o, c);
    for i := 0 to |ids|
      invariant Ready(exprs, st, r, b) && !b.oom
      invariant r.keys == old(r.keys) || fresh(r.keys)
      invariant r.vals == old(r.vals) || fresh(r.vals)
      invariant b.data == old(b.data) || fresh(b.data)
      invariant |pre| == i && Unfold(exprs, ids, depth) == Joined(pre, Unfold(exprs, ids[i..], depth))
      invariant Distinct(o) && Encoded(Forest(pre), o, c, r.order, b.Contents())
    {
      ghost var o1, c1, h := r.order, b.Contents(), Unfold(exprs, [ids[i]], depth);
      StepOver(exprs, ids, depth, i, pre);
      Encode(ids[i], exprs, st, r, b, depth);
      if b.oom { return; }
      EncodedMore(pre, h.trees, o, c, o1, c1, r.order, b.Contents());
      pre := pre + h.trees;
    }
    WalkEnd(exprs, ids, depth, pre);
  }

  // ---------------------------------------------------------------- hash

  function ToBytes(bs: seq<u8>): (r: seq<bv8>)
    ensures |r| == |bs|
  {
    seq(|bs|, i requires 0 <= i < |bs| => bs[i] as bv8)
  }

  /** The hash of a tree is SipHash with a zero key over its canonical stream. */
  function TreeHash(t: Tree): bv64
    requires WellFormed([t])
  {
    SipHash.Digest(ToBytes(Stream(t)), 0, 0)
  }

  /** zovia_canonical_hash: the hash of the unfolded tree, or 0 if an id does not resolve. */
  method Hash(root: u32, exprs: seq<Expr>, ghost depth: nat) returns (h: bv64)
    requires ValidTable(exprs) && Unfold(exprs, [root], depth) != Deep
    ensures var u := Unfold(exprs, [root], depth);
            if u.Forest? then |u.trees| == 1 && WellFormed(u.trees) && h == TreeHash(u.trees[0]) else h == 0
  {
    var r := new Renamer();
    var b := new OutBuf();
    var st := new SlotTable.Build(exprs);
    Encode(root, exprs, st, r, b, depth);
    h := 0;
    if !b.oom {
      var bytes := b.data[..b.len];
      ghost var u := Unfold(exprs, [root], depth);
      assert u.trees == [u.trees[0]];
      assert bytes == Stream(u.trees[0]);
      h := SipHash.SipHash24(ToBytes(bytes), 0, 0);
    }
  }

  /**
   The lookup contract: expressions that are equal up to variable names, in whatever tables and
   however much of each table is shared or unused, hash alike. Different streams never come from
   equivalent expressions, nor equal streams from others.
   */
  lemma EquivalentExpressionsHashAlike(
      exprs: seq<Expr>, root: u32, d: nat, exprs': seq<Expr>, root': u32, d': nat)
    requires ValidTable(exprs) && ValidTable(exprs')
    requires Unfold(exprs, [root], d).Forest? && Unfold(exprs', [root'], d').Forest?
    ensures var t, t' := Unfold(exprs, [root], d).trees[0], Unfold(exprs', [root'], d').trees[0];
            && WellFormed([t]) && WellFormed([t'])
            && (AlphaEquivalent(t, t') <==> Stream(t) == Stream(t'))
            && (AlphaEquivalent(t, t') ==> TreeHash(t) == TreeHash(t'))
  {
    hide Unfold, Stream, AlphaEquivalent, WellFormed, ValidTable;
    var ts, ts' := Unfold(exprs, [root], d).trees, Unfold(exprs', [root'], d').trees;
    UnfoldedIsWellFormed(exprs, [root], d);
    UnfoldedIsWellFormed(exprs', [root'], d');
    assert ts == [ts[0]] && ts' == [ts'[0]];
    StreamDecoder.SameStreamIffAlphaEquivalent(ts[0], ts'[0]);
  }
}
