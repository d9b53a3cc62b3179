/** The two probe tables of the canonical encoder, each refining a plain map. */
module EncoderTables {
  import opened Words
  import opened CanonicalTree
  import opened ProbeTable

  function Names(order: seq<u32>): set<u32> {
    set x | x in order
  }

  /** The map a list of names stands for: each name to its position. */
  function Numbers(order: seq<u32>): (m: map<u32, u32>)
    requires Distinct(order)
    ensures m.Keys == Names(order)
  {
    map x | x in order :: Number(order, x)
  }

  lemma NumbersOfMet(order: seq<u32>, id: u32)
    requires Distinct(order) && id !in order
    ensures Numbers(Met(order, id)) == Numbers(order)[id := Number(order, id)]
  {
    var o' := Met(order, id);
    forall x | x in o' ensures Numbers(o')[x] == Numbers(order)[id := Number(order, id)][x] {
      assert o'[Number(o', x)] == x;
      if x != id { assert o'[Number(order, x)] == x; }
    }
  }

  lemma {:induction false} NamesCard(order: seq<u32>)
    ensures |Names(order)| <= |order|
  {
    if order != [] {
      NamesCard(order[1..]);
      assert Names(order) == {order[0]} + Names(order[1..]);
    }
  }

  /** The bindings found in the first `n` cells. */
  function Prefix(keys: seq<u32>, vals: seq<u32>, n: nat): (m: map<u32, u32>)
    requires n <= |keys| == |vals|
    ensures |m| <= n
    ensures forall p :: 0 <= p < n && keys[p] != EMPTY ==> keys[p] in m
  {
    if n == 0 then map[]
    else if keys[n - 1] == EMPTY then Prefix(keys, vals, n - 1)
    else Prefix(keys, vals, n - 1)[keys[n - 1] := vals[n - 1]]
  }

  lemma {:induction false} PrefixBindings(keys: seq<u32>, vals: seq<u32>, m: map<u32, u32>, n: nat, k: u32)
    requires Table(keys, vals, m) && n <= |keys| == |vals| && k in Prefix(keys, vals, n)
    ensures k != EMPTY && k in keys[..n] && k in m && Prefix(keys, vals, n)[k] == m[k]
  {
    hide Table;
    if keys[n - 1] != EMPTY && keys[n - 1] == k {
      Stored(keys, vals, m, n - 1);
      assert keys[..n][n - 1] == k;
    } else {
      PrefixBindings(keys, vals, m, n - 1, k);
      assert keys[..n - 1] <= keys[..n];
    }
  }

  lemma PrefixIsAll(keys: seq<u32>, vals: seq<u32>, m: map<u32, u32>)
    requires Table(keys, vals, m)
    ensures Prefix(keys, vals, |keys|) == m
  {
    var pre := Prefix(keys, vals, |keys|);
    forall k | k in pre ensures k in m && pre[k] == m[k] {
      PrefixBindings(keys, vals, m, |keys|, k);
    }
    forall k | k in m ensures k in pre {
      var p :| 0 <= p < |keys| && keys[p] == k;
    }
  }

  lemma NotYetMet(keys: seq<u32>, vals: seq<u32>, m: map<u32, u32>, i: nat)
    requires Table(keys, vals, m) && i < |keys| == |vals| && keys[i] != EMPTY
    ensures keys[i] !in Prefix(keys, vals, i)
  {
    if keys[i] in Prefix(keys, vals, i) { PrefixBindings(keys, vals, m, i, keys[i]); }
  }

  /** Insert a binding known to be new: probe for the first empty cell and fill it. */
  method Place(keys: array<u32>, vals: array<u32>, key: u32, val: u32, ghost m: map<u32, u32>)
    requires keys != vals && Table(keys[..], vals[..], m) && |m| < keys.Length
    requires key != EMPTY && key !in m
    modifies keys, vals
    ensures Table(keys[..], vals[..], m[key := val])
  {
    ghost var k, v := keys[..], vals[..];
    SpareCell(k, v, m);
    var j, d := FindEmpty(keys, key);
    Inserted(k, v, m, key, val, d);
    keys[j], vals[j] := key, val;
    assert keys[..] == k[j := key] && vals[..] == v[j := val];
  }

  /** Arrays of twice the size with the same bindings. */
  method Rehashed(keys: array<u32>, vals: array<u32>, ghost m: map<u32, u32>) returns (nk: array<u32>, nv: array<u32>)
    requires 0 < keys.Length == vals.Length && Table(keys[..], vals[..], m)
    ensures nk != nv && fresh(nk) && fresh(nv) && nk.Length == nv.Length == 2 * keys.Length
    ensures Table(nk[..], nv[..], m)
  {
    hide Table;
    nk := new u32[keys.Length * 2](_ => EMPTY);
    nv := new u32[keys.Length * 2];
    EmptyTable(nk[..], nv[..]);
    ghost var k, v := keys[..], vals[..];
    for i := 0 to keys.Length
      invariant keys[..] == k && vals[..] == v
      invariant Table(nk[..], nv[..], Prefix(k, v, i))
    {
      if keys[i] != EMPTY {
        NotYetMet(k, v, m, i);
        Place(nk, nv, keys[i], vals[i], Prefix(k, v, i));
      }
    }
    PrefixIsAll(k, v, m);
  }

  // ---------------------------------------------------------------- renamer

  /** Cells holding exactly the numbering of `order`, at most half of them full. */
  ghost predicate Renames(keys: seq<u32>, vals: seq<u32>, order: seq<u32>) {
    && 16 <= |keys| == |vals| && PowerOfTwo(|keys|)
    && Distinct(order) && 2 * |order| <= |keys|
    && Table(keys, vals, Numbers(order))
  }

  /** What a probe for `id` may conclude from the cell it stopped at. */
  lemma Interned(keys: seq<u32>, vals: seq<u32>, order: seq<u32>, id: u32, j: nat, d: nat)
    requires Renames(keys, vals, order) && 2 * |order| < |keys| && id != EMPTY
    requires d < |keys| && j == Cell(id, d, |keys|) && (keys[j] == EMPTY || keys[j] == id)
    requires forall e :: 0 <= e < d ==> keys[Cell(id, e, |keys|)] != EMPTY && keys[Cell(id, e, |keys|)] != id
    ensures Number(order, id) < EMPTY
    ensures keys[j] == id ==> Met(order, id) == order && vals[j] == Number(order, id)
    ensures keys[j] == EMPTY ==> Met(order, id) == order + [id] && Number(order, id) == |order| < EMPTY
                                 && Renames(keys[j := id], vals[j := |order|], Met(order, id))
  {
    hide Home, Cell, Dist, Table, Numbers;
    NamesFit(keys, vals, order, id);
    if keys[j] == EMPTY {
      MissMeansAbsent(keys, vals, Numbers(order), id, d);
      Inserted(keys, vals, Numbers(order), id, |order|, d);
      NumbersOfMet(order, id);
    } else {
      FoundNumber(keys, vals, order, j);
    }
  }

  /** A full cell holds a name that was met, with its number. */
  lemma FoundNumber(keys: seq<u32>, vals: seq<u32>, order: seq<u32>, j: nat)
    requires Distinct(order) && Table(keys, vals, Numbers(order)) && j < |keys| == |vals| && keys[j] != EMPTY
    ensures keys[j] in order && Met(order, keys[j]) == order && vals[j] == Number(order, keys[j])
  {
    Stored(keys, vals, Numbers(order), j);
    hide Table;
  }

  /** Names are never the empty marker, so neither are their numbers. */
  lemma NamesFit(keys: seq<u32>, vals: seq<u32>, order: seq<u32>, id: u32)
    requires Distinct(order) && Table(keys, vals, Numbers(order)) && id != EMPTY
    ensures Number(order, id) < EMPTY && (id !in order ==> |order| < EMPTY)
  {
    assert EMPTY !in order by { assert EMPTY !in Numbers(order); }
    hide Table;
    DistinctBelow(Met(order, id), EMPTY);
  }

  lemma RoomToProbe(keys: seq<u32>, vals: seq<u32>, order: seq<u32>)
    requires Renames(keys, vals, order)
    ensures |keys| == |vals| > 0 && 2 * |order| <= |keys| && EMPTY in keys
  {
    NamesCard(order);
    assert |Numbers(order)| == |Numbers(order).Keys|;
    SpareCell(keys, vals, Numbers(order));
  }

  class Renamer {
    var keys: array<u32>
    var vals: array<u32>
    var used: nat
    var next: u32
    ghost var order: seq<u32>

    ghost predicate Valid()
      reads this, keys, vals
    {
      keys != vals && used == next == |order| && Distinct(order) && Renames(keys[..], vals[..], order)
    }

    constructor ()
      ensures Valid() && order == [] && keys.Length == 16 && fresh(keys) && fresh(vals)
    {
      keys := new u32[16](_ => EMPTY);
      vals := new u32[16];
      used, next, order := 0, 0, [];
      new;
      EmptyTable(keys[..], vals[..]);
      assert Numbers([]) == map[];
      PowerDoubled(1); PowerDoubled(2); PowerDoubled(4); PowerDoubled(8);
    }

    /** Doubles the capacity and rehashes; the names and their numbers stay as they are. */
    method Grow()
      requires Valid()
      modifies this
      ensures Valid() && order == old(order) && keys.Length == 2 * old(keys.Length)
      ensures fresh(keys) && fresh(vals)
    {
      PowerDoubled(keys.Length);
      hide Table, PowerOfTwo, Distinct, Numbers;
      keys, vals := Rehashed(keys, vals, Numbers(order));
    }

    /** The number of `id`: the one it has, or the next one if it is met for the first time. */
    method Intern(id: u32) returns (idx: u32)
      requires Valid() && id != EMPTY
      modifies this, keys, vals
      ensures Valid() && order == Met(old(order), id) && idx == Number(old(order), id)
      ensures idx != EMPTY
      ensures keys == old(keys) || fresh(keys)
      ensures vals == old(vals) || fresh(vals)
    {
      hide Renames, Table, Cell, Home, Dist, Number, Met, Distinct, IndexOf;
      RoomToProbe(keys[..], vals[..], order);
      if used * 2 >= keys.Length { Grow(); }
      ghost var k, v := keys[..], vals[..];
      RoomToProbe(k, v, order);
      var j, d := FindKey(keys, id);
      Interned(k, v, order, id, j, d);
      if keys[j] != EMPTY { return vals[j]; }
      keys[j] := id;
      vals[j] := next;
      assert keys[..] == k[j := id] && vals[..] == v[j := next];
      used := used + 1;
      idx := next;
      next := next + 1;
      order := order + [id];
    }
  }

  // ---------------------------------------------------------------- slot table

  /** Head slots of the first `n` expressions to their array indices. */
  function Heads(exprs: seq<Expr>, n: nat): map<u32, u32>
    requires ValidTable(exprs) && n <= |exprs|
  {
    if n == 0 then map[]
    else
      SlotsAtLeast(exprs, n - 1);
      Heads(exprs, n - 1)[SlotOf(exprs, n - 1) := n - 1]
  }

  lemma {:induction false} HeadsAreSlots(exprs: seq<Expr>, n: nat)
    requires ValidTable(exprs) && n <= |exprs|
    ensures |Heads(exprs, n)| <= n
    ensures forall s :: s in Heads(exprs, n) ==> Heads(exprs, n)[s] < n && SlotOf(exprs, Heads(exprs, n)[s]) == s
    ensures forall i :: 0 <= i < n ==> SlotOf(exprs, i) in Heads(exprs, n)
  {
    hide ValidTable, SlotOf;
    if n > 0 {
      HeadsAreSlots(exprs, n - 1);
      SlotsAtLeast(exprs, n - 1);
    }
  }

  lemma NextHead(exprs: seq<Expr>, i: nat)
    requires ValidTable(exprs) && i < |exprs|
    ensures i <= SlotOf(exprs, i) < EMPTY
    ensures SlotOf(exprs, i) !in Heads(exprs, i) && |Heads(exprs, i)| <= i
    ensures Heads(exprs, i + 1) == Heads(exprs, i)[SlotOf(exprs, i) := i]
  {
    SlotsAtLeast(exprs, i);
    HeadsAreSlots(exprs, i);
    var s, m := SlotOf(exprs, i), Heads(exprs, i);
    if s in m { SlotsIncrease(exprs, m[s], i); }
  }

  lemma {:induction false} SlotsAtLeast(exprs: seq<Expr>, i: nat)
    requires i <= |exprs|
    ensures i <= SlotOf(exprs, i)
  {
    if i > 0 { SlotsAtLeast(exprs, i - 1); }
  }

  class SlotTable {
    var keys: array<u32>
    var vals: array<u32>

    ghost predicate Valid(exprs: seq<Expr>)
      reads this, keys, vals
    {
      && keys != vals && PowerOfTwo(keys.Length)
      && ValidTable(exprs)
      && 2 * |exprs| < keys.Length
      && Table(keys[..], vals[..], Heads(exprs, |exprs|))
    }

    constructor Build(exprs: seq<Expr>)
      requires ValidTable(exprs)
      ensures Valid(exprs) && fresh(keys) && fresh(vals)
    {
      assert Heads(exprs, 0) == map[];
      hide Table, Heads, ValidTable, PowerOfTwo;
      var cap := 16;
      assert PowerOfTwo(cap) by { PowerDoubled(1); PowerDoubled(2); PowerDoubled(4); PowerDoubled(8); }
      while cap < |exprs| * 2 + 1
        invariant 0 < cap && PowerOfTwo(cap)
        decreases |exprs| * 2 + 1 - cap
      {
        PowerDoubled(cap);
        cap := cap * 2;
      }
      var k := new u32[cap](_ => EMPTY);
      var v := new u32[cap];
      EmptyTable(k[..], v[..]);
      var slot: nat := 0;
      for i := 0 to |exprs|
        invariant slot == SlotOf(exprs, i)
        invariant k != v && fresh(k) && fresh(v) && k.Length == v.Length == cap
        invariant Table(k[..], v[..], Heads(exprs, i))
      {
        NextHead(exprs, i);
        Place(k, v, slot, i, Heads(exprs, i));
        slot := slot + 1 + |exprs[i].args|;
      }
      keys, vals := k, v;
    }

    /** Finds exactly the head slots: `i` when `slot` is where expression `i` starts, else nothing. */
    method Get(slot: u32, exprs: seq<Expr>) returns (r: Option<nat>)
      requires Valid(exprs)
      ensures r == HeadAt(exprs, slot)
    {
      ghost var m := Heads(exprs, |exprs|);
      HeadsAreSlots(exprs, |exprs|);
      hide Heads, Home, Cell, Dist, HeadAt;
      SpareCell(keys[..], vals[..], m);
      var j, d := FindKey(keys, slot);
      if keys[j] != EMPTY {
        HeadIsUnique(exprs, m[slot]);
        return Some(vals[j]);
      }
      if slot != EMPTY { MissMeansAbsent(keys[..], vals[..], m, slot, d); }
      return None;
    }
  }
}
