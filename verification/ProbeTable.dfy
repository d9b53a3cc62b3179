/**
 Open addressing with linear probing, as both tables of the encoder use it: `Table` says that
 an array of keys and an array of values hold exactly a finite map, with every stored key
 reachable from its home cell through full cells.
 */
module ProbeTable {
  import opened Words

  const EMPTY: u32 := U32_MAX

  /** (key * 2654435761u) & (cap - 1), the capacity being a power of two. */
  function Home(key: u32, cap: nat): (j: nat)
    requires 0 < cap
    ensures j < cap
  {
    key * 2654435761 % 0x1_0000_0000 % cap
  }

  /** (j + 1) & (cap - 1) */
  function NextCell(j: nat, cap: nat): (r: nat)
    requires j < cap
    ensures r < cap
  {
    if j + 1 == cap then 0 else j + 1
  }

  /** The cell `d` steps after the home of `key`. */
  function Cell(key: u32, d: nat, cap: nat): (j: nat)
    requires d < cap
    ensures j < cap
  {
    var h := Home(key, cap);
    if h + d < cap then h + d else h + d - cap
  }

  /** How many steps after its home cell `j` lies; inverts `Cell`. */
  function Dist(key: u32, j: nat, cap: nat): (d: nat)
    requires j < cap
    ensures d < cap && Cell(key, d, cap) == j
    ensures forall e: nat :: e < cap && Cell(key, e, cap) == j ==> e == d
  {
    var h := Home(key, cap);
    if h <= j then j - h else j + cap - h
  }

  predicate Table(keys: seq<u32>, vals: seq<u32>, m: map<u32, u32>) {
    && 0 < |keys| == |vals|
    && EMPTY !in m
    && (forall p :: 0 <= p < |keys| && keys[p] != EMPTY ==> keys[p] in m && m[keys[p]] == vals[p])
    && (forall k :: k in m ==> k in keys)
    && (forall p, q :: 0 <= p < q < |keys| && keys[p] != EMPTY ==> keys[p] != keys[q])
    && (forall p, d :: 0 <= p < |keys| && keys[p] != EMPTY && 0 <= d < Dist(keys[p], p, |keys|)
          ==> keys[Cell(keys[p], d, |keys|)] != EMPTY)
  }

  lemma EmptyTable(keys: seq<u32>, vals: seq<u32>)
    requires 0 < |keys| == |vals| && forall p :: 0 <= p < |keys| ==> keys[p] == EMPTY
    ensures Table(keys, vals, map[])
  {
  }

  /** A table with fewer bindings than cells has an empty cell, so a probe run ends. */
  lemma SpareCell(keys: seq<u32>, vals: seq<u32>, m: map<u32, u32>)
    requires Table(keys, vals, m) && |m| < |keys|
    ensures EMPTY in keys
  {
    if EMPTY !in keys { DistinctWithin(keys, m.Keys); }
  }

  lemma Stored(keys: seq<u32>, vals: seq<u32>, m: map<u32, u32>, j: nat)
    requires Table(keys, vals, m) && j < |keys| && keys[j] != EMPTY
    ensures keys[j] in m && m[keys[j]] == vals[j]
  {
  }

  /** A run over full cells holding other keys, up to an empty cell, shows the key absent. */
  lemma MissMeansAbsent(keys: seq<u32>, vals: seq<u32>, m: map<u32, u32>, key: u32, d: nat)
    requires Table(keys, vals, m) && key != EMPTY && d < |keys|
    requires keys[Cell(key, d, |keys|)] == EMPTY
    requires forall e :: 0 <= e < d ==> keys[Cell(key, e, |keys|)] != key
    ensures key !in m
  {
  }

  /** Filling the first empty cell of the probe run adds one binding and keeps all others. */
  lemma Inserted(keys: seq<u32>, vals: seq<u32>, m: map<u32, u32>, key: u32, val: u32, d: nat)
    requires Table(keys, vals, m) && key != EMPTY && d < |keys| && key !in m
    requires keys[Cell(key, d, |keys|)] == EMPTY
    requires forall e :: 0 <= e < d ==> keys[Cell(key, e, |keys|)] != EMPTY
    ensures var j := Cell(key, d, |keys|); Table(keys[j := key], vals[j := val], m[key := val])
  {
    var j := Cell(key, d, |keys|);
    var keys', vals', m' := keys[j := key], vals[j := val], m[key := val];
    forall k | k in m' ensures k in keys' {
      if k == key { assert keys'[j] == key; }
      else { var p :| 0 <= p < |keys| && keys[p] == k; assert keys'[p] == k; }
    }
    forall p, e | 0 <= p < |keys| && keys'[p] != EMPTY && 0 <= e < Dist(keys'[p], p, |keys|)
      ensures keys'[Cell(keys'[p], e, |keys|)] != EMPTY
    {
      if p == j { assert Dist(key, j, |keys|) == d; }
    }
  }

  /** The probe loop of a lookup: the first cell that is empty or holds `key`. */
  method FindKey(keys: array<u32>, key: u32) returns (j: nat, ghost d: nat)
    requires 0 < keys.Length && EMPTY in keys[..]
    ensures d < keys.Length && j == Cell(key, d, keys.Length)
    ensures keys[j] == EMPTY || keys[j] == key
    ensures forall e :: 0 <= e < d ==> keys[Cell(key, e, keys.Length)] != EMPTY && keys[Cell(key, e, keys.Length)] != key
  {
    ghost var p: nat :| p < keys.Length && keys[p] == EMPTY;
    j, d := Home(key, keys.Length), 0;
    while keys[j] != EMPTY && keys[j] != key
      invariant d <= Dist(key, p, keys.Length) && j == Cell(key, d, keys.Length)
      invariant forall e :: 0 <= e < d ==> keys[Cell(key, e, keys.Length)] != EMPTY && keys[Cell(key, e, keys.Length)] != key
      decreases keys.Length - d
    {
      j, d := NextCell(j, keys.Length), d + 1;
    }
  }

  /** The probe loop of an insertion known to be new: the first empty cell. */
  method FindEmpty(keys: array<u32>, key: u32) returns (j: nat, ghost d: nat)
    requires 0 < keys.Length && key != EMPTY && EMPTY in keys[..]
    ensures d < keys.Length && j == Cell(key, d, keys.Length) && keys[j] == EMPTY
    ensures forall e :: 0 <= e < d ==> keys[Cell(key, e, keys.Length)] != EMPTY
  {
    ghost var p: nat :| p < keys.Length && keys[p] == EMPTY;
    j, d := Home(key, keys.Length), 0;
    while keys[j] != EMPTY
      invariant d <= Dist(key, p, keys.Length) && j == Cell(key, d, keys.Length)
      invariant forall e :: 0 <= e < d ==> keys[Cell(key, e, keys.Length)] != EMPTY
      decreases keys.Length - d
    {
      j, d := NextCell(j, keys.Length), d + 1;
    }
  }

  ghost predicate PowerOfTwo(n: nat) {
    n == 1 || (n > 1 && n % 2 == 0 && PowerOfTwo(n / 2))
  }

  lemma PowerDoubled(n: nat)
    requires PowerOfTwo(n)
    ensures PowerOfTwo(2 * n)
  {
    assert 2 * n / 2 == n;
  }
}
