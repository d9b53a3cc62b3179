/** The bundle container: a two-pass layout writer, its reader, and the validity rules of the kernel. */
module Bundle {
  import opened Words

  const HEADER: nat := 16
  const ROW: nat := 28
  const MAGIC: u32 := 0x4246_4342

  datatype Entry = Entry(hash: int, kind: int, goal: seq<u8>, proof: seq<u8>)

  /** (x + 3) & ~3 */
  function Align4(x: nat): (r: nat)
    ensures r % 4 == 0 && x <= r < x + 4
  {
    (x + 3) / 4 * 4
  }

  // ---------------------------------------------------------------- layout

  /** Where the payloads of entry `i` begin; for `i == |ents|`, where the bundle ends. */
  function Start(ents: seq<Entry>, i: nat): (r: nat)
    requires i <= |ents|
    ensures r % 4 == 0 && HEADER + ROW * |ents| <= r
  {
    if i == 0 then HEADER + ROW * |ents|
    else
      Sum4(Start(ents, i - 1), Align4(|ents[i - 1].goal|));
      Sum4(Start(ents, i - 1) + Align4(|ents[i - 1].goal|), Align4(|ents[i - 1].proof|));
      Start(ents, i - 1) + Align4(|ents[i - 1].goal|) + Align4(|ents[i - 1].proof|)
  }

  function GoalAt(ents: seq<Entry>, i: nat): nat
    requires i < |ents|
  {
    Start(ents, i)
  }

  function ProofAt(ents: seq<Entry>, i: nat): (r: nat)
    requires i < |ents|
    ensures r % 4 == 0
  {
    Sum4(Start(ents, i), Align4(|ents[i].goal|));
    Start(ents, i) + Align4(|ents[i].goal|)
  }

  lemma Sum4(a: nat, b: nat)
    requires a % 4 == 0 && b % 4 == 0
    ensures (a + b) % 4 == 0
  {
  }

  function Total(ents: seq<Entry>): nat {
    Start(ents, |ents|)
  }

  lemma {:induction false} StartsGrow(ents: seq<Entry>, i: nat, j: nat)
    requires i <= j <= |ents|
    ensures Start(ents, i) <= Start(ents, j)
    decreases j - i
  {
    hide Align4;
    if i < j { StartsGrow(ents, i, j - 1); }
  }

  /** Everything the 32- and 64-bit fields must hold can be held. */
  predicate Fits(ents: seq<Entry>) {
    Total(ents) <= U32_MAX && forall i :: 0 <= i < |ents| ==> FieldsFit(ents[i])
  }

  predicate FieldsFit(e: Entry) {
    0 <= e.hash < 0x1_0000_0000_0000_0000 && 0 <= e.kind < 0x1_0000_0000
  }

  lemma RangesInside(ents: seq<Entry>, i: nat)
    requires i < |ents|
    ensures HEADER + ROW * |ents| <= GoalAt(ents, i)
    ensures GoalAt(ents, i) + |ents[i].goal| <= ProofAt(ents, i)
    ensures ProofAt(ents, i) + |ents[i].proof| <= Start(ents, i + 1) <= Total(ents)
  {
    hide Align4;
    StartsGrow(ents, i + 1, |ents|);
  }

  // ---------------------------------------------------------------- bytes

  /** The bytes and the zeros the writer adds after them: (4 - len % 4) % 4. */
  function PaddedTo4(b: seq<u8>): (r: seq<u8>)
    ensures |r| == Align4(|b|) && r[..|b|] == b
  {
    b + Repeated(0, (4 - |b| % 4) % 4)
  }

  function Head(n: u32, total: u32): (r: seq<u8>)
    ensures |r| == HEADER
  {
    LE32(MAGIC) + LE32(n) + LE32(total) + LE32(0)
  }

  function Row(ents: seq<Entry>, i: nat): (r: seq<u8>)
    requires i < |ents| && Fits(ents)
    ensures |r| == ROW
  {
    RangesInside(ents, i);
    LE64(ents[i].hash) + LE32(GoalAt(ents, i)) + LE32(|ents[i].goal|)
    + LE32(ProofAt(ents, i)) + LE32(|ents[i].proof|) + LE32(ents[i].kind)
  }

  function Rows(ents: seq<Entry>, n: nat): (r: seq<u8>)
    requires n <= |ents| && Fits(ents)
    ensures |r| == ROW * n
  {
    if n == 0 then [] else Rows(ents, n - 1) + Row(ents, n - 1)
  }

  function Payloads(ents: seq<Entry>, n: nat): (r: seq<u8>)
    requires n <= |ents|
    ensures |r| == Start(ents, n) - Start(ents, 0)
  {
    if n == 0 then []
    else Payloads(ents, n - 1) + PaddedTo4(ents[n - 1].goal) + PaddedTo4(ents[n - 1].proof)
  }

  function Image(ents: seq<Entry>): (r: seq<u8>)
    requires Fits(ents)
    ensures |r| == Total(ents)
  {
    Head(|ents|, Total(ents)) + Rows(ents, |ents|) + Payloads(ents, |ents|)
  }

  // ---------------------------------------------------------------- writer

  /** struct.pack of an unsigned field: an error when the value does not fit. */
  function Pack32(v: int): Option<seq<u8>> {
    if 0 <= v < 0x1_0000_0000 then Some(LE32(v)) else None
  }

  function Pack64(v: int): Option<seq<u8>> {
    if 0 <= v < 0x1_0000_0000_0000_0000 then Some(LE64(v)) else None
  }

  /** struct.pack('<QIIIII', ...) */
  function PackRow(e: Entry, goff: nat, poff: nat): Option<seq<u8>> {
    var h, go, gl := Pack64(e.hash), Pack32(goff), Pack32(|e.goal|);
    var po, pl, k := Pack32(poff), Pack32(|e.proof|), Pack32(e.kind);
    if h.Some? && go.Some? && gl.Some? && po.Some? && pl.Some? && k.Some?
    then Some(h.value + go.value + gl.value + po.value + pl.value + k.value) else None
  }

  lemma PackRowFits(ents: seq<Entry>, i: nat)
    requires i < |ents|
    ensures Fits(ents) ==> PackRow(ents[i], GoalAt(ents, i), ProofAt(ents, i)) == Some(Row(ents, i))
    ensures PackRow(ents[i], GoalAt(ents, i), ProofAt(ents, i)).None? ==> !Fits(ents)
  {
    hide LE32, LE64;
    RangesInside(ents, i);
  }

  /** First pass: where each payload will go. */
  method Layout(ents: seq<Entry>) returns (offs: seq<(nat, nat)>, end: nat)
    ensures |offs| == |ents| && end == Total(ents)
    ensures forall i :: 0 <= i < |ents| ==> offs[i] == (GoalAt(ents, i), ProofAt(ents, i))
  {
    var cur := HEADER + ROW * |ents|;
    offs := [];
    for k := 0 to |ents|
      invariant cur == Start(ents, k) && |offs| == k
      invariant forall i :: 0 <= i < k ==> offs[i] == (GoalAt(ents, i), ProofAt(ents, i))
    {
      var goff := cur;
      var poff := goff + Align4(|ents[k].goal|);
      offs := offs + [(goff, poff)];
      cur := poff + Align4(|ents[k].proof|);
    }
    end := cur;
  }

  /** Second pass: one row per entry; it fails exactly when some field does not fit. */
  method AppendRows(ents: seq<Entry>, offs: seq<(nat, nat)>, before: seq<u8>) returns (r: Option<seq<u8>>)
    requires |offs| == |ents|
    requires forall i :: 0 <= i < |ents| ==> offs[i] == (GoalAt(ents, i), ProofAt(ents, i))
    ensures r.None? ==> !Fits(ents)
    ensures r.Some? ==> |r.value| == |before| + ROW * |ents| && forall i :: 0 <= i < |ents| ==> FieldsFit(ents[i])
    ensures r.Some? && Fits(ents) ==> r.value == before + Rows(ents, |ents|)
  {
    hide Fits, PackRow, Rows, FieldsFit;
    var out := before;
    if Fits(ents) { NoRows(ents); }
    for k := 0 to |ents|
      invariant |out| == |before| + ROW * k
      invariant forall i :: 0 <= i < k ==> FieldsFit(ents[i])
      invariant Fits(ents) ==> out == before + Rows(ents, k)
    {
      var row := PackRow(ents[k], offs[k].0, offs[k].1);
      PackRowFits(ents, k);
      if row.None? { return None; }
      PackRowSize(ents, k);
      out := out + row.value;
      if Fits(ents) { RowsNext(ents, k, before); }
    }
    return Some(out);
  }

  lemma NoRows(ents: seq<Entry>)
    requires Fits(ents)
    ensures Rows(ents, 0) == []
  {
  }

  lemma RowsNext(ents: seq<Entry>, k: nat, before: seq<u8>)
    requires Fits(ents) && k < |ents|
    ensures before + Rows(ents, k) + Row(ents, k) == before + Rows(ents, k + 1)
  {
    hide Row, Fits;
    assert before + Rows(ents, k) + Row(ents, k) == before + (Rows(ents, k) + Row(ents, k));
  }

  lemma PackRowSize(ents: seq<Entry>, i: nat)
    requires i < |ents| && PackRow(ents[i], GoalAt(ents, i), ProofAt(ents, i)).Some?
    ensures FieldsFit(ents[i]) && |PackRow(ents[i], GoalAt(ents, i), ProofAt(ents, i)).value| == ROW
  {
    hide LE32, LE64;
  }

  /** Third pass: goal, zeros, proof, zeros, entry after entry. */
  method AppendPayloads(ents: seq<Entry>, before: seq<u8>) returns (out: seq<u8>)
    ensures out == before + Payloads(ents, |ents|)
  {
    out := before;
    for k := 0 to |ents|
      invariant out == before + Payloads(ents, k)
    {
      var g := Repeated(0, (4 - |ents[k].goal| % 4) % 4);
      var p := Repeated(0, (4 - |ents[k].proof| % 4) % 4);
      PayloadsNext(ents, k, before);
      out := out + ents[k].goal;
      out := out + g;
      out := out + ents[k].proof;
      out := out + p;
    }
  }

  lemma PayloadsNext(ents: seq<Entry>, k: nat, before: seq<u8>)
    requires k < |ents|
    ensures before + Payloads(ents, k) + ents[k].goal + Repeated(0, (4 - |ents[k].goal| % 4) % 4)
            + ents[k].proof + Repeated(0, (4 - |ents[k].proof| % 4) % 4)
         == before + Payloads(ents, k + 1)
  {
    var was, g, gz := Payloads(ents, k), ents[k].goal, Repeated(0, (4 - |ents[k].goal| % 4) % 4);
    var p, pz := ents[k].proof, Repeated(0, (4 - |ents[k].proof| % 4) % 4);
    Reassociate(before, was, g, gz, p, pz);
  }

  lemma Reassociate(a: seq<u8>, b: seq<u8>, c: seq<u8>, d: seq<u8>, e: seq<u8>, f: seq<u8>)
    ensures a + b + c + d + e + f == a + (b + (c + d) + (e + f))
  {
  }

  /**
   The writer succeeds exactly on what fits its fields, and then writes the image: the offsets of
   the first pass are where the third pass puts the bytes, and the size is patched in last.
   */
  method Build(ents: seq<Entry>) returns (r: Option<seq<u8>>)
    ensures r == if Fits(ents) then Some(Image(ents)) else None
  {
    hide LE32, Rows, Payloads;
    var n := Pack32(|ents|);
    if n.None? { return None; }
    var out := LE32(MAGIC) + n.value + LE32(0) + LE32(0);
    var offs, end := Layout(ents);
    var table := AppendRows(ents, offs, out);
    if table.None? { return None; }
    out := AppendPayloads(ents, table.value);
    var size := Pack32(|out|);
    assert |out| == Total(ents);
    if size.None? { return None; }
    out := out[..8] + size.value + out[12..];
    Patched(LE32(MAGIC) + n.value, LE32(0), LE32(0), Rows(ents, |ents|), Payloads(ents, |ents|), size.value);
    return Some(out);
  }

  /** Overwriting four bytes at offset 8. */
  lemma Patched(a: seq<u8>, old4: seq<u8>, d: seq<u8>, x: seq<u8>, y: seq<u8>, new4: seq<u8>)
    requires |a| == 8 && |old4| == |new4| == 4
    ensures var b := a + old4 + d + x + y; b[..8] + new4 + b[12..] == a + new4 + d + x + y
  {
    var b := a + old4 + d + x + y;
    assert b[..8] == a && b[12..] == d + x + y;
  }

  // ---------------------------------------------------------------- what stands where

  lemma {:induction false} RowInRows(ents: seq<Entry>, n: nat, i: nat)
    requires Fits(ents) && i < n <= |ents|
    ensures Holds(Rows(ents, n), ROW * i, Row(ents, i))
  {
    hide Row, Fits;
    var rows, last := Rows(ents, n - 1), Row(ents, n - 1);
    if i < n - 1 {
      RowInRows(ents, n - 1, i);
      HoldsPrefix(rows, last, ROW * i, Row(ents, i));
    } else {
      assert (rows + last)[ROW * i..ROW * i + ROW] == last;
    }
  }

  lemma HoldsPrefix(a: seq<u8>, b: seq<u8>, i: nat, x: seq<u8>)
    requires Holds(a, i, x)
    ensures Holds(a + b, i, x)
  {
    assert (a + b)[i..i + |x|] == a[i..i + |x|];
  }

  lemma HoldsSuffix(a: seq<u8>, b: seq<u8>, i: nat, x: seq<u8>)
    requires Holds(b, i, x)
    ensures Holds(a + b, |a| + i, x)
  {
    assert (a + b)[|a| + i..|a| + i + |x|] == b[i..i + |x|];
  }

  lemma {:induction false} PayloadInPayloads(ents: seq<Entry>, n: nat, i: nat)
    requires i < n <= |ents|
    ensures Start(ents, 0) <= GoalAt(ents, i) <= ProofAt(ents, i)
    ensures Holds(Payloads(ents, n), GoalAt(ents, i) - Start(ents, 0), ents[i].goal)
    ensures Holds(Payloads(ents, n), ProofAt(ents, i) - Start(ents, 0), ents[i].proof)
  {
    hide PaddedTo4, Holds, Align4;
    StartsGrow(ents, 0, i);
    var was, g, p := Payloads(ents, n - 1), PaddedTo4(ents[n - 1].goal), PaddedTo4(ents[n - 1].proof);
    assert Payloads(ents, n) == was + g + p;
    var go, po := GoalAt(ents, i) - Start(ents, 0), ProofAt(ents, i) - Start(ents, 0);
    if i < n - 1 {
      PayloadInPayloads(ents, n - 1, i);
      hide Payloads, Start, ProofAt;
      HoldsPrefix(was, g, go, ents[i].goal);
      HoldsPrefix(was + g, p, go, ents[i].goal);
      HoldsPrefix(was, g, po, ents[i].proof);
      HoldsPrefix(was + g, p, po, ents[i].proof);
    } else {
      assert go == |was| && po == |was + g|;
      hide Payloads, Start, ProofAt;
      AtFront(ents[i].goal, g);
      AtFront(ents[i].proof, p);
      HoldsSuffix(was, g, 0, ents[i].goal);
      HoldsPrefix(was + g, p, |was|, ents[i].goal);
      HoldsSuffix(was + g, p, 0, ents[i].proof);
    }
  }

  lemma AtFront(b: seq<u8>, p: seq<u8>)
    requires |b| <= |p| && p[..|b|] == b
    ensures Holds(p, 0, b)
  {
    assert p[0..0 + |b|] == p[..|b|];
  }

  lemma ImageHolds(ents: seq<Entry>, i: nat)
    requires Fits(ents) && i < |ents|
    ensures Holds(Image(ents), HEADER + ROW * i, Row(ents, i))
    ensures Holds(Image(ents), GoalAt(ents, i), ents[i].goal)
    ensures Holds(Image(ents), ProofAt(ents, i), ents[i].proof)
  {
    hide Rows, Payloads, Row, Head, Holds;
    var n := |ents|;
    var h, t, p := Head(n, Total(ents)), Rows(ents, n), Payloads(ents, n);
    RowInRows(ents, n, i);
    HoldsSuffix(h, t, ROW * i, Row(ents, i));
    HoldsPrefix(h + t, p, HEADER + ROW * i, Row(ents, i));
    PayloadInPayloads(ents, n, i);
    HoldsSuffix(h + t, p, GoalAt(ents, i) - Start(ents, 0), ents[i].goal);
    HoldsSuffix(h + t, p, ProofAt(ents, i) - Start(ents, 0), ents[i].proof);
  }

  // ---------------------------------------------------------------- reader

  datatype Fields = Fields(hash: u64, goff: nat, glen: nat, poff: nat, plen: nat, kind: u32)

  /** struct.unpack_from('<QIIIII', b, off) */
  function RowAt(b: seq<u8>, off: nat): Fields
    requires off + ROW <= |b|
  {
    Fields(U64At(b, off), U32At(b, off + 8), U32At(b, off + 12), U32At(b, off + 16), U32At(b, off + 20), U32At(b, off + 24))
  }

  /** b[lo:hi], which never fails: out-of-range bounds are clamped. */
  function Slice(b: seq<u8>, lo: nat, hi: nat): seq<u8> {
    var l, h := if lo < |b| then lo else |b|, if hi < |b| then hi else |b|;
    if l <= h then b[l..h] else []
  }

  function EntryAt(b: seq<u8>, off: nat): Entry
    requires off + ROW <= |b|
  {
    var f := RowAt(b, off);
    Entry(f.hash, f.kind, Slice(b, f.goff, f.goff + f.glen), Slice(b, f.poff, f.poff + f.plen))
  }

  /** Header check and one entry per row; `None` where the script raises. */
  function Parsed(b: seq<u8>): Option<seq<Entry>> {
    if |b| < HEADER || U32At(b, 0) != MAGIC then None
    else
      var n: nat := U32At(b, 4);
      if 0 < n && |b| < HEADER + ROW * n then None
      else Some(Entries(b, n))
  }

  function Entries(b: seq<u8>, n: nat): (r: seq<Entry>)
    requires n == 0 || HEADER + ROW * n <= |b|
    ensures |r| == n
  {
    if n == 0 then [] else Entries(b, n - 1) + [EntryAt(b, HEADER + ROW * (n - 1))]
  }

  method Parse(b: seq<u8>) returns (r: Option<seq<Entry>>)
    ensures r == Parsed(b)
  {
    hide U32At, Entries;
    if |b| < HEADER { return None; }
    if U32At(b, 0) != MAGIC { return None; }
    r := ParseEntries(b, U32At(b, 4));
  }

  method ParseEntries(b: seq<u8>, n: nat) returns (r: Option<seq<Entry>>)
    ensures r == if 0 < n && |b| < HEADER + ROW * n then None else Some(Entries(b, n))
  {
    hide EntryAt;
    var ents: seq<Entry> := [];
    for i := 0 to n
      invariant 0 < i ==> HEADER + ROW * i <= |b|
      invariant ents == Entries(b, i)
    {
      var off := HEADER + ROW * i;
      if |b| < off + ROW { return None; }
      ents := ents + [EntryAt(b, off)];
    }
    return Some(ents);
  }

  lemma HeadReadsBack(ents: seq<Entry>)
    requires Fits(ents)
    ensures var b := Image(ents);
            U32At(b, 0) == MAGIC && U32At(b, 4) == |ents| && U32At(b, 8) == Total(ents) && U32At(b, 12) == 0
  {
    hide LE32, U32At, Rows, Payloads;
    var b, n, total := Image(ents), LE32(|ents|), LE32(Total(ents));
    var head := LE32(MAGIC) + n + total + LE32(0);
    assert b[..16] == head;
    assert b[0..4] == head[0..4] && b[4..8] == head[4..8] && b[8..12] == head[8..12] && b[12..16] == head[12..16];
    ReadBack32(b, 0, MAGIC);
    ReadBack32(b, 4, |ents|);
    ReadBack32(b, 8, Total(ents));
    ReadBack32(b, 12, 0);
  }

  lemma RowReadsBack(ents: seq<Entry>, i: nat)
    requires Fits(ents) && i < |ents|
    ensures HEADER + ROW * i + ROW <= Total(ents)
    ensures var e := ents[i];
            RowAt(Image(ents), HEADER + ROW * i)
            == Fields(e.hash, GoalAt(ents, i), |e.goal|, ProofAt(ents, i), |e.proof|, e.kind)
  {
    ImageHolds(ents, i);
    RangesInside(ents, i);
    hide LE32, LE64, U32At, U64At, Image, Fits, Holds;
    var b, o, e := Image(ents), HEADER + ROW * i, ents[i];
    FieldsReadBack(b, o, e.hash, GoalAt(ents, i), |e.goal|, ProofAt(ents, i), |e.proof|, e.kind);
  }

  lemma FieldsReadBack(b: seq<u8>, o: nat, h: u64, go: u32, gl: u32, po: u32, pl: u32, k: u32)
    requires Holds(b, o, LE64(h) + LE32(go) + LE32(gl) + LE32(po) + LE32(pl) + LE32(k))
    ensures o + ROW <= |b| && RowAt(b, o) == Fields(h, go, gl, po, pl, k)
  {
    hide LE32, LE64, U32At, U64At;
    var x1 := LE64(h);
    var x2 := x1 + LE32(go);
    var x3 := x2 + LE32(gl);
    var x4 := x3 + LE32(po);
    var x5 := x4 + LE32(pl);
    HoldsSplit(b, o, x5, LE32(k));
    HoldsSplit(b, o, x4, LE32(pl));
    HoldsSplit(b, o, x3, LE32(po));
    HoldsSplit(b, o, x2, LE32(gl));
    HoldsSplit(b, o, x1, LE32(go));
    ReadBack64(b, o, h);
    ReadBack32(b, o + 8, go);
    ReadBack32(b, o + 12, gl);
    ReadBack32(b, o + 16, po);
    ReadBack32(b, o + 20, pl);
    ReadBack32(b, o + 24, k);
  }

  lemma EntryReadsBack(ents: seq<Entry>, i: nat)
    requires Fits(ents) && i < |ents|
    ensures HEADER + ROW * i + ROW <= |Image(ents)|
    ensures EntryAt(Image(ents), HEADER + ROW * i) == ents[i]
  {
    RowReadsBack(ents, i);
    ImageHolds(ents, i);
    hide Image, RowAt, Fits, Start, ProofAt, Slice, Holds;
    SliceHolds(Image(ents), GoalAt(ents, i), ents[i].goal);
    SliceHolds(Image(ents), ProofAt(ents, i), ents[i].proof);
  }

  lemma SliceHolds(b: seq<u8>, o: nat, x: seq<u8>)
    requires Holds(b, o, x)
    ensures Slice(b, o, o + |x|) == x
  {
  }

  lemma {:induction false} EntriesReadBack(ents: seq<Entry>, n: nat)
    requires Fits(ents) && n <= |ents| && HEADER + ROW * n <= |Image(ents)|
    ensures Entries(Image(ents), n) == ents[..n]
  {
    hide Image, Fits, EntryAt;
    if n > 0 {
      EntriesReadBack(ents, n - 1);
      EntryReadsBack(ents, n - 1);
    }
  }

  /** Parsing what was built returns exactly the entries that went in. */
  lemma ParseInvertsBuild(ents: seq<Entry>)
    requires Fits(ents)
    ensures Parsed(Image(ents)) == Some(ents)
  {
    HeadReadsBack(ents);
    StartsGrow(ents, 0, |ents|);
    hide Entries, U32At, Rows, Payloads, Fits;
    EntriesReadBack(ents, |ents|);
    assert ents[..|ents|] == ents;
  }

  // ---------------------------------------------------------------- kernel rules

  predicate InWindow(off: nat, size: nat, base: nat, total: nat) {
    base <= off && off + size <= total
  }

  /** The checks the kernel makes before it looks at any entry. */
  predicate KernelAccepts(b: seq<u8>) {
    && HEADER <= |b| && U32At(b, 0) == MAGIC && U32At(b, 8) <= |b|
    && var n: nat, total: nat := U32At(b, 4), U32At(b, 8);
       && HEADER + ROW * n <= |b|
       && forall i :: 0 <= i < n ==>
            var f := RowAt(b, HEADER + ROW * i);
            && InWindow(f.goff, f.glen, HEADER + ROW * n, total)
            && InWindow(f.poff, f.plen, HEADER + ROW * n, total)
  }

  /** A built bundle passes the kernel's rules, with the whole length as its size. */
  lemma BuiltBundlesAreAccepted(ents: seq<Entry>)
    requires Fits(ents)
    ensures KernelAccepts(Image(ents)) && U32At(Image(ents), 8) == |Image(ents)| && U32At(Image(ents), 12) == 0
  {
    hide Rows, Payloads, RowAt, U32At, Align4, Image;
    var b := Image(ents);
    HeadReadsBack(ents);
    StartsGrow(ents, 0, |ents|);
    forall i | 0 <= i < |ents|
      ensures HEADER + ROW * i + ROW <= |b|
      ensures var f := RowAt(b, HEADER + ROW * i);
              && InWindow(f.goff, f.glen, HEADER + ROW * |ents|, Total(ents))
              && InWindow(f.poff, f.plen, HEADER + ROW * |ents|, Total(ents))
    {
      RowReadsBack(ents, i);
      RangesInside(ents, i);
    }
  }

  /** Payloads start on 4-byte boundaries and no two of them overlap. */
  lemma PayloadsAlignedAndDisjoint(ents: seq<Entry>, i: nat, j: nat)
    requires i < j < |ents|
    ensures GoalAt(ents, i) % 4 == 0 && ProofAt(ents, i) % 4 == 0
    ensures GoalAt(ents, i) + |ents[i].goal| <= ProofAt(ents, i)
    ensures ProofAt(ents, i) + |ents[i].proof| <= GoalAt(ents, j)
  {
    hide Align4;
    RangesInside(ents, i);
    StartsGrow(ents, i + 1, j);
  }

  // ---------------------------------------------------------------- byte by byte

  /** The number whose little-endian bytes stand at `o`. */
  function NumberAt(b: seq<u8>, o: nat, n: nat): nat
    requires o + n <= |b|
    decreases n
  {
    if n == 0 then 0 else b[o] + 0x100 * NumberAt(b, o + 1, n - 1)
  }

  lemma FourAt(b: seq<u8>, o: nat)
    requires o + 4 <= |b|
    ensures U32At(b, o) == NumberAt(b, o, 4)
  {
    assert NumberAt(b, o + 4, 0) == 0;
    assert NumberAt(b, o + 3, 1) == b[o + 3];
    assert NumberAt(b, o + 2, 2) == b[o + 2] + 0x100 * NumberAt(b, o + 3, 1);
    assert NumberAt(b, o + 1, 3) == b[o + 1] + 0x100 * NumberAt(b, o + 2, 2);
  }

  lemma EightAt(b: seq<u8>, o: nat)
    requires o + 8 <= |b|
    ensures U64At(b, o) == NumberAt(b, o, 8)
  {
    hide U32At;
    FourAt(b, o);
    FourAt(b, o + 4);
    NumberSplit(b, o, 4, 4);
    PowerOfFour();
  }

  lemma {:induction false} NumberSplit(b: seq<u8>, o: nat, m: nat, n: nat)
    requires o + m + n <= |b|
    ensures NumberAt(b, o, m + n) == NumberAt(b, o, m) + Power256(m) * NumberAt(b, o + m, n)
    decreases m
  {
    if m > 0 {
      NumberSplit(b, o + 1, m - 1, n);
      Distribute(NumberAt(b, o + 1, m - 1), Power256(m - 1), NumberAt(b, o + m, n));
    }
  }

  lemma Distribute(x: nat, p: nat, y: nat)
    ensures 0x100 * (x + p * y) == 0x100 * x + 0x100 * p * y
  {
  }

  lemma PowerOfFour()
    ensures Power256(4) == 0x1_0000_0000
  {
    assert Power256(2) == 0x1_0000;
    assert Power256(3) == 0x100_0000;
  }

  function Power256(n: nat): nat {
    if n == 0 then 1 else 0x100 * Power256(n - 1)
  }

  /** A file is read exactly if it begins with the four magic bytes and has room for the rows it announces. */
  lemma ParsedIff(b: seq<u8>)
    ensures Parsed(b).Some? <==>
              |b| >= 16 && b[..4] == [0x42, 0x43, 0x46, 0x42] && |b| >= 16 + 28 * NumberAt(b, 4, 4)
    ensures Parsed(b).Some? ==> |Parsed(b).value| == NumberAt(b, 4, 4)
  {
    hide U32At, NumberAt, Entries;
    if |b| >= 16 {
      FourAt(b, 4);
      MagicBytes(b);
    }
  }

  lemma MagicBytes(b: seq<u8>)
    requires |b| >= 4
    ensures U32At(b, 0) == MAGIC <==> b[..4] == [0x42, 0x43, 0x46, 0x42]
  {
    assert b[..4] == [b[0], b[1], b[2], b[3]];
  }

  /** What each entry is, in terms of the bytes of its row. */
  lemma {:induction false} EntryBytes(b: seq<u8>, n: nat, i: nat)
    requires i < n && HEADER + ROW * n <= |b|
    ensures var off, e := 16 + 28 * i, Entries(b, n)[i];
            && e.hash == NumberAt(b, off, 8) && e.kind == NumberAt(b, off + 24, 4)
            && e.goal == Slice(b, NumberAt(b, off + 8, 4), NumberAt(b, off + 8, 4) + NumberAt(b, off + 12, 4))
            && e.proof == Slice(b, NumberAt(b, off + 16, 4), NumberAt(b, off + 16, 4) + NumberAt(b, off + 20, 4))
  {
    hide U32At, U64At, Slice, NumberAt;
    var off := 16 + 28 * i;
    if i + 1 < n {
      EntryBytes(b, n - 1, i);
    } else {
      EightAt(b, off);
      FourAt(b, off + 8);
      FourAt(b, off + 12);
      FourAt(b, off + 16);
      FourAt(b, off + 20);
      FourAt(b, off + 24);
    }
  }

  const SAMPLE: seq<Entry> := [Entry(0x0102030405060708, 9, [0xa1, 0xa2, 0xa3], [0xb1])]

  const SAMPLE_BYTES: seq<u8> :=
    [0x42, 0x43, 0x46, 0x42, 0x01, 0x00, 0x00, 0x00, 0x34, 0x00, 0x00, 0x00, 0x00, 0x00, 0x00, 0x00]
    + [0x08, 0x07, 0x06, 0x05, 0x04, 0x03, 0x02, 0x01, 0x2c, 0x00, 0x00, 0x00, 0x03, 0x00, 0x00, 0x00]
    + [0x30, 0x00, 0x00, 0x00, 0x01, 0x00, 0x00, 0x00, 0x09, 0x00, 0x00, 0x00]
    + [0xa1, 0xa2, 0xa3, 0x00, 0xb1, 0x00, 0x00, 0x00]

  lemma SampleLayout()
    ensures Start(SAMPLE, 0) == 44 && GoalAt(SAMPLE, 0) == 44 && ProofAt(SAMPLE, 0) == 48 && Total(SAMPLE) == 52
    ensures Fits(SAMPLE)
  {
  }

  lemma SampleHead()
    ensures Head(1, 52) == [0x42, 0x43, 0x46, 0x42, 0x01, 0x00, 0x00, 0x00, 0x34, 0x00, 0x00, 0x00, 0x00, 0x00, 0x00, 0x00]
  {
  }

  lemma SampleHash()
    ensures LE64(0x0102030405060708) == [0x08, 0x07, 0x06, 0x05, 0x04, 0x03, 0x02, 0x01]
  {
    assert LE32(0x05060708) == [0x08, 0x07, 0x06, 0x05];
    assert LE32(0x01020304) == [0x04, 0x03, 0x02, 0x01];
    hide LE32;
  }

  lemma SampleRow()
    ensures Fits(SAMPLE)
    ensures Row(SAMPLE, 0) == [0x08, 0x07, 0x06, 0x05, 0x04, 0x03, 0x02, 0x01, 0x2c, 0x00, 0x00, 0x00, 0x03, 0x00, 0x00, 0x00]
      + [0x30, 0x00, 0x00, 0x00, 0x01, 0x00, 0x00, 0x00, 0x09, 0x00, 0x00, 0x00]
  {
    SampleLayout();
    hide Start, GoalAt, ProofAt, Total, Fits;
    hide LE32, LE64;
    SampleHash();
    LE32OfByte(44);
    LE32OfByte(3);
    LE32OfByte(48);
    LE32OfByte(1);
    LE32OfByte(9);
  }

  lemma SamplePayloads()
    ensures Payloads(SAMPLE, 1) == [0xa1, 0xa2, 0xa3, 0x00, 0xb1, 0x00, 0x00, 0x00]
  {
    hide Start, GoalAt, ProofAt, Total;
    assert Payloads(SAMPLE, 0) == [];
    assert PaddedTo4([0xa1, 0xa2, 0xa3]) == [0xa1, 0xa2, 0xa3, 0x00] && PaddedTo4([0xb1]) == [0xb1, 0x00, 0x00, 0x00];
  }

  /** One entry, byte by byte. */
  lemma SampleImage()
    ensures Fits(SAMPLE) && Image(SAMPLE) == SAMPLE_BYTES
  {
    SampleLayout();
    SampleHead();
    SampleRow();
    SamplePayloads();
    hide Start, GoalAt, ProofAt, Total, Fits, Head, Row, Payloads;
    assert Rows(SAMPLE, 0) == [];
    assert Rows(SAMPLE, 1) == Row(SAMPLE, 0);
  }
}
