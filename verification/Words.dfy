/** Machine-word ranges and the little-endian byte layouts shared by the byte formats. */
module Words {

  type u8 = x: int | 0 <= x < 0x100
  type u16 = x: int | 0 <= x < 0x1_0000
  type u32 = x: int | 0 <= x < 0x1_0000_0000
  type u64 = x: int | 0 <= x < 0x1_0000_0000_0000_0000

  const U32_MAX: u32 := 0xFFFF_FFFF

  datatype Option<+T> = None | Some(value: T)

  /** Two bytes, low byte first. */
  function LE16(v: u16): (bs: seq<u8>)
    ensures |bs| == 2
  {
    [v % 0x100, v / 0x100]
  }

  /** Four bytes, low byte first. */
  function LE32(v: u32): (bs: seq<u8>)
    ensures |bs| == 4
  {
    [v % 0x100, v / 0x100 % 0x100, v / 0x100 / 0x100 % 0x100, v / 0x100 / 0x100 / 0x100]
  }

  /** Eight bytes, low byte first. */
  function LE64(v: u64): (bs: seq<u8>)
    ensures |bs| == 8
  {
    LE32(v % 0x1_0000_0000) + LE32(v / 0x1_0000_0000)
  }

  /** The 16-bit word at offset `o`. */
  function U16At(b: seq<u8>, o: nat): u16
    requires o + 2 <= |b|
  {
    var b0: int, b1: int := b[o], b[o + 1];
    b0 + 0x100 * b1
  }

  /** The 32-bit word at offset `o`. */
  function U32At(b: seq<u8>, o: nat): u32
    requires o + 4 <= |b|
  {
    var b0: int, b1: int, b2: int, b3: int := b[o], b[o + 1], b[o + 2], b[o + 3];
    b0 + 0x100 * (b1 + 0x100 * (b2 + 0x100 * b3))
  }

  /** The 64-bit word at offset `o`. */
  function U64At(b: seq<u8>, o: nat): u64
    requires o + 8 <= |b|
  {
    var lo: int, hi: int := U32At(b, o), U32At(b, o + 4);
    lo + 0x1_0000_0000 * hi
  }

  lemma ReadBack16(b: seq<u8>, o: nat, v: u16)
    requires o + 2 <= |b| && b[o..o + 2] == LE16(v)
    ensures U16At(b, o) == v
  {
    assert b[o] == b[o..o + 2][0] && b[o + 1] == b[o..o + 2][1];
  }

  lemma ReadBack32(b: seq<u8>, o: nat, v: u32)
    requires o + 4 <= |b| && b[o..o + 4] == LE32(v)
    ensures U32At(b, o) == v
  {
    var w := b[o..o + 4];
    assert b[o] == w[0] && b[o + 1] == w[1] && b[o + 2] == w[2] && b[o + 3] == w[3];
  }

  lemma ReadBack64(b: seq<u8>, o: nat, v: u64)
    requires o + 8 <= |b| && b[o..o + 8] == LE64(v)
    ensures U64At(b, o) == v
  {
    var w := b[o..o + 8];
    assert b[o..o + 4] == w[..4] && b[o + 4..o + 8] == w[4..];
    ReadBack32(b, o, v % 0x1_0000_0000);
    ReadBack32(b, o + 4, v / 0x1_0000_0000);
  }

  lemma LE32OfByte(n: u8)
    ensures LE32(n) == [n, 0, 0, 0]
  {
  }

  lemma LE64OfByte(n: u8)
    ensures LE64(n) == [n, 0, 0, 0, 0, 0, 0, 0]
  {
    hide LE32;
    LE32OfByte(n);
    LE32OfByte(0);
  }

  /** `bs` stands at offset `i` of `data`. */
  predicate Holds(data: seq<u8>, i: nat, bs: seq<u8>) {
    i + |bs| <= |data| && data[i..i + |bs|] == bs
  }

  lemma HoldsSplit(data: seq<u8>, i: nat, a: seq<u8>, b: seq<u8>)
    requires Holds(data, i, a + b)
    ensures Holds(data, i, a) && Holds(data, i + |a|, b)
  {
    var ab := data[i..i + |a + b|];
    assert data[i..i + |a|] == ab[..|a|] && data[i + |a|..i + |a| + |b|] == ab[|a|..];
  }

  predicate Distinct<T(==)>(s: seq<T>) {
    forall i, j :: 0 <= i < j < |s| ==> s[i] != s[j]
  }

  lemma {:induction false} DistinctWithin<T>(s: seq<T>, within: set<T>)
    requires Distinct(s) && forall x :: x in s ==> x in within
    ensures |s| <= |within|
  {
    if s != [] { DistinctWithin(s[1..], within - {s[0]}); }
  }

  function NumbersBelow(n: nat): (r: set<nat>)
    ensures |r| == n && forall x: nat :: x in r <==> x < n
  {
    if n == 0 then {} else NumbersBelow(n - 1) + {n - 1}
  }

  /** Different numbers below `n` are at most `n`. */
  lemma DistinctBelow(s: seq<nat>, n: nat)
    requires Distinct(s) && forall i :: 0 <= i < |s| ==> s[i] < n
    ensures |s| <= n
  {
    DistinctWithin(s, NumbersBelow(n));
  }

  function Min(a: int, b: int): int {
    if b < a then b else a
  }

  function Repeated<T>(x: T, n: nat): (s: seq<T>)
    ensures |s| == n && forall i :: 0 <= i < n ==> s[i] == x
  {
    seq(n, _ => x)
  }

  function Xor(x: bv64, y: bv64): bv64 {
    x ^ y
  }

  /** The low byte of a number, as bits. */
  function LowByte(n: nat): bv8 {
    (n % 256) as bv8
  }

  function ByteValue(b: bv8): int {
    b as int
  }

  lemma ValueOfByte(n: nat)
    requires n < 256
    ensures ByteValue(n as bv8) == n
  {
  }

  lemma LowByteIs(n: nat)
    ensures LowByte(n) == (n % 256) as bv8
  {
  }

  lemma LowByteInjective(m: nat, n: nat)
    requires LowByte(m) == LowByte(n)
    ensures m % 256 == n % 256
  {
    hide LowByte, ByteValue;
    LowByteIs(m);
    LowByteIs(n);
    ValueOfByte(m % 256);
    ValueOfByte(n % 256);
  }
}
