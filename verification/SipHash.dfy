/**
 SipHash-2-4 (Aumasson and Bernstein, "SipHash: a fast short-input PRF", section 2): the block
 loop and tail switch of the reference code against a fold over the words of the padded input.
 */
module SipHash {
  import opened Shared = Words

  datatype Lanes = Lanes(v0: bv64, v1: bv64, v2: bv64, v3: bv64)

  // ---------------------------------------------------------------- rounds

  function Rotl13(x: bv64): bv64 { (x << 13) | (x >> 51) }
  function Rotl16(x: bv64): bv64 { (x << 16) | (x >> 48) }
  function Rotl17(x: bv64): bv64 { (x << 17) | (x >> 47) }
  function Rotl21(x: bv64): bv64 { (x << 21) | (x >> 43) }
  function Rotl32(x: bv64): bv64 { (x << 32) | (x >> 32) }

  function Rotr13(x: bv64): bv64 { (x >> 13) | (x << 51) }
  function Rotr16(x: bv64): bv64 { (x >> 16) | (x << 48) }
  function Rotr17(x: bv64): bv64 { (x >> 17) | (x << 47) }
  function Rotr21(x: bv64): bv64 { (x >> 21) | (x << 43) }

  lemma RotationsInvert(x: bv64)
    ensures Rotr13(Rotl13(x)) == x && Rotl13(Rotr13(x)) == x
    ensures Rotr16(Rotl16(x)) == x && Rotl16(Rotr16(x)) == x
    ensures Rotr17(Rotl17(x)) == x && Rotl17(Rotr17(x)) == x
    ensures Rotr21(Rotl21(x)) == x && Rotl21(Rotr21(x)) == x
    ensures Rotl32(Rotl32(x)) == x
  {
  }

  function Add(x: bv64, y: bv64): bv64 { x + y }
  function Sub(x: bv64, y: bv64): bv64 { x - y }

  lemma XorInverts(x: bv64, y: bv64)
    ensures Xor(Xor(x, y), y) == x
  {
  }

  lemma SubUndoesAdd(x: bv64, y: bv64)
    ensures Sub(Add(x, y), y) == x
  {
    hide Add, Sub;
    AddIsPlus(x, y);
    SubOfPlus(x, y);
  }

  lemma AddUndoesSub(x: bv64, y: bv64)
    ensures Add(Sub(x, y), y) == x
  {
    hide Add, Sub;
    SubIsMinus(x, y);
    AddOfMinus(x, y);
  }

  lemma SubOfPlus(x: bv64, y: bv64)
    ensures Sub(x + y, y) == x
  {
  }

  lemma AddOfMinus(x: bv64, y: bv64)
    ensures Add(x - y, y) == x
  {
  }

  lemma AddIsPlus(x: bv64, y: bv64)
    ensures Add(x, y) == x + y
  {
  }

  lemma SubIsMinus(x: bv64, y: bv64)
    ensures Sub(x, y) == x - y
  {
  }

  /** One SIPHASH24_ROUND: two mixes, then two mixes crosswise. */
  function Round(s: Lanes): Lanes {
    Cross(Straight(s))
  }

  function Straight(s: Lanes): Lanes {
    var a := Add(s.v0, s.v1);
    var c := Add(s.v2, s.v3);
    Lanes(Rotl32(a), Xor(Rotl13(s.v1), a), c, Xor(Rotl16(s.v3), c))
  }

  function Cross(s: Lanes): Lanes {
    var a := Add(s.v0, s.v3);
    var c := Add(s.v2, s.v1);
    Lanes(a, Xor(Rotl17(s.v1), c), Rotl32(c), Xor(Rotl21(s.v3), a))
  }

  function Unround(s: Lanes): Lanes {
    Unstraight(Uncross(s))
  }

  function Unstraight(s: Lanes): Lanes {
    var a := Rotl32(s.v0);
    var v1, v3 := Rotr13(Xor(s.v1, a)), Rotr16(Xor(s.v3, s.v2));
    Lanes(Sub(a, v1), v1, Sub(s.v2, v3), v3)
  }

  function Uncross(s: Lanes): Lanes {
    var c := Rotl32(s.v2);
    var v1, v3 := Rotr17(Xor(s.v1, c)), Rotr21(Xor(s.v3, s.v0));
    Lanes(Sub(s.v0, v3), v1, Sub(c, v1), v3)
  }

  lemma StraightInverts(s: Lanes)
    ensures Unstraight(Straight(s)) == s
  {
    hide Rotl13, Rotl16, Rotl32, Rotr13, Rotr16, Xor, Add, Sub;
    RotationsInvert(Add(s.v0, s.v1));
    RotationsInvert(s.v1);
    RotationsInvert(s.v3);
    XorInverts(Rotl13(s.v1), Add(s.v0, s.v1));
    XorInverts(Rotl16(s.v3), Add(s.v2, s.v3));
    SubUndoesAdd(s.v0, s.v1);
    SubUndoesAdd(s.v2, s.v3);
  }

  lemma UnstraightInverts(s: Lanes)
    ensures Straight(Unstraight(s)) == s
  {
    hide Rotl13, Rotl16, Rotl32, Rotr13, Rotr16, Xor, Add, Sub;
    var a := Rotl32(s.v0);
    RotationsInvert(s.v0);
    RotationsInvert(Xor(s.v1, a));
    RotationsInvert(Xor(s.v3, s.v2));
    XorInverts(s.v1, a);
    XorInverts(s.v3, s.v2);
    AddUndoesSub(a, Rotr13(Xor(s.v1, a)));
    AddUndoesSub(s.v2, Rotr16(Xor(s.v3, s.v2)));
  }

  lemma CrossInverts(s: Lanes)
    ensures Uncross(Cross(s)) == s
  {
    hide Rotl17, Rotl21, Rotl32, Rotr17, Rotr21, Xor, Add, Sub;
    RotationsInvert(Add(s.v2, s.v1));
    RotationsInvert(s.v1);
    RotationsInvert(s.v3);
    XorInverts(Rotl17(s.v1), Add(s.v2, s.v1));
    XorInverts(Rotl21(s.v3), Add(s.v0, s.v3));
    SubUndoesAdd(s.v0, s.v3);
    SubUndoesAdd(s.v2, s.v1);
  }

  lemma UncrossInverts(s: Lanes)
    ensures Cross(Uncross(s)) == s
  {
    hide Rotl17, Rotl21, Rotl32, Rotr17, Rotr21, Xor, Add, Sub;
    var c := Rotl32(s.v2);
    RotationsInvert(s.v2);
    RotationsInvert(Xor(s.v1, c));
    RotationsInvert(Xor(s.v3, s.v0));
    XorInverts(s.v1, c);
    XorInverts(s.v3, s.v0);
    AddUndoesSub(c, Rotr17(Xor(s.v1, c)));
    AddUndoesSub(s.v0, Rotr21(Xor(s.v3, s.v0)));
  }

  /** A round is a permutation of the four-word state. */
  lemma RoundIsPermutation(s: Lanes)
    ensures Unround(Round(s)) == s && Round(Unround(s)) == s
  {
    hide Straight, Cross, Unstraight, Uncross;
    StraightInverts(s);
    CrossInverts(Straight(s));
    UncrossInverts(s);
    UnstraightInverts(Uncross(s));
  }

  // ---------------------------------------------------------------- absorbing

  function Absorb(s: Lanes, m: bv64): Lanes {
    var t := Round(Round(s.(v3 := Xor(s.v3, m))));
    t.(v0 := Xor(t.v0, m))
  }

  function Unabsorb(s: Lanes, m: bv64): Lanes {
    var t := Unround(Unround(s.(v0 := Xor(s.v0, m))));
    t.(v3 := Xor(t.v3, m))
  }

  lemma AbsorbIsPermutation(s: Lanes, m: bv64)
    ensures Unabsorb(Absorb(s, m), m) == s && Absorb(Unabsorb(s, m), m) == s
  {
    hide Round, Unround, Xor;
    var a, b := s.(v3 := Xor(s.v3, m)), s.(v0 := Xor(s.v0, m));
    RoundIsPermutation(a);
    RoundIsPermutation(Round(a));
    RoundIsPermutation(b);
    RoundIsPermutation(Unround(b));
    XorInverts(s.v3, m);
    XorInverts(s.v0, m);
    XorInverts(Round(Round(a)).v0, m);
    XorInverts(Unround(Unround(b)).v3, m);
  }

  function AbsorbAll(s: Lanes, ws: seq<bv64>): Lanes {
    if ws == [] then s else Absorb(AbsorbAll(s, ws[..|ws| - 1]), ws[|ws| - 1])
  }

  /** Runs that differ somewhere stay different over every common suffix of words. */
  lemma {:induction false} StatesStayDistinct(s: Lanes, t: Lanes, ws: seq<bv64>)
    ensures AbsorbAll(s, ws) == AbsorbAll(t, ws) <==> s == t
  {
    hide Absorb, Unabsorb;
    if ws != [] {
      var init, m := ws[..|ws| - 1], ws[|ws| - 1];
      StatesStayDistinct(s, t, init);
      AbsorbIsPermutation(AbsorbAll(s, init), m);
      AbsorbIsPermutation(AbsorbAll(t, init), m);
    }
  }

  function Finish(s: Lanes): Lanes {
    Round(Round(Round(Round(s.(v2 := Xor(s.v2, 0xff))))))
  }

  /** Up to the final XOR of the four words, finalization keeps states apart too. */
  lemma FinishIsInjective(s: Lanes, t: Lanes)
    requires Finish(s) == Finish(t)
    ensures s == t
  {
    hide Round, Xor;
    var a, b := s.(v2 := Xor(s.v2, 0xff)), t.(v2 := Xor(t.v2, 0xff));
    RoundsInjective(Round(Round(a)), Round(Round(b)));
    RoundsInjective(a, b);
    XorInverts(s.v2, 0xff);
    XorInverts(t.v2, 0xff);
  }

  lemma RoundsInjective(a: Lanes, b: Lanes)
    requires Round(Round(a)) == Round(Round(b))
    ensures a == b
  {
    hide Round, Unround;
    RoundIsPermutation(a);
    RoundIsPermutation(b);
    RoundIsPermutation(Round(a));
    RoundIsPermutation(Round(b));
  }

  // ---------------------------------------------------------------- padding

  function Le64(b: seq<bv8>): bv64
    requires |b| == 8
  {
    Join(b[0], b[1], b[2], b[3], b[4], b[5], b[6], b[7])
  }

  function Join(b0: bv8, b1: bv8, b2: bv8, b3: bv8, b4: bv8, b5: bv8, b6: bv8, b7: bv8): bv64 {
    (b0 as bv64) | ((b1 as bv64) << 8) | ((b2 as bv64) << 16) | ((b3 as bv64) << 24)
    | ((b4 as bv64) << 32) | ((b5 as bv64) << 40) | ((b6 as bv64) << 48) | ((b7 as bv64) << 56)
  }

  lemma JoinInjective(b0: bv8, b1: bv8, b2: bv8, b3: bv8, b4: bv8, b5: bv8, b6: bv8, b7: bv8,
                      c0: bv8, c1: bv8, c2: bv8, c3: bv8, c4: bv8, c5: bv8, c6: bv8, c7: bv8)
    requires Join(b0, b1, b2, b3, b4, b5, b6, b7) == Join(c0, c1, c2, c3, c4, c5, c6, c7)
    ensures b0 == c0 && b1 == c1 && b2 == c2 && b3 == c3 && b4 == c4 && b5 == c5 && b6 == c6 && b7 == c7
  {
  }

  lemma Le64Injective(a: seq<bv8>, b: seq<bv8>)
    requires |a| == |b| == 8 && Le64(a) == Le64(b)
    ensures a == b
  {
    JoinInjective(a[0], a[1], a[2], a[3], a[4], a[5], a[6], a[7], b[0], b[1], b[2], b[3], b[4], b[5], b[6], b[7]);
  }

  /** The words of a byte string whose length is a multiple of eight. */
  function Words(b: seq<bv8>): (ws: seq<bv64>)
    requires |b| % 8 == 0
    ensures 8 * |ws| == |b|
  {
    if b == [] then [] else Words(b[..|b| - 8]) + [Le64(b[|b| - 8..])]
  }

  lemma {:induction false} WordsInjective(a: seq<bv8>, b: seq<bv8>)
    requires |a| % 8 == |b| % 8 == 0 && Words(a) == Words(b)
    ensures a == b
  {
    hide Le64;
    if a != [] {
      var n := |a| - 8;
      assert |b| == |a|;
      var ws := Words(a);
      assert ws[..|ws| - 1] == Words(a[..n]) == Words(b[..n]);
      assert ws[|ws| - 1] == Le64(a[n..]) == Le64(b[n..]);
      WordsInjective(a[..n], b[..n]);
      Le64Injective(a[n..], b[n..]);
      assert a == a[..n] + a[n..] && b == b[..n] + b[n..];
    }
  }

  lemma PaddedLength(n: nat)
    ensures n % 8 <= 7 && (n + (7 - n % 8) + 1) % 8 == 0
  {
    assert n + (7 - n % 8) + 1 == 8 * (n / 8 + 1);
  }

  /** The input, zeros up to the last byte of a word, and there the length modulo 256. */
  function Padded(b: seq<bv8>): (p: seq<bv8>)
    ensures |p| == |b| - |b| % 8 + 8 && |p| % 8 == 0
  {
    PaddedLength(|b|);
    b + Repeated(0, 7 - |b| % 8) + [LowByte(|b|)]
  }

  /** Padding loses nothing, although only the low byte of the length is stored. */
  lemma PaddingIsInjective(a: seq<bv8>, b: seq<bv8>)
    requires Words(Padded(a)) == Words(Padded(b))
    ensures a == b
  {
    hide Words, LowByte;
    var p, q := Padded(a), Padded(b);
    WordsInjective(p, q);
    assert p[|p| - 1] == LowByte(|a|) && q[|q| - 1] == LowByte(|b|);
    LowByteInjective(|a|, |b|);
    SameLength(|a|, |b|);
    assert a == p[..|a|] && b == q[..|b|];
  }

  lemma SameLength(m: nat, n: nat)
    requires m - m % 8 == n - n % 8 && m % 256 == n % 256
    ensures m == n
  {
    var j, k := m / 256, n / 256;
    assert m == 256 * j + m % 256 && n == 256 * k + n % 256;
    assert -8 < 256 * (j - k) < 8;
  }

  // ---------------------------------------------------------------- the reference code

  function Init(k0: bv64, k1: bv64): Lanes {
    Lanes(Xor(0x736f6d6570736575, k0), Xor(0x646f72616e646f6d, k1),
          Xor(0x6c7967656e657261, k0), Xor(0x7465646279746573, k1))
  }

  function Digest(b: seq<bv8>, k0: bv64, k1: bv64): bv64 {
    var s := Finish(AbsorbAll(Init(k0, k1), Words(Padded(b))));
    Xor(Xor(Xor(s.v0, s.v1), s.v2), s.v3)
  }

  function Or0(w: bv64, b: bv8): bv64 { w | (b as bv64) }
  function Or8(w: bv64, b: bv8): bv64 { w | ((b as bv64) << 8) }
  function Or16(w: bv64, b: bv8): bv64 { w | ((b as bv64) << 16) }
  function Or24(w: bv64, b: bv8): bv64 { w | ((b as bv64) << 24) }
  function Or32(w: bv64, b: bv8): bv64 { w | ((b as bv64) << 32) }
  function Or40(w: bv64, b: bv8): bv64 { w | ((b as bv64) << 40) }
  function Or48(w: bv64, b: bv8): bv64 { w | ((b as bv64) << 48) }
  function Top(b: bv8): bv64 { (b as bv64) << 56 }

  lemma OrZero(w: bv64)
    ensures Or0(w, 0) == w && Or8(w, 0) == w && Or16(w, 0) == w && Or24(w, 0) == w
    ensures Or32(w, 0) == w && Or40(w, 0) == w && Or48(w, 0) == w
  {
  }

  lemma OrsJoin(b0: bv8, b1: bv8, b2: bv8, b3: bv8, b4: bv8, b5: bv8, b6: bv8, b7: bv8)
    ensures Or0(Or8(Or16(Or24(Or32(Or40(Or48(Top(b7), b6), b5), b4), b3), b2), b1), b0)
         == Join(b0, b1, b2, b3, b4, b5, b6, b7)
  {
  }

  /** The fall-through switch builds the same word as padding the tail to eight bytes. */
  method TailWord(b: seq<bv8>, at: nat) returns (w: bv64)
    requires at == |b| - |b| % 8
    ensures w == Le64(Padded(b)[at..])
  {
    hide Or0, Or8, Or16, Or24, Or32, Or40, Or48, Top, Join, LowByte;
    ghost var p := Padded(b)[at..];
    var left := |b| % 8;
    assert |p| == 8 && p[7] == LowByte(|b|);
    assert forall i :: 0 <= i < 7 ==> p[i] == if i < left then b[at + i] else 0;
    w := Top(LowByte(|b|));  // the shift keeps the low eight bits of the length
    OrZero(w);
    if left >= 7 { w := Or48(w, b[at + 6]); }
    assert w == Or48(Top(p[7]), p[6]);
    OrZero(w);
    ghost var w6 := w;
    if left >= 6 { w := Or40(w, b[at + 5]); }
    assert w == Or40(w6, p[5]);
    OrZero(w);
    ghost var w5 := w;
    if left >= 5 { w := Or32(w, b[at + 4]); }
    assert w == Or32(w5, p[4]);
    OrZero(w);
    ghost var w4 := w;
    if left >= 4 { w := Or24(w, b[at + 3]); }
    assert w == Or24(w4, p[3]);
    OrZero(w);
    ghost var w3 := w;
    if left >= 3 { w := Or16(w, b[at + 2]); }
    assert w == Or16(w3, p[2]);
    OrZero(w);
    ghost var w2 := w;
    if left >= 2 { w := Or8(w, b[at + 1]); }
    assert w == Or8(w2, p[1]);
    OrZero(w);
    ghost var w1 := w;
    if left >= 1 { w := Or0(w, b[at]); }
    assert w == Or0(w1, p[0]);
    OrsJoin(p[0], p[1], p[2], p[3], p[4], p[5], p[6], p[7]);
  }

  /** Block loop, tail word, finalization: the fold over the padded words, for inputs of any length. */
  method SipHash24(b: seq<bv8>, k0: bv64, k1: bv64) returns (h: bv64)
    ensures h == Digest(b, k0, k1)
  {
    hide Xor, Le64, Absorb, AbsorbAll, Words, Init, Finish, Padded;
    var s := Init(k0, k1);
    var at, end := 0, |b| - |b| % 8;
    ghost var p := Padded(b);
    AbsorbNone(s);
    assert p[..0] == [];
    while at != end
      invariant 0 <= at <= end && at % 8 == 0
      invariant s == AbsorbAll(Init(k0, k1), Words(p[..at]))
    {
      PaddedKeeps(b, at);
      AbsorbNext(Init(k0, k1), p[..at + 8]);
      assert p[..at + 8][..at] == p[..at] && p[..at + 8][at..] == p[at..at + 8];
      s := Absorb(s, Le64(b[at..at + 8]));
      at := at + 8;
    }
    var w := TailWord(b, at);
    AbsorbNext(Init(k0, k1), p);
    s := Absorb(s, w);
    s := Finish(s);
    h := Xor(Xor(Xor(s.v0, s.v1), s.v2), s.v3);
  }

  lemma PaddedKeeps(b: seq<bv8>, at: nat)
    requires at + 8 <= |b|
    ensures at + 8 <= |Padded(b)| && Padded(b)[at..at + 8] == b[at..at + 8]
  {
  }

  lemma AbsorbNone(s: Lanes)
    ensures AbsorbAll(s, Words([])) == s
  {
  }

  lemma AbsorbNext(s: Lanes, b: seq<bv8>)
    requires |b| >= 8 && |b| % 8 == 0
    ensures AbsorbAll(s, Words(b)) == Absorb(AbsorbAll(s, Words(b[..|b| - 8])), Le64(b[|b| - 8..]))
  {
    hide Absorb, Le64;
    var ws := Words(b);
    assert ws[..|ws| - 1] == Words(b[..|b| - 8]);
  }
}
