/**
 Integer cube root from the TCP CUBIC test program: the highest set bit by binary search, a table
 lookup and one Newton step, all in 32- and 64-bit registers. The bit search works on words; what
 follows it works on the number the word stands for, with every 32-bit truncation written out.
 */
module CubicRoot {
  import opened Words

  function Pow2(n: nat): (r: nat)
    ensures r > 0
  {
    if n == 0 then 1 else 2 * Pow2(n - 1)
  }

  lemma {:induction false} Pow2Add(m: nat, n: nat)
    ensures Pow2(m + n) == Pow2(m) * Pow2(n)
  {
    if m > 0 { Pow2Add(m - 1, n); }
  }

  lemma Pow2Small()
    ensures Pow2(0) == 1 && Pow2(1) == 2 && Pow2(2) == 4
  {
  }

  lemma Pow2Values()
    ensures Pow2(0) == 1 && Pow2(1) == 2 && Pow2(2) == 4 && Pow2(4) == 16 && Pow2(8) == 0x100 && Pow2(16) == 0x1_0000
    ensures Pow2(32) == 0x1_0000_0000
    ensures Pow2(63) == 0x8000_0000_0000_0000 && Pow2(64) == 0x1_0000_0000_0000_0000
  {
    hide Pow2;
    Pow2Small();
    Pow2Add(2, 2); Pow2Add(4, 4); Pow2Add(8, 8); Pow2Add(16, 16); Pow2Add(32, 32); Pow2Add(1, 63);
  }

  /** The number of binary digits. */
  function Bits(a: nat): nat {
    if a == 0 then 0 else 1 + Bits(a / 2)
  }

  lemma {:induction false} BitsBound(a: nat)
    requires a > 0
    ensures 1 <= Bits(a) && Pow2(Bits(a) - 1) <= a < Pow2(Bits(a))
  {
    if a > 1 { BitsBound(a / 2); }
  }

  lemma {:induction false} Pow2Grows(m: nat, n: nat)
    requires m <= n
    ensures Pow2(m) <= Pow2(n)
  {
    if m < n { Pow2Grows(m, n - 1); }
  }

  lemma BitsAre(a: nat, r: nat)
    requires 1 <= r && Pow2(r - 1) <= a < Pow2(r)
    ensures Bits(a) == r
  {
    hide Bits, Pow2;
    BitsBound(a);
    if Bits(a) < r { Pow2Grows(Bits(a), r - 1); }
    if r < Bits(a) { Pow2Grows(r, Bits(a) - 1); }
  }

  // ---------------------------------------------------------------- 64-bit words

  // the source's tests `!(x & (~0ull << (64 - k)))` and its shifts `x <<= k`
  predicate Clear1(x: bv64) { x & 0x8000_0000_0000_0000 == 0 }
  predicate Clear2(x: bv64) { x & 0xC000_0000_0000_0000 == 0 }
  predicate Clear4(x: bv64) { x & 0xF000_0000_0000_0000 == 0 }
  predicate Clear8(x: bv64) { x & 0xFF00_0000_0000_0000 == 0 }
  predicate Clear16(x: bv64) { x & 0xFFFF_0000_0000_0000 == 0 }
  predicate Clear32(x: bv64) { x & 0xFFFF_FFFF_0000_0000 == 0 }
  function Shl1(x: bv64): bv64 { x << 1 }
  function Shl2(x: bv64): bv64 { x << 2 }
  function Shl4(x: bv64): bv64 { x << 4 }
  function Shl8(x: bv64): bv64 { x << 8 }
  function Shl16(x: bv64): bv64 { x << 16 }
  function Shl32(x: bv64): bv64 { x << 32 }

  /** The number a word stands for, read from the top: its first `n` bits. */
  function Reading(x: bv64, n: nat): nat
    decreases n
  {
    if n == 0 then 0 else Reading(Shl1(x), n - 1) + if Clear1(x) then 0 else Pow2(n - 1)
  }

  function Value(x: bv64): nat {
    Reading(x, 64)
  }

  lemma {:induction false} ReadingFits(x: bv64, n: nat)
    ensures Reading(x, n) < Pow2(n)
    decreases n
  {
    if n > 0 { ReadingFits(Shl1(x), n - 1); }
  }

  lemma ValueFits(x: bv64)
    ensures Value(x) < 0x1_0000_0000_0000_0000
  {
    hide Pow2, Reading;
    ReadingFits(x, 64);
    Pow2Values();
  }

  lemma {:induction false} ReadingZero(n: nat)
    ensures Reading(0, n) == 0
  {
    if n > 0 {
      assert Shl1(0) == 0 && Clear1(0);
      ReadingZero(n - 1);
    }
  }

  /** With its first bit set, what is read has all its digits. */
  lemma ReadingTop(x: bv64, n: nat)
    requires n >= 1 && !Clear1(x)
    ensures Bits(Reading(x, n)) == n && Pow2(n - 1) <= Reading(x, n) < Pow2(n)
  {
    hide Bits, Pow2, Clear1, Shl1;
    ReadingFits(x, n);
    BitsAre(Reading(x, n), n);
  }

  // ---------------------------------------------------------------- skipping clear bits

  lemma Skip1(x: bv64, n: nat)
    requires n >= 1 && Clear1(x)
    ensures Reading(x, n) == Reading(Shl1(x), n - 1)
  {
    hide Clear1, Shl1;
  }

  lemma Twice1(x: bv64)
    requires Clear2(x)
    ensures Clear1(x) && Clear1(Shl1(x)) && Shl1(Shl1(x)) == Shl2(x)
  {
  }

  lemma Skip2(x: bv64, n: nat)
    requires n >= 2 && Clear2(x)
    ensures Reading(x, n) == Reading(Shl2(x), n - 2)
  {
    hide Clear2, Shl2, Clear1, Shl1, Reading;
    Twice1(x);
    Skip1(x, n);
    Skip1(Shl1(x), n - 1);
  }

  lemma Twice2(x: bv64)
    requires Clear4(x)
    ensures Clear2(x) && Clear2(Shl2(x)) && Shl2(Shl2(x)) == Shl4(x)
  {
  }

  lemma Skip4(x: bv64, n: nat)
    requires n >= 4 && Clear4(x)
    ensures Reading(x, n) == Reading(Shl4(x), n - 4)
  {
    hide Clear4, Shl4, Clear2, Shl2, Reading;
    Twice2(x);
    Skip2(x, n);
    Skip2(Shl2(x), n - 2);
  }

  lemma Twice4(x: bv64)
    requires Clear8(x)
    ensures Clear4(x) && Clear4(Shl4(x)) && Shl4(Shl4(x)) == Shl8(x)
  {
  }

  lemma Skip8(x: bv64, n: nat)
    requires n >= 8 && Clear8(x)
    ensures Reading(x, n) == Reading(Shl8(x), n - 8)
  {
    hide Clear8, Shl8, Clear4, Shl4, Reading;
    Twice4(x);
    Skip4(x, n);
    Skip4(Shl4(x), n - 4);
  }

  lemma Twice8(x: bv64)
    requires Clear16(x)
    ensures Clear8(x) && Clear8(Shl8(x)) && Shl8(Shl8(x)) == Shl16(x)
  {
  }

  lemma Skip16(x: bv64, n: nat)
    requires n >= 16 && Clear16(x)
    ensures Reading(x, n) == Reading(Shl16(x), n - 16)
  {
    hide Clear16, Shl16, Clear8, Shl8, Reading;
    Twice8(x);
    Skip8(x, n);
    Skip8(Shl8(x), n - 8);
  }

  lemma Twice16(x: bv64)
    requires Clear32(x)
    ensures Clear16(x) && Clear16(Shl16(x)) && Shl16(Shl16(x)) == Shl32(x)
  {
  }

  lemma Skip32(x: bv64, n: nat)
    requires n >= 32 && Clear32(x)
    ensures Reading(x, n) == Reading(Shl32(x), n - 32)
  {
    hide Clear32, Shl32, Clear16, Shl16, Reading;
    Twice16(x);
    Skip16(x, n);
    Skip16(Shl16(x), n - 16);
  }

  lemma Filled32(x: bv64)
    requires x != 0 && Clear32(x)
    ensures !Clear32(Shl32(x))
  {
  }

  lemma Filled16(x: bv64)
    requires !Clear32(x) && Clear16(x)
    ensures !Clear16(Shl16(x))
  {
  }

  lemma Filled8(x: bv64)
    requires !Clear16(x) && Clear8(x)
    ensures !Clear8(Shl8(x))
  {
  }

  lemma Filled4(x: bv64)
    requires !Clear8(x) && Clear4(x)
    ensures !Clear4(Shl4(x))
  {
  }

  lemma Filled2(x: bv64)
    requires !Clear4(x) && Clear2(x)
    ensures !Clear2(Shl2(x))
  {
  }

  lemma Filled1(x: bv64)
    requires !Clear2(x) && Clear1(x)
    ensures !Clear1(Shl1(x))
  {
  }

  /** The search down to a byte. */
  method FirstSteps(a: bv64) returns (num: int, x: bv64)
    requires a != 0
    ensures 7 <= num <= 63 && Reading(x, num + 1) == Reading(a, 64) && !Clear8(x)
  {
    hide *;
    num, x := 63, a;
    if Clear32(x) {
      Skip32(x, num + 1);
      Filled32(x);
      num := num - 32;
      x := Shl32(x);
    }
    if Clear16(x) {
      Skip16(x, num + 1);
      Filled16(x);
      num := num - 16;
      x := Shl16(x);
    }
    if Clear8(x) {
      Skip8(x, num + 1);
      Filled8(x);
      num := num - 8;
      x := Shl8(x);
    }
  }

  /** For every 64-bit word: one plus the index of its highest set bit, and zero for zero. */
  method Fls64(a: bv64) returns (r: nat)
    ensures r == Bits(Value(a)) && r <= 64
    ensures a == 0 ==> Value(a) == 0
    ensures a != 0 ==> 1 <= r && Pow2(r - 1) <= Value(a) < Pow2(r)
  {
    hide *;
    ValueIs(a);
    NoBits();
    ReadingZero(64);
    if a == 0 { return 0; }
    var num, x := FirstSteps(a);
    if Clear4(x) {
      Skip4(x, num + 1);
      Filled4(x);
      num := num - 4;
      x := Shl4(x);
    }
    if Clear2(x) {
      Skip2(x, num + 1);
      Filled2(x);
      num := num - 2;
      x := Shl2(x);
    }
    ghost var last := x;
    if Clear1(x) {
      Skip1(x, num + 1);
      Filled1(x);
      num := num - 1;
      last := Shl1(x);
    }
    ReadingTop(last, num + 1);
    return num + 1;
  }

  lemma ValueIs(x: bv64)
    ensures Value(x) == Reading(x, 64)
  {
  }

  lemma NoBits()
    ensures Bits(0) == 0
  {
  }

  lemma Cancel(m: nat, n: nat, p: nat)
    requires p > 0 && m * p <= n * p
    ensures m <= n
  {
  }

  lemma CancelStrict(m: nat, n: nat, p: nat)
    requires p > 0 && m * p < n * p
    ensures m < n
  {
  }

  /** The table of cube roots, scaled by 64. */
  function V(i: nat): (r: nat)
    requires i < 64
    ensures r <= 254 && (8 <= i ==> 123 <= r) && (12 <= i ==> 143 <= r) && (16 <= i ==> 157 <= r) && (32 <= i ==> 200 <= r)
    ensures i < 16 ==> r <= 156
  {
    match i
    case 0 => 0 case 1 => 54 case 2 => 54 case 3 => 54 case 4 => 118 case 5 => 118 case 6 => 118 case 7 => 118
    case 8 => 123 case 9 => 129 case 10 => 134 case 11 => 138 case 12 => 143 case 13 => 147 case 14 => 151 case 15 => 156
    case 16 => 157 case 17 => 161 case 18 => 164 case 19 => 168 case 20 => 170 case 21 => 173 case 22 => 176 case 23 => 179
    case 24 => 181 case 25 => 185 case 26 => 187 case 27 => 190 case 28 => 192 case 29 => 194 case 30 => 197 case 31 => 199
    case 32 => 200 case 33 => 202 case 34 => 204 case 35 => 206 case 36 => 209 case 37 => 211 case 38 => 213 case 39 => 215
    case 40 => 217 case 41 => 219 case 42 => 221 case 43 => 222 case 44 => 224 case 45 => 225 case 46 => 227 case 47 => 229
    case 48 => 231 case 49 => 232 case 50 => 234 case 51 => 236 case 52 => 237 case 53 => 239 case 54 => 240 case 55 => 242
    case 56 => 244 case 57 => 245 case 58 => 246 case 59 => 248 case 60 => 250 case 61 => 251 case 62 => 252 case _ => 254
  }

  // ---------------------------------------------------------------- the first guess

  /** The scale: one third of the digits, less one. */
  function Scale(a: nat): int {
    Bits(a) * 84 / 256 - 1
  }

  function Leading(a: nat): nat
    requires Scale(a) >= 0
  {
    Shifted(a, Scale(a) * 3)
  }

  function Shifted(a: nat, k: nat): nat {
    Divided(a, Pow2(k))
  }

  function Divided(a: nat, d: nat): nat
    requires d > 0
  {
    a / d
  }

  function Guess(a: nat): nat
    requires Scale(a) >= 0 && Leading(a) < 64
  {
    Scaled64(Leading(a), Scale(a))
  }

  /** The table entry at scale `b`. */
  function Scaled64(shift: nat, b: nat): nat
    requires shift < 64
  {
    Divided(Entry(shift, b), 64)
  }

  function Entry(shift: nat, b: nat): nat
    requires shift < 64
  {
    (V(shift) + 10) * Pow2(b)
  }

  lemma ScaleRange(f: nat)
    requires 7 <= f <= 64
    ensures var b := f * 84 / 256 - 1; 1 <= b <= 20 && 4 <= f - 3 * b <= 6 && (b == 20 ==> f == 64)
  {
  }

  lemma DivPow2(a: nat, m: nat, n: nat, k: nat)
    requires k <= m && k <= n && Pow2(m) <= a < Pow2(n)
    ensures Pow2(m - k) <= a / Pow2(k) < Pow2(n - k)
  {
    hide Pow2;
    Pow2Add(m - k, k);
    Pow2Add(n - k, k);
    var p, q := Pow2(k), a / Pow2(k);
    assert q * p <= a < (q + 1) * p;
    CancelStrict(Pow2(m - k), q + 1, p);
    CancelStrict(q, Pow2(n - k), p);
  }

  lemma BitsRange(a: nat)
    requires 64 <= a < Pow2(64)
    ensures 7 <= Bits(a) <= 64 && Pow2(Bits(a) - 1) <= a < Pow2(Bits(a))
  {
    hide Pow2, Bits;
    Pow2Values();
    Pow2Add(4, 2);
    BitsBound(a);
    if Bits(a) < 7 { Pow2Grows(Bits(a), 6); }
    if Bits(a) > 64 { Pow2Grows(64, Bits(a) - 1); }
  }

  lemma DivRange(a: nat, p: nat)
    requires p > 0
    ensures a / p * p <= a < (a / p + 1) * p
  {
  }

  /** The scaled-down argument is a table index, and never one of the coarse entries below 8. */
  lemma LeadingRange(a: nat)
    requires 64 <= a < Pow2(64)
    ensures 1 <= Scale(a) <= 20 && 8 <= Leading(a) < 64
    ensures Scale(a) == 20 ==> Leading(a) < 16
  {
    hide Pow2, Bits, V;
    BitsRange(a);
    ScaleRange(Bits(a));
    var f, k := Bits(a), 3 * Scale(a);
    DivPow2(a, f - 1, f, k);
    Pow2Grows(3, f - 1 - k);
    Pow2Grows(f - k, if Scale(a) == 20 then 4 else 6);
    Pow2Values();
    Pow2Add(4, 2);
    Pow2Add(2, 1);
  }

  lemma MulLe(m: nat, n: nat, p: nat)
    requires m <= n
    ensures m * p <= n * p
  {
  }

  // ---------------------------------------------------------------- the guess is near the root

  function Cube(x: nat): nat {
    x * x * x
  }

  lemma CubeGrows(x: nat, y: nat)
    requires x <= y
    ensures Cube(x) <= Cube(y)
  {
    MulLe(x, y, x);
    MulLe(x, y, y);
    MulLe(x * x, y * y, x);
    MulLe(x, y, y * y);
  }

  lemma CubeTimes(x: nat, y: nat)
    ensures Cube(x * y) == Cube(x) * Cube(y)
  {
  }

  /** Each entry the code can reach: its cube is at most a fifth above and a seventh below what it stands for. */
  lemma TableIsNear(i: nat)
    requires 8 <= i < 64
    ensures 5 * Cube(V(i) + 10) <= 0x180000 * i
    ensures 0x180000 * (i + 1) <= 7 * Cube(V(i) + 10)
  {
  }

  /** From 7 on the entries rise, and stay within six below the cube root of 2^18 times the index. */
  lemma TableRises(i: nat)
    requires 7 <= i < 64
    ensures i < 63 ==> V(i) < V(i + 1)
    ensures Cube(V(i)) <= 0x40000 * i < Cube(V(i) + 6)
  {
  }

  /** The entry scaled by `p` and cut to an integer `x`. */
  lemma ScaledTableIsNear(i: nat, t: nat, p: nat, x: nat)
    requires 5 * Cube(t) <= 0x180000 * i && 0x180000 * (i + 1) <= 7 * Cube(t)
    requires 64 * x <= t * p
    ensures 5 * Cube(x) <= 6 * (Cube(p) * i)
    ensures t * p <= 64 * (x + 1) ==> 6 * (Cube(p) * (i + 1)) <= 7 * Cube(x + 1)
    ensures t * p == 64 * x ==> 6 * (Cube(p) * (i + 1)) <= 7 * Cube(x)
  {
    hide Cube;
    var n := t * p;
    CubeTimes(t, p);
    ScaleLe(5, Cube(t), 0x180000, i, Cube(p));
    ScaleLe(0x180000, i + 1, 7, Cube(t), Cube(p));
    assert Cube(p) * i == i * Cube(p) && Cube(p) * (i + 1) == (i + 1) * Cube(p);
    Cubed64(x, n);
    Cubed64(x + 1, n);
  }

  lemma ScaleLe(j: nat, m: nat, k: nat, n: nat, c: nat)
    requires j * m <= k * n && c >= 0
    ensures j * (m * c) <= k * (n * c)
  {
    MulLe(j * m, k * n, c);
    assert j * m * c == j * (m * c) && k * n * c == k * (n * c);
  }

  lemma Cubed64(x: nat, n: nat)
    ensures 64 * x <= n ==> 0x40000 * Cube(x) <= Cube(n)
    ensures n <= 64 * x ==> Cube(n) <= 0x40000 * Cube(x)
  {
    hide Cube;
    CubeTimes(64, x);
    Cube64();
    if 64 * x <= n { CubeGrows(64 * x, n); }
    if n <= 64 * x { CubeGrows(n, 64 * x); }
  }

  lemma Cube64()
    ensures Cube(64) == 0x40000
  {
  }

  /** The cube of the guess is at most a fifth above the argument and at least four sevenths of it. */
  predicate Near(a: nat, x: nat) {
    4 <= x <= 2_719_744 && 5 * Cube(x) <= 6 * a && 4 * a <= 7 * Cube(x)
  }

  /** From 2^21 on the table entry is not truncated, and the guess is closer. */
  predicate Nearer(a: nat, x: nat) {
    64 <= x && 6 * a <= 7 * Cube(x)
  }

  lemma OneMore(x: nat)
    requires x >= 8
    ensures 512 * Cube(x + 1) <= 729 * Cube(x)
  {
    CubeGrows(8 * (x + 1), 9 * x);
    CubeTimes(8, x + 1);
    CubeTimes(9, x);
  }

  lemma SmallestScale(i: nat)
    requires 8 <= i < 64
    ensures var x := (V(i) + 10) * 2 / 64; 4 <= x <= 8 && 4 * (8 * (i + 1) - 1) <= 7 * Cube(x)
  {
  }

  /** `i` is the table index of `a` at scale `p`, and `t` stands for the table entry. */
  predicate Indexed(a: nat, i: nat, t: nat, p: nat) {
    && 5 * Cube(t) <= 0x180000 * i && 0x180000 * (i + 1) <= 7 * Cube(t)
    && Cube(p) * i <= a < Cube(p) * (i + 1)
  }

  lemma CutGuess(a: nat, i: nat, t: nat, p: nat)
    requires Indexed(a, i, t, p) && 133 <= t <= 264 && 4 <= p <= 32
    ensures Near(a, t * p / 64)
  {
    hide Cube;
    var x := t * p / 64;
    MulLe(133, t, p);
    MulLe(t, 264, p);
    ScaledTableIsNear(i, t, p, x);
    OneMore(x);
  }

  lemma ExactGuess(a: nat, i: nat, t: nat, p: nat, big: nat)
    requires Indexed(a, i, t, p) && 133 <= t && p == 64 * big && 1 <= big && t * big <= 2_719_744
    ensures t * p / 64 == t * big && Near(a, t * big) && Nearer(a, t * big)
  {
    hide Cube;
    MulLe(1, big, t);
    assert t * p == 64 * (t * big);
    ScaledTableIsNear(i, t, p, t * big);
  }

  lemma SmallGuess(a: nat, i: nat)
    requires 8 <= i < 64 && 8 * i <= a < 8 * (i + 1)
    ensures Near(a, (V(i) + 10) * 2 / 64)
  {
    TableIsNear(i);
    SmallestScale(i);
    var t := V(i) + 10;
    hide V;
    assert Cube(2) == 8;
    hide Cube;
    ScaledTableIsNear(i, t, 2, t * 2 / 64);
  }

  lemma GuessIsNear(a: nat, b: nat, i: nat)
    requires 1 <= b <= 20 && 8 <= i < 64 && (b == 20 ==> i < 16) && Shifted(a, b * 3) == i
    ensures Entry(i, b) <= U32_MAX && Near(a, Scaled64(i, b))
    ensures if b < 6 then Scaled64(i, b) <= 132 else Nearer(a, Scaled64(i, b))
  {
    hide V, Pow2, Cube, Near, Nearer;
    var t := V(i) + 10;
    TableIsNear(i);
    GuessFits(b, t);
    ScaleIs(b);
    Pow2Cube(b);
    DivRange(a, Pow2(b * 3));
    if b == 1 {
      SmallGuess(a, i);
    } else if b < 6 {
      CutGuess(a, i, t, Pow2(b));
    } else {
      ExactGuess(a, i, t, Pow2(b), Pow2(b) / 64);
    }
  }

  lemma Pow2Cube(b: nat)
    ensures Cube(Pow2(b)) == Pow2(b * 3) && (b == 1 ==> Pow2(b * 3) == 8)
  {
    hide Pow2;
    Pow2Add(b, b);
    Pow2Add(2 * b, b);
    Pow2Small();
  }

  lemma GuessFits(b: nat, t: nat)
    requires 1 <= b <= 20 && t <= 264 && (b == 20 ==> t <= 166)
    ensures t * Pow2(b) <= U32_MAX
    ensures if b < 6 then t * Pow2(b) <= 8448 else t * (Pow2(b) / 64) <= 2_719_744
  {
    hide Pow2;
    ScaleIs(b);
    var most := if b == 20 then 166 else 264;
    MulLe(t, most, Pow2(b));
    MulLe(t, most, Pow2(b) / 64);
  }

  lemma CubeIs(p: nat)
    ensures Cube(p) == p * p * p
  {
  }

  lemma ScaleIs(b: nat)
    requires 1 <= b <= 20
    ensures (b == 1 ==> Pow2(b) == 2) && (2 <= b < 6 ==> 4 <= Pow2(b) <= 32)
    ensures (b < 20 ==> Pow2(b) <= 0x80000) && (b == 20 ==> Pow2(b) == 0x100000)
    ensures b >= 6 ==> Pow2(b) >= 64 && Pow2(b) % 64 == 0
  {
    hide Pow2;
    Pow2Small();
    Pow2Values();
    Pow2Add(4, 1);
    Pow2Add(4, 2);
    Pow2Add(16, 2);
    Pow2Add(18, 1);
    Pow2Add(19, 1);
    if b >= 2 { Pow2Grows(2, b); }
    if b < 6 { Pow2Grows(b, 5); }
    if b < 20 { Pow2Grows(b, 19); }
    if b >= 6 { Pow2Add(6, b - 6); Pow2Grows(6, b); }
  }

  // ---------------------------------------------------------------- the Newton step

  /** One step of the iteration, with the source's `341 / 1024` for a third. */
  function Newton(a: nat, x: nat): nat
    requires x >= 2
  {
    Third(2 * x + Quotient(a, x))
  }

  function Quotient(a: nat, x: nat): nat
    requires x >= 2
  {
    a / (x * (x - 1))
  }

  function Third(s: nat): nat {
    s * 341 / 1024
  }

  lemma ThirdRange(s: nat)
    ensures 341 * s <= 1024 * Third(s) + 1023 && 3 * Third(s) <= s
    ensures s >= 4 ==> Third(s) >= 1
  {
  }

  lemma QuotientRange(a: nat, x: nat)
    requires x >= 2
    ensures Quotient(a, x) * (x * (x - 1)) <= a < (Quotient(a, x) + 1) * (x * (x - 1))
  {
    DivRange(a, x * (x - 1));
  }

  /** What keeps the step from going below the root: the mean of `x`, `x` and `y`. */
  lemma MeanOfThree(x: nat, y: nat)
    ensures Cube(2 * x + y) == 27 * (x * x * y) + (x - y) * (x - y) * (8 * x + y)
  {
  }

  lemma Square(d: int, m: nat)
    ensures d * d * m >= 0
  {
  }

  /** Whatever the guess, the result is at most 0.1 % and 4/3 below the cube root. */
  lemma NotFarBelow(a: nat, x: nat)
    requires x >= 2
    ensures Cube(1023) * a < Cube(1024 * Newton(a, x) + 1364)
  {
    var q := Quotient(a, x);
    QuotientRange(a, x);
    ThirdRange(2 * x + q);
    hide Quotient, Third;
    OneFactorMore(x, q + 1);
    MeanIsLarge(x, q + 1);
    var s, r := 2 * x + q + 1, Newton(a, x);
    CubeGrows(341 * s, 1024 * r + 1364);
    CubeTimes(341, s);
    CubeTimes(341, 3);
    CubeIs(341);
    CubeIs(3);
    hide Cube;
    assert Cube(1023) == Cube(341) * 27;
  }

  lemma MeanIsLarge(x: nat, y: nat)
    ensures 27 * (x * x * y) <= Cube(2 * x + y)
  {
    hide Cube;
    MeanOfThree(x, y);
    Square(x - y, 8 * x + y);
  }

  lemma OneFactorMore(x: nat, k: nat)
    requires x >= 1
    ensures k * (x * (x - 1)) <= x * x * k
  {
    MulLe(x - 1, x, x * k);
    Rearranged(x, k);
  }

  lemma Rearranged(x: nat, k: nat)
    requires x >= 1
    ensures k * (x * (x - 1)) == (x - 1) * (x * k) && x * x * k == x * (x * k)
  {
  }

  lemma QuotientBound(a: nat, x: nat, q: nat)
    requires x >= 2 && a <= q * (x * (x - 1))
    ensures Quotient(a, x) <= q
  {
    var d := x * (x - 1);
    QuotientRange(a, x);
    hide Quotient;
    if Quotient(a, x) >= q + 1 { MulLe(q + 1, Quotient(a, x), d); }
  }

  /** How much of the cube is left when one factor is one less. */
  lemma LostByOne(x: nat, k: nat)
    requires x >= k >= 1
    ensures k * (x * (x * (x - 1))) >= (k - 1) * Cube(x)
  {
    MulLe(k, x, x * x);
    assert x * (x * (x - 1)) == Cube(x) - x * x;
  }

  lemma QuotientIsSmall(a: nat, x: nat)
    requires Near(a, x)
    ensures Quotient(a, x) <= 3 * x
    ensures Nearer(a, x) ==> Quotient(a, x) <= 2 * x
  {
    hide Cube, Quotient;
    var d := x * (x - 1);
    LostByOne(x, 4);
    assert 3 * x * d == 3 * (x * d);
    QuotientBound(a, x, 3 * x);
    if Nearer(a, x) {
      LostByOne(x, 64);
      assert 2 * x * d == 2 * (x * d);
      QuotientBound(a, x, 2 * x);
    }
  }

  /** How far the guess may be from the root for the step to come within one part in `3 * n`. */
  predicate Close(a: nat, x: nat, n: nat) {
    Narrowed(a, Cube(x), n)
  }

  lemma SquareLe(d: int, j: nat, k: nat, big: nat)
    requires -(k * big) <= j * d <= k * big
    ensures j * j * (d * d) <= k * k * (big * big)
  {
    var e := if d < 0 then -(j * d) else j * d;
    MulLe(e, k * big, e);
    MulLe(e, k * big, k * big);
    assert e * e == j * j * (d * d) by { SquareOf(j, d); }
    SquareOf(k, big);
  }

  lemma SquareOf(j: nat, d: int)
    ensures j * d * (j * d) == j * j * (d * d) && -(j * d) * -(j * d) == j * j * (d * d)
  {
  }

  lemma ProductLe(j: nat, u: nat, k: nat, v: nat, g: nat, m: nat, h: nat, a: nat)
    requires j * u <= k * v && g * m <= h * a
    ensures j * g * (u * m) <= k * h * (v * a)
  {
    MulLe(j * u, k * v, g * m);
    MulLe(g * m, h * a, k * v);
    Regrouped(j, u, g, m);
    Regrouped(k, v, h, a);
  }

  lemma Regrouped(j: nat, u: nat, g: nat, m: nat)
    ensures j * u * (g * m) == j * g * (u * m)
  {
  }

  lemma NearIsClose(a: nat, x: nat)
    requires Near(a, x)
    ensures Close(a, x, 4)
    ensures Nearer(a, x) ==> Close(a, x, 64)
  {
    hide Cube;
    var big := Cube(x);
    if big > a {
      GapAbove(a, big);
    } else {
      GapBelow(a, big);
      if Nearer(a, x) { GapNearer(a, big); }
    }
  }

  predicate Narrowed(a: nat, big: nat, n: nat) {
    n * ((big - a) * (big - a) * (8 * big + a)) <= 27 * (big * big * a)
  }

  lemma GapAbove(a: nat, big: nat)
    requires a < big && 5 * big <= 6 * a
    ensures Narrowed(a, big, 4) && Narrowed(a, big, 64)
  {
    Gap(a, big, 6, 1, 5, 53);
    Weaken((big - a) * (big - a) * (8 * big + a), big * big * a, 180, 53);
  }

  lemma GapBelow(a: nat, big: nat)
    requires big <= a && 4 * a <= 7 * big
    ensures Narrowed(a, big, 4)
  {
    Gap(a, big, 4, 3, 1, 9);
    Weaken((big - a) * (big - a) * (8 * big + a), big * big * a, 16, 81);
  }

  lemma GapNearer(a: nat, big: nat)
    requires big <= a && 6 * a <= 7 * big
    ensures Narrowed(a, big, 64)
  {
    Gap(a, big, 6, 1, 1, 9);
    Weaken((big - a) * (big - a) * (8 * big + a), big * big * a, 36, 9);
  }

  lemma Weaken(g: nat, f: nat, j: nat, k: nat)
    requires j * g <= k * f
    requires (j == 180 && k == 53) || (j == 16 && k == 81) || (j == 36 && k == 9)
    ensures 4 * g <= 27 * f && (j != 16 ==> 64 * g <= 27 * f)
  {
  }

  lemma Gap(a: nat, big: nat, j: nat, k: nat, g: nat, h: nat)
    requires -(k * big) <= j * (big - a) <= k * big && g * (8 * big + a) <= h * a
    ensures j * j * g * ((big - a) * (big - a) * (8 * big + a)) <= k * k * h * (big * big * a)
    ensures 0 <= (big - a) * (big - a) * (8 * big + a) && 0 <= big * big * a
  {
    Square(big - a, 8 * big + a);
    Square(big - a, 1);
    SquareLe(big - a, j, k, big);
    ProductLe(j * j, (big - a) * (big - a), k * k, big * big, g, 8 * big + a, h, a);
  }

  /** From a close guess, one less than the result is at most `1 + 1/n` times the argument when cubed. */
  lemma NotFarAbove(a: nat, x: nat, n: nat)
    requires Near(a, x) && Close(a, x, n)
    ensures Newton(a, x) >= 1 && n * Cube(Newton(a, x) - 1) <= (n + 1) * a
  {
    hide Cube, Close, Quotient, Third;
    var q, r := Quotient(a, x), Newton(a, x);
    var w := 2 * x + q - 3;
    QuotientIsSmall(a, x);
    QuotientRange(a, x);
    Weighed(a, x, q, w);
    WeighedCube(a, x, w, n);
    ThirdRange(2 * x + q);
    Thirds(r - 1, w, n, a);
  }

  lemma Thirds(r: nat, w: nat, n: nat, a: nat)
    requires 3 * r <= w && n * Cube(w) <= 27 * ((n + 1) * a)
    ensures n * Cube(r) <= (n + 1) * a
  {
    hide Cube;
    Cubed3(r, w);
    MulLe(27 * Cube(r), Cube(w), n);
    assert n * (27 * Cube(r)) == 27 * (n * Cube(r));
  }

  lemma Cubed3(r: nat, w: nat)
    requires 3 * r <= w
    ensures 27 * Cube(r) <= Cube(w)
  {
    CubeGrows(3 * r, w);
    CubeTimes(3, r);
  }

  lemma WeighedCube(a: nat, x: nat, w: nat, n: nat)
    requires x >= 4 && x * x * w <= 2 * Cube(x) + a && Close(a, x, n)
    ensures n * Cube(w) <= 27 * ((n + 1) * a)
  {
    hide Cube;
    var big := Cube(x);
    assert big > 0 by { CubeIs(x); MulLe(1, x, x); MulLe(1, x * x, x); }
    CubeGrows(x * x * w, 2 * big + a);
    CubeTimes(x * x, w);
    CubeTimes(x, x);
    MeanOfThree(big, a);
    var gap := (big - a) * (big - a) * (8 * big + a);
    Spread(n, big * big, Cube(w), a, gap);
  }

  lemma Spread(n: nat, c: nat, m: nat, a: nat, gap: int)
    requires c > 0 && c * m <= 27 * (c * a) + gap && n * gap <= 27 * (c * a)
    ensures n * m <= 27 * ((n + 1) * a)
  {
    assert n * (c * m) <= 27 * (n * (c * a)) + n * gap by { Distribute(n, c * m, c * a, gap); }
    assert 27 * (n * (c * a)) + 27 * (c * a) == 27 * (n + 1) * (c * a);
    CancelFactor(n, c, m, 27 * (n + 1), a);
  }

  lemma Distribute(n: nat, l: nat, k: nat, gap: int)
    requires l <= 27 * k + gap
    ensures n * l <= 27 * (n * k) + n * gap
  {
    MulLe(l, 27 * k + gap, n);
  }

  lemma Weighed(a: nat, x: nat, q: nat, w: nat)
    requires x >= 4 && w == 2 * x + q - 3 && q * (x * (x - 1)) <= a && q <= 3 * x
    ensures x * x * w <= 2 * Cube(x) + a
  {
    MulLe(q, 3 * x, x);
    assert q * (x * (x - 1)) == q * x * x - q * x;
    assert x * x * w == 2 * Cube(x) + q * x * x - 3 * x * x;
  }

  lemma CancelFactor(j: nat, c: nat, m: nat, k: nat, n: nat)
    requires c > 0 && j * (c * m) <= k * (c * n)
    ensures j * m <= k * n
  {
    assert j * (c * m) == j * m * c && k * (c * n) == k * n * c;
    Cancel(j * m, k * n, c);
  }

  // ---------------------------------------------------------------- root

  /** For every 64-bit argument from 64 on: the guess is defined and near, and nothing exceeds 32 bits. */
  lemma GuessOf(a: u64)
    requires a >= 64
    ensures Scale(a) >= 0 && 8 <= Leading(a) < 64 && Entry(Leading(a), Scale(a)) <= U32_MAX
    ensures Near(a, Guess(a)) && (Nearer(a, Guess(a)) || (a < 0x20_0000 && Guess(a) <= 132))
  {
    hide Pow2, V, Bits, Near, Nearer, Cube, Scale, Shifted, Entry, Scaled64;
    Pow2Values();
    LeadingRange(a);
    if a >= 0x20_0000 { LargeScale(a); }
    GuessIsNear(a, Scale(a), Leading(a));
  }

  lemma LargeScale(a: nat)
    requires a >= 0x20_0000
    ensures Scale(a) >= 6
  {
    hide Pow2, Bits;
    BitsBound(a);
    Pow2Values();
    Pow2Add(16, 4);
    Pow2Add(20, 1);
    if Bits(a) < 22 { Pow2Grows(Bits(a), 21); }
  }

  lemma StepFits(a: nat, x: nat)
    requires Near(a, x) && (Nearer(a, x) || x <= 132)
    ensures (2 * x + Quotient(a, x)) * 341 <= U32_MAX
  {
    hide Quotient, Cube;
    QuotientIsSmall(a, x);
  }

  /** What the caller is promised of the result, in exact arithmetic. */
  predicate Approximates(r: nat, a: nat) {
    && Cube(1023) * a < Cube(1024 * r + 1364)
    && r >= 1 && 4 * Cube(r - 1) <= 5 * a
    && (a >= 0x20_0000 ==> 64 * Cube(r - 1) <= 65 * a)
  }

  lemma StepApproximates(a: nat, x: nat)
    requires Near(a, x) && (a >= 0x20_0000 ==> Nearer(a, x))
    ensures Approximates(Newton(a, x), a)
  {
    hide Close, Newton, Cube;
    NotFarBelow(a, x);
    NearIsClose(a, x);
    NotFarAbove(a, x, 4);
    if Nearer(a, x) { NotFarAbove(a, x, 64); }
  }

  /** The integer nearest to the cube root. */
  predicate Nearest(r: nat, a: nat) {
    (r == 0 || Cube(2 * r - 1) <= 8 * a) && 8 * a < Cube(2 * r + 1)
  }

  /** Below 64 the table alone gives the nearest integer, at every argument but one. */
  lemma TableRounds(a: nat)
    requires a < 64
    ensures Nearest((V(a) + 35) / 64, a) <==> a != 42
  {
  }

  /** The low half of a 64-bit register. */
  function Low32(v: nat): nat {
    v % 0x1_0000_0000
  }

  lemma Low32Is(v: nat)
    ensures Low32(v) < 0x1_0000_0000 && (v < 0x1_0000_0000 ==> Low32(v) == v)
  {
  }

  lemma ScaleFrom(a: nat, f: nat)
    requires f == Bits(a)
    ensures Scale(a) == f * 84 / 256 - 1
  {
  }

  lemma GuessFrom(a: nat)
    requires Scale(a) >= 0 && Leading(a) < 64
    ensures Guess(a) == Scaled64(Leading(a), Scale(a))
  {
  }

  /** No 32-bit register overflows from here on, and the divisor is not zero. */
  predicate Fits(a: nat, shift: nat, b: nat)
    requires shift < 64
  {
    && Entry(shift, b) <= U32_MAX
    && var x := Scaled64(shift, b); x >= 2 && (2 * x + Quotient(a, x)) * 341 <= U32_MAX
  }

  /** The code from the table lookup on. */
  method Lookup(a: u64, shift: u32, b: nat) returns (r: u32)
    requires shift < 64 ==> Fits(a, shift, b)
    ensures shift >= 64 ==> r == 0
    ensures shift < 64 ==> r == Newton(a, Scaled64(shift, b))
  {
    if shift >= 64 { return 0; }
    hide Entry, Quotient, Low32;
    Low32Is(Entry(shift, b));
    var x := Low32(Entry(shift, b)) / 64;
    Low32Is(Quotient(a, x));
    Low32Is(2 * x + Quotient(a, x));
    Low32Is((2 * x + Quotient(a, x)) * 341);
    x := Low32(2 * x + Low32(Quotient(a, x)));
    x := Low32(x * 341) / 1024;
    return x;
  }

  /**
   The 32-bit code is exact for every 64-bit argument: the guard `shift >= 64` never fires, the
   divisor is not zero, neither the shift nor the final product wraps, and the result is near the root.
   */
  method CubicRoot(word: bv64) returns (r: u32)
    ensures var a := Value(word); a < 64 ==> (Nearest(r, a) <==> a != 42)
    ensures var a := Value(word); a >= 64 ==> Approximates(r, a)
    ensures var a := Value(word);
            a >= 64 ==> Scale(a) >= 0 && 8 <= Leading(a) < 64 && Guess(a) >= 2 && r == Newton(a, Guess(a))
  {
    hide *;
    ValueFits(word);
    var a: u64 := Value(word);
    if a < 64 {
      TableRounds(a);
      return (V(a) + 35) / 64;
    }
    var f := Fls64(word);
    GuessOf(a);
    GuessIsFit(a);
    StepApproximates(a, Guess(a));
    ScaleFrom(a, f);
    GuessFrom(a);
    LeadingFrom(a);
    var b := f * 84 / 256 - 1;
    Low32Is(Shifted(a, b * 3));
    var shift := Low32(Shifted(a, b * 3));
    r := Lookup(a, shift, b);
  }

  lemma GuessIsFit(a: u64)
    requires a >= 64 && Scale(a) >= 0 && Leading(a) < 64
    ensures Guess(a) >= 4 && Fits(a, Leading(a), Scale(a))
  {
    hide Pow2, V, Bits, Nearer, Cube, Quotient, Scale, Leading;
    GuessOf(a);
    StepFits(a, Guess(a));
  }

  lemma LeadingFrom(a: nat)
    requires Scale(a) >= 0
    ensures Leading(a) == Shifted(a, Scale(a) * 3)
  {
  }
}
