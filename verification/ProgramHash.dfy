/**
 The program hash: an FNV-1a hasher over the instruction count, the debug text of every instruction
 and the sorted invalid program counters. `usize` is 64 bits wide and stored low byte first.
 */
module ProgramHash {
  import opened Words

  // ---------------------------------------------------------------- the hasher

  const OFFSET_BASIS: bv64 := 0xcbf29ce484222325

  /** Multiplication by the FNV prime, wrapping at 64 bits. */
  function Times(x: bv64): bv64 {
    x * 0x100000001b3
  }

  function Mix(h: bv64, b: bv8): bv64 {
    h ^ (b as bv64)
  }

  /** One input byte. */
  function Step(h: bv64, b: u8): bv64 {
    Times(Mix(h, LowByte(b)))
  }

  function Fold(h: bv64, bs: seq<u8>): bv64 {
    if bs == [] then h else Step(Fold(h, bs[..|bs| - 1]), bs[|bs| - 1])
  }

  /** Multiplication by the inverse of the prime modulo 2^64. */
  function Back(x: bv64): bv64 {
    x * 0xce965057aff6957b
  }

  lemma BackUndoes(x: bv64)
    ensures Back(x * 0x100000001b3) == x
  {
  }

  lemma TimesInjective(x: bv64, y: bv64)
    requires Times(x) == Times(y)
    ensures x == y
  {
    hide Back;
    BackUndoes(x);
    BackUndoes(y);
  }

  lemma MixInjective(h: bv64, k: bv64, b: bv8)
    requires Mix(h, b) == Mix(k, b)
    ensures h == k
  {
  }

  lemma MixInjectiveInByte(h: bv64, b: bv8, c: bv8)
    requires Mix(h, b) == Mix(h, c)
    ensures b == c
  {
  }

  /** A step is injective in the state and in the byte. */
  lemma StepInjective(h: bv64, k: bv64, b: u8, c: u8)
    requires Step(h, b) == Step(k, c)
    ensures h == k <==> b == c
  {
    hide Times, Mix, LowByte;
    var x, y := LowByte(b), LowByte(c);
    TimesInjective(Mix(h, x), Mix(k, y));
    if h == k {
      MixInjectiveInByte(h, x, y);
      LowByteInjective(b, c);
    } else if b == c {
      MixInjective(h, k, x);
    }
  }

  /** Two inputs of the same length that differ in exactly one byte never collide. */
  lemma {:induction false} OneByteNeverCollides(h: bv64, a: seq<u8>, b: seq<u8>, k: nat)
    requires DifferOnlyAt(a, b, k)
    ensures Fold(h, a) != Fold(h, b)
  {
    hide Step;
    var n := |a| - 1;
    var x, y := a[..n], b[..n];
    if k == n {
      assert x == y;
    } else {
      OneByteNeverCollides(h, x, y, k);
    }
    if Fold(h, a) == Fold(h, b) {
      StepInjective(Fold(h, x), Fold(h, y), a[n], b[n]);
    }
  }

  predicate DifferOnlyAt(a: seq<u8>, b: seq<u8>, k: nat) {
    && |a| == |b| && k < |a| && a[k] != b[k]
    && forall i :: 0 <= i < |a| && i != k ==> a[i] == b[i]
  }

  lemma {:induction false} FoldAppend(h: bv64, a: seq<u8>, b: seq<u8>)
    ensures Fold(h, a + b) == Fold(Fold(h, a), b)
  {
    if b == [] {
      assert a + b == a;
    } else {
      var n := |b| - 1;
      FoldAppend(h, a, b[..n]);
      assert (a + b)[..|a + b| - 1] == a + b[..n];
    }
  }

  class StableHasher {
    var state: bv64

    constructor ()
      ensures state == OFFSET_BASIS
    {
      state := OFFSET_BASIS;
    }

    method Write(bytes: seq<u8>)
      modifies this
      ensures state == Fold(old(state), bytes)
    {
      for i := 0 to |bytes|
        invariant state == Fold(old(state), bytes[..i])
      {
        assert bytes[..i + 1][..i] == bytes[..i];
        state := Mix(state, LowByte(bytes[i]));
        state := Times(state);
      }
      assert bytes[..|bytes|] == bytes;
    }
  }

  // ---------------------------------------------------------------- the byte stream

  /** UTF-8 text: no byte is 0xff. */
  predicate IsText(t: seq<u8>) {
    0xff !in t
  }

  /** What a program contributes: the debug text of its instructions and its invalid counters. */
  datatype Program = Program(texts: seq<seq<u8>>, invalid: set<u64>)

  predicate Representable(p: Program) {
    |p.texts| <= U64_MAX && forall t :: t in p.texts ==> IsText(t)
  }

  const U64_MAX: u64 := 0xFFFF_FFFF_FFFF_FFFF

  /** `order` lists a set, each element once: one of the orders in which a hash set may be iterated. */
  predicate Lists(order: seq<u64>, s: set<u64>) {
    && |order| <= U64_MAX && Distinct(order)
    && forall x: u64 :: x in order <==> x in s
  }

  /** Each text followed by the byte 0xff. */
  function Texts(ts: seq<seq<u8>>): seq<u8> {
    if ts == [] then [] else ts[0] + [0xff] + Texts(ts[1..])
  }

  function Counters(pcs: seq<u64>): seq<u8> {
    if pcs == [] then [] else LE64(pcs[0]) + Counters(pcs[1..])
  }

  function Stream(texts: seq<seq<u8>>, pcs: seq<u64>): seq<u8>
    requires |texts| <= U64_MAX && |pcs| <= U64_MAX
  {
    LE64(|texts|) + Texts(texts) + (LE64(|pcs|) + Counters(pcs))
  }

  // ---------------------------------------------------------------- sorting

  function Insert(s: seq<u64>, x: u64): (r: seq<u64>)
    ensures |r| == |s| + 1
  {
    if s == [] || s[|s| - 1] <= x then s + [x] else Insert(s[..|s| - 1], x) + [s[|s| - 1]]
  }

  function Sorted(s: seq<u64>): (r: seq<u64>)
    ensures |r| == |s|
  {
    if s == [] then [] else Insert(Sorted(s[..|s| - 1]), s[|s| - 1])
  }

  predicate Ascending(s: seq<u64>) {
    forall i, j :: 0 <= i < j < |s| ==> s[i] < s[j]
  }

  lemma {:induction false} InsertSplits(s: seq<u64>, x: u64, j: nat)
    requires j <= |s| && (forall k :: j <= k < |s| ==> x < s[k]) && (j > 0 ==> s[j - 1] <= x)
    ensures Insert(s, x) == s[..j] + [x] + s[j..]
  {
    if j < |s| {
      var n := |s| - 1;
      InsertSplits(s[..n], x, j);
      assert s[..n][..j] == s[..j] && s[..n][j..] + [s[n]] == s[j..];
    } else {
      assert s[..j] == s && s[j..] == [];
    }
  }

  lemma {:induction false} InsertHolds(s: seq<u64>, x: u64, y: u64)
    ensures y in Insert(s, x) <==> y in s || y == x
  {
    if s != [] && s[|s| - 1] > x {
      var n := |s| - 1;
      InsertHolds(s[..n], x, y);
      assert s == s[..n] + [s[n]];
    }
  }

  lemma {:induction false} InsertAscends(s: seq<u64>, x: u64)
    requires Ascending(s) && x !in s
    ensures Ascending(Insert(s, x))
  {
    if s != [] {
      var n := |s| - 1;
      assert s[n] in s;
      if s[n] > x {
        InsertAscends(s[..n], x);
        SnocAscends(Insert(s[..n], x), s, x);
      }
    }
  }

  lemma SnocAscends(r: seq<u64>, s: seq<u64>, x: u64)
    requires s != [] && Ascending(s) && s[|s| - 1] > x && r == Insert(s[..|s| - 1], x) && Ascending(r)
    ensures Ascending(r + [s[|s| - 1]])
  {
    hide Insert;
    var n := |s| - 1;
    forall k | 0 <= k < |r| ensures r[k] < s[n] {
      InsertHolds(s[..n], x, r[k]);
    }
  }

  lemma {:induction false} SortedKeeps(s: seq<u64>)
    requires Distinct(s)
    ensures Ascending(Sorted(s)) && forall y: u64 :: y in Sorted(s) <==> y in s
  {
    if s != [] {
      var n := |s| - 1;
      SortedKeeps(s[..n]);
      assert s == s[..n] + [s[n]];
      assert s[n] !in s[..n];
      InsertAscends(Sorted(s[..n]), s[n]);
      forall y: u64 ensures y in Sorted(s) <==> y in s { InsertHolds(Sorted(s[..n]), s[n], y); }
    }
  }

  lemma AllButLast(s: seq<u64>, y: u64)
    requires s != [] && Ascending(s)
    ensures y in s[..|s| - 1] <==> y in s && y != s[|s| - 1]
  {
    assert s == s[..|s| - 1] + [s[|s| - 1]];
  }

  lemma BothEmpty(a: seq<u64>, b: seq<u64>)
    requires forall y: u64 :: y in b ==> y in a
    ensures |b| > 0 ==> |a| > 0
  {
    if |b| > 0 {
      var y := b[0];
      assert y in b;
    }
  }

  ghost predicate SameElements(a: seq<u64>, b: seq<u64>) {
    forall y: u64 :: y in a <==> y in b
  }

  lemma SameLast(a: seq<u64>, b: seq<u64>)
    requires a != [] && b != [] && Ascending(a) && Ascending(b) && SameElements(a, b)
    ensures a[|a| - 1] == b[|b| - 1]
  {
    AtMostLast(b, a[|a| - 1]);
    AtMostLast(a, b[|b| - 1]);
  }

  lemma AtMostLast(s: seq<u64>, y: u64)
    requires s != [] && Ascending(s) && y in s
    ensures y <= s[|s| - 1]
  {
  }

  lemma SamePrefixes(a: seq<u64>, b: seq<u64>)
    requires a != [] && b != [] && Ascending(a) && Ascending(b) && SameElements(a, b)
    ensures SameElements(a[..|a| - 1], b[..|b| - 1]) && Ascending(a[..|a| - 1]) && Ascending(b[..|b| - 1])
  {
    SameLast(a, b);
    var p, q := a[..|a| - 1], b[..|b| - 1];
    forall y: u64 ensures y in p <==> y in q {
      AllButLast(a, y);
      AllButLast(b, y);
    }
  }

  lemma {:induction false} AscendingIsUnique(a: seq<u64>, b: seq<u64>)
    requires Ascending(a) && Ascending(b) && SameElements(a, b)
    ensures a == b
  {
    if a == [] || b == [] {
      if a == [] { BothEmpty(a, b); } else { BothEmpty(b, a); }
    } else {
      hide Ascending, SameElements;
      SameLast(a, b);
      SamePrefixes(a, b);
      AscendingIsUnique(a[..|a| - 1], b[..|b| - 1]);
      assert a == a[..|a| - 1] + [a[|a| - 1]] && b == b[..|b| - 1] + [b[|b| - 1]];
    }
  }

  lemma SortedNext(s: seq<u64>, i: nat)
    requires i < |s|
    ensures Sorted(s[..i + 1]) == Insert(Sorted(s[..i]), s[i])
  {
    assert s[..i + 1][..i] == s[..i];
  }

  /** In place, as the source sorts its vector. */
  method SortUnstable(a: array<u64>)
    modifies a
    ensures a[..] == Sorted(old(a[..]))
  {
    hide Sorted, Insert;
    ghost var before := a[..];
    NothingSorted();
    assert before[..0] == [];
    for i := 0 to a.Length
      invariant a[..i] == Sorted(before[..i]) && a[i..] == before[i..]
    {
      SortedNext(before, i);
      assert a[i] == a[i..][0] == before[i];
      InsertLast(a, i);
      assert before[i + 1..] == before[i..][1..];
    }
    assert before[..a.Length] == before && a[..a.Length] == a[..];
  }

  lemma NothingSorted()
    ensures Sorted([]) == []
  {
  }

  method InsertLast(a: array<u64>, i: nat)
    requires i < a.Length
    modifies a
    ensures a[..i + 1] == Insert(old(a[..i]), old(a[i])) && a[i + 1..] == old(a[i + 1..])
  {
    hide Insert;
    var x, j := a[i], i;
    ghost var s, rest := a[..i], a[i + 1..];
    while j > 0 && a[j - 1] > x
      invariant j <= i && a[i + 1..] == rest
      invariant forall k :: 0 <= k < j ==> a[k] == s[k]
      invariant forall k :: j <= k < i ==> a[k + 1] == s[k] && x < s[k]
    {
      a[j] := a[j - 1];
      j := j - 1;
    }
    a[j] := x;
    InsertSplits(s, x, j);
    assert a[..i + 1] == s[..j] + [x] + s[j..];
  }

  // ---------------------------------------------------------------- the stream determines the program

  lemma StopNotEarlier(a: seq<u8>, b: seq<u8>, x: seq<u8>, y: seq<u8>)
    requires IsText(b) && a + [0xff] + x == b + [0xff] + y
    ensures |b| <= |a|
  {
    var t := b + [0xff] + y;
    forall k | 0 <= k < |b|
      ensures t[k] != 0xff
    {
      assert t[k] == b[k] && b[k] in b;
    }
    assert (a + [0xff] + x)[|a|] == 0xff;
  }

  lemma FirstStop(a: seq<u8>, b: seq<u8>, x: seq<u8>, y: seq<u8>)
    requires IsText(a) && IsText(b) && a + [0xff] + x == b + [0xff] + y
    ensures a == b && x == y
  {
    StopNotEarlier(a, b, x, y);
    StopNotEarlier(b, a, y, x);
    var s, t := a + [0xff] + x, b + [0xff] + y;
    assert a == s[..|a|] && b == t[..|b|] && x == s[|a| + 1..] && y == t[|b| + 1..];
  }

  lemma {:induction false} TextsCut(a: seq<seq<u8>>, b: seq<seq<u8>>, x: seq<u8>, y: seq<u8>)
    requires |a| == |b| && (forall t :: t in a ==> IsText(t)) && (forall t :: t in b ==> IsText(t))
    requires Texts(a) + x == Texts(b) + y
    ensures a == b && x == y
  {
    if a == [] {
      assert Texts(a) + x == x && Texts(b) + y == y;
    } else {
      assert Texts(a) + x == a[0] + [0xff] + (Texts(a[1..]) + x);
      assert Texts(b) + y == b[0] + [0xff] + (Texts(b[1..]) + y);
      FirstStop(a[0], b[0], Texts(a[1..]) + x, Texts(b[1..]) + y);
      TextsCut(a[1..], b[1..], x, y);
      assert a == [a[0]] + a[1..] && b == [b[0]] + b[1..];
    }
  }

  /** An eight-byte word in front can be taken off again. */
  lemma WordCut(m: u64, n: u64, x: seq<u8>, y: seq<u8>)
    requires LE64(m) + x == LE64(n) + y
    ensures m == n && x == y
  {
    hide LE64, U64At;
    var s, t := LE64(m) + x, LE64(n) + y;
    assert s[0..8] == LE64(m) && t[0..8] == LE64(n) && x == s[8..] && y == t[8..];
    ReadBack64(s, 0, m);
    ReadBack64(t, 0, n);
  }

  lemma {:induction false} CountersCut(a: seq<u64>, b: seq<u64>)
    requires |a| == |b| && Counters(a) == Counters(b)
    ensures a == b
  {
    hide LE64;
    if a != [] {
      WordCut(a[0], b[0], Counters(a[1..]), Counters(b[1..]));
      CountersCut(a[1..], b[1..]);
      assert a == [a[0]] + a[1..] && b == [b[0]] + b[1..];
    }
  }

  lemma StreamCut(ts: seq<seq<u8>>, us: seq<seq<u8>>, a: seq<u64>, b: seq<u64>)
    requires |ts| <= U64_MAX && |us| <= U64_MAX && |a| <= U64_MAX && |b| <= U64_MAX
    requires (forall t :: t in ts ==> IsText(t)) && (forall t :: t in us ==> IsText(t))
    requires Stream(ts, a) == Stream(us, b)
    ensures ts == us && a == b
  {
    hide LE64, Texts, Counters;
    var x, y := LE64(|a|) + Counters(a), LE64(|b|) + Counters(b);
    assert Stream(ts, a) == LE64(|ts|) + (Texts(ts) + x) && Stream(us, b) == LE64(|us|) + (Texts(us) + y);
    WordCut(|ts|, |us|, Texts(ts) + x, Texts(us) + y);
    TextsCut(ts, us, x, y);
    WordCut(|a|, |b|, Counters(a), Counters(b));
    CountersCut(a, b);
  }

  /**
   Whatever order the two sets are iterated in, the hashed streams are equal exactly when the
   programs have the same instruction texts and the same invalid counters.
   */
  lemma StreamIsProgram(p: Program, q: Program, order: seq<u64>, order': seq<u64>)
    requires Representable(p) && Representable(q) && Lists(order, p.invalid) && Lists(order', q.invalid)
    ensures Stream(p.texts, Sorted(order)) == Stream(q.texts, Sorted(order')) <==> p == q
  {
    hide Stream, Sorted;
    SortedKeeps(order);
    SortedKeeps(order');
    if p == q {
      AscendingIsUnique(Sorted(order), Sorted(order'));
    } else if Stream(p.texts, Sorted(order)) == Stream(q.texts, Sorted(order')) {
      StreamCut(p.texts, q.texts, Sorted(order), Sorted(order'));
      SameMembers(order, order', p.invalid, q.invalid);
    }
  }

  lemma SameMembers(order: seq<u64>, order': seq<u64>, s: set<u64>, s': set<u64>)
    requires Lists(order, s) && Lists(order', s') && Sorted(order) == Sorted(order')
    ensures s == s'
  {
    SortedKeeps(order);
    SortedKeeps(order');
    forall x: u64
      ensures x in s <==> x in s'
    {
      assert x in order <==> x in order';
    }
  }

  // ---------------------------------------------------------------- the hash

  function Nibble(h: bv64, k: nat): bv64
    requires k <= 60
  {
    (h >> k) & 15
  }

  function Digit(n: bv64): char {
    if n == 0 then '0' else if n == 1 then '1' else if n == 2 then '2' else if n == 3 then '3'
    else if n == 4 then '4' else if n == 5 then '5' else if n == 6 then '6' else if n == 7 then '7'
    else if n == 8 then '8' else if n == 9 then '9' else if n == 10 then 'a' else if n == 11 then 'b'
    else if n == 12 then 'c' else if n == 13 then 'd' else if n == 14 then 'e' else 'f'
  }

  lemma NibblesAre(h: bv64)
    ensures Nibble(h, 60) == (h >> 60) & 15 && Nibble(h, 56) == (h >> 56) & 15
    ensures Nibble(h, 52) == (h >> 52) & 15 && Nibble(h, 48) == (h >> 48) & 15
    ensures Nibble(h, 44) == (h >> 44) & 15 && Nibble(h, 40) == (h >> 40) & 15
    ensures Nibble(h, 36) == (h >> 36) & 15 && Nibble(h, 32) == (h >> 32) & 15
    ensures Nibble(h, 28) == (h >> 28) & 15 && Nibble(h, 24) == (h >> 24) & 15
    ensures Nibble(h, 20) == (h >> 20) & 15 && Nibble(h, 16) == (h >> 16) & 15
    ensures Nibble(h, 12) == (h >> 12) & 15 && Nibble(h, 8) == (h >> 8) & 15
    ensures Nibble(h, 4) == (h >> 4) & 15 && Nibble(h, 0) == (h >> 0) & 15
  {
  }

  function DigitValue(c: char): bv64 {
    match c
    case '0' => 0 case '1' => 1 case '2' => 2 case '3' => 3 case '4' => 4 case '5' => 5 case '6' => 6 case '7' => 7
    case '8' => 8 case '9' => 9 case 'a' => 10 case 'b' => 11 case 'c' => 12 case 'd' => 13 case 'e' => 14 case _ => 15
  }

  /** The number that a string of digits stands for in base 16, first digit most significant. */
  function ReadHex(s: string): bv64 {
    if s == [] then 0 else Shifted(ReadHex(s[..|s| - 1]), DigitValue(s[|s| - 1]))
  }

  function Shifted(x: bv64, d: bv64): bv64 {
    x * 16 + d
  }

  lemma LowDigitReadsBack(n: bv64)
    requires n < 8
    ensures DigitValue(Digit(n)) == n
  {
  }

  lemma HighDigitReadsBack(n: bv64)
    requires 8 <= n < 16
    ensures DigitValue(Digit(n)) == n
  {
  }

  lemma DigitReadsBack(n: bv64)
    requires n < 16
    ensures DigitValue(Digit(n)) == n
  {
    hide DigitValue, Digit;
    if n < 8 { LowDigitReadsBack(n); } else { HighDigitReadsBack(n); }
  }

  lemma Join60(h: bv64)
    ensures Shifted(0, (h >> 60) & 15) == h >> 60
  {
  }

  lemma Join56(h: bv64)
    ensures Shifted(h >> 60, (h >> 56) & 15) == h >> 56
  {
  }

  lemma Join52(h: bv64)
    ensures Shifted(h >> 56, (h >> 52) & 15) == h >> 52
  {
  }

  lemma Join48(h: bv64)
    ensures Shifted(h >> 52, (h >> 48) & 15) == h >> 48
  {
  }

  lemma Join44(h: bv64)
    ensures Shifted(h >> 48, (h >> 44) & 15) == h >> 44
  {
  }

  lemma Join40(h: bv64)
    ensures Shifted(h >> 44, (h >> 40) & 15) == h >> 40
  {
  }

  lemma Join36(h: bv64)
    ensures Shifted(h >> 40, (h >> 36) & 15) == h >> 36
  {
  }

  lemma Join32(h: bv64)
    ensures Shifted(h >> 36, (h >> 32) & 15) == h >> 32
  {
  }

  lemma Join28(h: bv64)
    ensures Shifted(h >> 32, (h >> 28) & 15) == h >> 28
  {
  }

  lemma Join24(h: bv64)
    ensures Shifted(h >> 28, (h >> 24) & 15) == h >> 24
  {
  }

  lemma Join20(h: bv64)
    ensures Shifted(h >> 24, (h >> 20) & 15) == h >> 20
  {
  }

  lemma Join16(h: bv64)
    ensures Shifted(h >> 20, (h >> 16) & 15) == h >> 16
  {
  }

  lemma Join12(h: bv64)
    ensures Shifted(h >> 16, (h >> 12) & 15) == h >> 12
  {
  }

  lemma Join8(h: bv64)
    ensures Shifted(h >> 12, (h >> 8) & 15) == h >> 8
  {
  }

  lemma Join4(h: bv64)
    ensures Shifted(h >> 8, (h >> 4) & 15) == h >> 4
  {
  }

  lemma Join0(h: bv64)
    ensures Shifted(h >> 4, (h >> 0) & 15) == h >> 0
  {
  }

  lemma NibbleReadsBack(h: bv64, k: nat)
    requires k <= 60
    ensures DigitValue(Digit(Nibble(h, k))) == Nibble(h, k)
  {
    assert Nibble(h, k) < 16;
    hide Nibble, Digit, DigitValue;
    DigitReadsBack(Nibble(h, k));
  }

  lemma ReadNext(s: string, c: char)
    ensures ReadHex(s + [c]) == Shifted(ReadHex(s), DigitValue(c))
  {
    hide Shifted, DigitValue;
    var t := s + [c];
    assert t[..|t| - 1] == s;
  }

  lemma ReadFour(s: string, a: char, b: char, c: char, d: char)
    ensures ReadHex(s + [a, b, c, d])
         == Shifted(Shifted(Shifted(Shifted(ReadHex(s), DigitValue(a)), DigitValue(b)), DigitValue(c)), DigitValue(d))
  {
    hide Shifted, DigitValue, ReadHex;
    ReadNext(s, a);
    ReadNext(s + [a], b);
    ReadNext(s + [a] + [b], c);
    ReadNext(s + [a] + [b] + [c], d);
    assert s + [a] + [b] + [c] + [d] == s + [a, b, c, d];
  }

  function Quad60(h: bv64): string {
    [Digit(Nibble(h, 60)), Digit(Nibble(h, 56)), Digit(Nibble(h, 52)), Digit(Nibble(h, 48))]
  }

  lemma ReadQuarter60(s: string, h: bv64)
    requires ReadHex(s) == 0
    ensures ReadHex(s + Quad60(h)) == h >> 48
  {
    hide Shifted, DigitValue, ReadHex, Nibble, Digit;
    NibblesAre(h);
    NibbleReadsBack(h, 60);
    NibbleReadsBack(h, 56);
    NibbleReadsBack(h, 52);
    NibbleReadsBack(h, 48);
    ReadFour(s, Digit(Nibble(h, 60)), Digit(Nibble(h, 56)), Digit(Nibble(h, 52)), Digit(Nibble(h, 48)));
    Join60(h);
    Join56(h);
    Join52(h);
    Join48(h);
  }

  function Quad44(h: bv64): string {
    [Digit(Nibble(h, 44)), Digit(Nibble(h, 40)), Digit(Nibble(h, 36)), Digit(Nibble(h, 32))]
  }

  lemma ReadQuarter44(s: string, h: bv64)
    requires ReadHex(s) == h >> 48
    ensures ReadHex(s + Quad44(h)) == h >> 32
  {
    hide Shifted, DigitValue, ReadHex, Nibble, Digit;
    NibblesAre(h);
    NibbleReadsBack(h, 44);
    NibbleReadsBack(h, 40);
    NibbleReadsBack(h, 36);
    NibbleReadsBack(h, 32);
    ReadFour(s, Digit(Nibble(h, 44)), Digit(Nibble(h, 40)), Digit(Nibble(h, 36)), Digit(Nibble(h, 32)));
    Join44(h);
    Join40(h);
    Join36(h);
    Join32(h);
  }

  function Quad28(h: bv64): string {
    [Digit(Nibble(h, 28)), Digit(Nibble(h, 24)), Digit(Nibble(h, 20)), Digit(Nibble(h, 16))]
  }

  lemma ReadQuarter28(s: string, h: bv64)
    requires ReadHex(s) == h >> 32
    ensures ReadHex(s + Quad28(h)) == h >> 16
  {
    hide Shifted, DigitValue, ReadHex, Nibble, Digit;
    NibblesAre(h);
    NibbleReadsBack(h, 28);
    NibbleReadsBack(h, 24);
    NibbleReadsBack(h, 20);
    NibbleReadsBack(h, 16);
    ReadFour(s, Digit(Nibble(h, 28)), Digit(Nibble(h, 24)), Digit(Nibble(h, 20)), Digit(Nibble(h, 16)));
    Join28(h);
    Join24(h);
    Join20(h);
    Join16(h);
  }

  function Quad12(h: bv64): string {
    [Digit(Nibble(h, 12)), Digit(Nibble(h, 8)), Digit(Nibble(h, 4)), Digit(Nibble(h, 0))]
  }

  lemma ReadQuarter12(s: string, h: bv64)
    requires ReadHex(s) == h >> 16
    ensures ReadHex(s + Quad12(h)) == h >> 0
  {
    hide Shifted, DigitValue, ReadHex, Nibble, Digit;
    NibblesAre(h);
    NibbleReadsBack(h, 12);
    NibbleReadsBack(h, 8);
    NibbleReadsBack(h, 4);
    NibbleReadsBack(h, 0);
    ReadFour(s, Digit(Nibble(h, 12)), Digit(Nibble(h, 8)), Digit(Nibble(h, 4)), Digit(Nibble(h, 0)));
    Join12(h);
    Join8(h);
    Join4(h);
    Join0(h);
  }

  /** Sixteen lower-case hexadecimal digits, most significant first. */
  function Hex(h: bv64): string {
    Quad60(h) + Quad44(h) + Quad28(h) + Quad12(h)
  }

  lemma QuadLengths(h: bv64)
    ensures |Quad60(h)| == |Quad44(h)| == |Quad28(h)| == |Quad12(h)| == 4
  {
    hide Nibble, Digit;
  }

  lemma Whole(h: bv64)
    ensures h >> 0 == h && ReadHex([]) == 0
  {
  }

  /** The printed hash, read in base 16, is the hash. */
  lemma HexReadsBack(h: bv64)
    ensures |Hex(h)| == 16 && ReadHex(Hex(h)) == h
  {
    hide ReadHex, Nibble, Digit;
    QuadLengths(h);
    hide Quad60, Quad44, Quad28, Quad12;
    Whole(h);
    ReadQuarter60([], h);
    assert [] + Quad60(h) == Quad60(h);
    ReadQuarter44(Quad60(h), h);
    ReadQuarter28(Quad60(h) + Quad44(h), h);
    ReadQuarter12(Quad60(h) + Quad44(h) + Quad28(h), h);
  }

  lemma HexInjective(g: bv64, h: bv64)
    requires Hex(g) == Hex(h)
    ensures g == h
  {
    hide Hex, ReadHex;
    HexReadsBack(g);
    HexReadsBack(h);
  }

  function HashOf(texts: seq<seq<u8>>, pcs: seq<u64>): string
    requires |texts| <= U64_MAX && |pcs| <= U64_MAX
  {
    Hex(Fold(OFFSET_BASIS, Stream(texts, pcs)))
  }

  lemma Nothing(h: bv64)
    ensures Texts([]) == [] && Fold(h, []) == h
  {
  }

  lemma {:induction false} TextsAppend(a: seq<seq<u8>>, t: seq<u8>)
    ensures Texts(a + [t]) == Texts(a) + (t + [0xff])
  {
    if a == [] {
      assert a + [t] == [t];
      assert Texts([t]) == t + [0xff] + [];
    } else {
      TextsAppend(a[1..], t);
      assert (a + [t])[1..] == a[1..] + [t];
      assert Texts(a) + (t + [0xff]) == a[0] + [0xff] + (Texts(a[1..]) + (t + [0xff]));
    }
  }

  method WriteTexts(hasher: StableHasher, texts: seq<seq<u8>>)
    modifies hasher
    ensures hasher.state == Fold(old(hasher.state), Texts(texts))
  {
    hide *;
    ghost var h := hasher.state;
    Nothing(h);
    assert texts[..0] == [];
    for i := 0 to |texts|
      invariant hasher.state == Fold(h, Texts(texts[..i]))
    {
      hasher.Write(texts[i]);
      hasher.Write([0xff]);
      FoldAppend(Fold(h, Texts(texts[..i])), texts[i], [0xff]);
      FoldAppend(h, Texts(texts[..i]), texts[i] + [0xff]);
      TextsAppend(texts[..i], texts[i]);
      assert texts[..i + 1] == texts[..i] + [texts[i]];
    }
    assert texts[..|texts|] == texts;
  }

  /** `order` is the order in which the source happens to collect the set. */
  method ProgramHash(texts: seq<seq<u8>>, order: array<u64>) returns (r: string)
    requires |texts| <= U64_MAX && order.Length <= U64_MAX
    modifies order
    ensures r == HashOf(texts, Sorted(old(order[..])))
  {
    hide Fold, LE64, Texts, Counters, Sorted, Hex;
    var hasher := new StableHasher();
    hasher.Write(LE64(|texts|));
    WriteTexts(hasher, texts);
    SortUnstable(order);
    hasher.Write(LE64(order.Length));
    hasher.Write(Counters(order[..]));
    Pieces(texts, order[..]);
    r := Hex(hasher.state);
  }

  /** Writing the parts one after the other hashes the whole stream. */
  lemma Pieces(texts: seq<seq<u8>>, pcs: seq<u64>)
    requires |texts| <= U64_MAX && |pcs| <= U64_MAX
    ensures Fold(Fold(Fold(Fold(OFFSET_BASIS, LE64(|texts|)), Texts(texts)), LE64(|pcs|)), Counters(pcs))
         == Fold(OFFSET_BASIS, Stream(texts, pcs))
  {
    hide Fold, LE64, Texts, Counters;
    FoldAppend(OFFSET_BASIS, LE64(|texts|), Texts(texts));
    FoldAppend(OFFSET_BASIS, LE64(|texts|) + Texts(texts), LE64(|pcs|) + Counters(pcs));
    FoldAppend(Fold(OFFSET_BASIS, LE64(|texts|) + Texts(texts)), LE64(|pcs|), Counters(pcs));
  }

  // ---------------------------------------------------------------- one changed byte

  function Changed(ts: seq<seq<u8>>, i: nat, j: nat, c: u8): (us: seq<seq<u8>>)
    requires i < |ts| && j < |ts[i]|
    ensures |us| == |ts|
  {
    var t: seq<u8> := ts[i][..j] + [c] + ts[i][j + 1..];
    ts[..i] + [t] + ts[i + 1..]
  }

  lemma {:induction false} TextsChange(ts: seq<seq<u8>>, i: nat, j: nat, c: u8) returns (k: nat)
    requires i < |ts| && j < |ts[i]| && ts[i][j] != c
    ensures DifferOnlyAt(Texts(ts), Texts(Changed(ts, i, j, c)), k)
  {
    var us := Changed(ts, i, j, c);
    if i == 0 {
      k := j;
      assert us[1..] == ts[1..];
    } else {
      var m := TextsChange(ts[1..], i - 1, j, c);
      k := |ts[0]| + 1 + m;
      assert us[1..] == Changed(ts[1..], i - 1, j, c);
    }
  }

  /** Replacing one byte of one instruction's text changes the hash. */
  lemma ChangedByteChangesHash(texts: seq<seq<u8>>, pcs: seq<u64>, i: nat, j: nat, c: u8)
    requires |texts| <= U64_MAX && |pcs| <= U64_MAX && i < |texts| && j < |texts[i]| && texts[i][j] != c
    ensures HashOf(texts, pcs) != HashOf(Changed(texts, i, j, c), pcs)
  {
    hide Hex, Fold;
    var us := Changed(texts, i, j, c);
    var k := TextsChange(texts, i, j, c);
    OneByteNeverCollides(OFFSET_BASIS, Stream(texts, pcs), Stream(us, pcs), 8 + k);
    if HashOf(texts, pcs) == HashOf(us, pcs) {
      HexInjective(Fold(OFFSET_BASIS, Stream(texts, pcs)), Fold(OFFSET_BASIS, Stream(us, pcs)));
    }
  }

  // ---------------------------------------------------------------- published values of the hash

  lemma LetterA()
    ensures LowByte(97) == 0x61
  {
  }

  lemma MixOfA()
    ensures Mix(OFFSET_BASIS, 0x61) == 0xcbf29ce484222344
  {
  }

  lemma TimesOfA()
    ensures Times(0xcbf29ce484222344) == 0xaf63dc4c8601ec8c
  {
  }

  lemma StepOfA()
    ensures Step(OFFSET_BASIS, 97) == 0xaf63dc4c8601ec8c
  {
    hide LowByte, Mix, Times;
    LetterA();
    MixOfA();
    TimesOfA();
  }

  /** The value published for the one byte of "a". */
  lemma FnvOfA()
    ensures Fold(OFFSET_BASIS, [97]) == 0xaf63dc4c8601ec8c
  {
    StepOfA();
    hide Step;
    var one: seq<u8> := [97];
    assert one[..0] == [];
  }

  /** Two texts and one counter, byte by byte: the counts, each text closed by 0xff, the counters. */
  lemma SampleStream()
    ensures Stream([[65], [66, 67]], [5])
         == [2, 0, 0, 0, 0, 0, 0, 0] + [65, 0xff, 66, 67, 0xff] + ([1, 0, 0, 0, 0, 0, 0, 0] + [5, 0, 0, 0, 0, 0, 0, 0])
  {
    LE64OfByte(2);
    LE64OfByte(1);
    LE64OfByte(5);
    hide LE64;
    var ts: seq<seq<u8>>, last: seq<seq<u8>> := [[65], [66, 67]], [[66, 67]];
    assert ts[1..] == last && last[1..] == [];
    assert Texts([]) == [] && Counters([]) == [];
    assert Texts(last) == [66, 67, 0xff];
    assert [5][1..] == [];
  }
}
