/**
 The published test vector of SipHash-2-4 (Aumasson and Bernstein, appendix A) and the digest of the
 smallest canonical stream, state by state.
 */
module SipVectors {
  import opened Shared = Words
  import opened SipHash

  // ---------------------------------------------------------------- inputs of two words

  lemma TwoWords(p: seq<bv8>)
    requires |p| == 16
    ensures Words(p) == [Le64(p[..8]), Le64(p[8..])]
  {
    hide Le64;
    assert p[..8][..0] == [] && p[..8][0..] == p[..8];
    assert Words([]) == [];
    assert Words(p[..8]) == [] + [Le64(p[..8])];
  }

  lemma PaddedSeven(b: seq<bv8>)
    requires |b| == 15
    ensures Padded(b)[..8] == b[..8] && Padded(b)[8..] == b[8..] + [15]
  {
    assert LowByte(15) == 15;
    hide LowByte;
    assert Padded(b) == b + [15];
  }

  lemma DigestOfTwo(b: seq<bv8>, k0: bv64, k1: bv64, w0: bv64, w1: bv64, s: Lanes, t: Lanes)
    requires Words(Padded(b)) == [w0, w1] && s == Absorb(Absorb(Init(k0, k1), w0), w1) && t == Finish(s)
    ensures Digest(b, k0, k1) == Xor(Xor(Xor(t.v0, t.v1), t.v2), t.v3)
  {
    hide Absorb, Finish, Init, Words, Padded, Xor;
    var ws := [w0, w1];
    assert ws[..1] == [w0] && [w0][..0] == [];
    assert AbsorbAll(Init(k0, k1), []) == Init(k0, k1);
    assert AbsorbAll(Init(k0, k1), [w0]) == Absorb(Init(k0, k1), w0);
  }

  // ---------------------------------------------------------------- the published vector

  const VECTOR_0 := Lanes(0x7469686173716475, 0x6b617f6d656e6665, 0x6b7f62616d677361, 0x7b6b696e727e6c7b)
  const VECTOR_1 := Lanes(0x7469686173716475, 0x6b617f6d656e6665, 0x6b7f62616d677361, 0x7c6d6c6a717c6d7b)
  const VECTOR_2 := Lanes(0x64668a929363847f, 0x4ed232083d9aa8dc, 0xf2f74892d8141a2e, 0x9290f9810552f4a8)
  const VECTOR_3 := Lanes(0x4d07749cdd0858e0, 0x0d52f6f62a4f59a4, 0x634cb3577b01fd3d, 0xa5224d6f55c7d9c8)
  const VECTOR_4 := Lanes(0x4a017198de0a59e0, 0x0d52f6f62a4f59a4, 0x634cb3577b01fd3d, 0xa5224d6f55c7d9c8)
  const VECTOR_5 := Lanes(0x4a017198de0a59e0, 0x0d52f6f62a4f59a4, 0x634cb3577b01fd3d, 0xaa2c40635ecdd0c0)
  const VECTOR_6 := Lanes(0x557560fb6063d060, 0x4c8e675bd961133e, 0xbd3d002b1703a181, 0xfb9441179a4a7315)
  const VECTOR_7 := Lanes(0x338bbea7645fb759, 0x414fc3fb98efe374, 0xccf13ea527b9f4bd, 0x5293f5da84008f82)
  const VECTOR_8 := Lanes(0x3c85b3ab6f55be51, 0x414fc3fb98efe374, 0xccf13ea527b9f4bd, 0x5293f5da84008f82)
  const VECTOR_9 := Lanes(0x3c85b3ab6f55be51, 0x414fc3fb98efe374, 0xccf13ea527b9f442, 0x5293f5da84008f82)
  const VECTOR_10 := Lanes(0xf2a55244a20e48fe, 0xac5ad16ccc3ca6e4, 0x9fe5adb0a52f393a, 0xfd41d55e88f30308)
  const VECTOR_11 := Lanes(0xb6c3fbdecc2ae4b4, 0x1638c86adc6b3cf0, 0x28b8b6ab62553d46, 0xc9465e86ec43eb95)
  const VECTOR_12 := Lanes(0x58101b167209a5e6, 0xf8792ae75b66e7dd, 0x1da14c3ec7f0b4f7, 0x7624ba8a41bc4ad9)
  const VECTOR_13 := Lanes(0xf6bcd53893fecff1, 0x54b9964c7ea0d937, 0x1b38329c099bb55a, 0x1814bb89ad7be679)

  lemma VectorRound2()
    ensures Round(VECTOR_1) == VECTOR_2
  {
  }

  lemma VectorRound3()
    ensures Round(VECTOR_2) == VECTOR_3
  {
  }

  lemma VectorRound6()
    ensures Round(VECTOR_5) == VECTOR_6
  {
  }

  lemma VectorRound7()
    ensures Round(VECTOR_6) == VECTOR_7
  {
  }

  lemma VectorRound10()
    ensures Round(VECTOR_9) == VECTOR_10
  {
  }

  lemma VectorRound11()
    ensures Round(VECTOR_10) == VECTOR_11
  {
  }

  lemma VectorRound12()
    ensures Round(VECTOR_11) == VECTOR_12
  {
  }

  lemma VectorRound13()
    ensures Round(VECTOR_12) == VECTOR_13
  {
  }

  lemma VectorInit()
    ensures Init(0x0706050403020100, 0x0f0e0d0c0b0a0908) == VECTOR_0
  {
  }

  lemma VectorAbsorb0()
    ensures Absorb(VECTOR_0, 0x0706050403020100) == VECTOR_4
  {
    hide Round;
    VectorRound2();
    VectorRound3();
  }

  lemma VectorAbsorb1()
    ensures Absorb(VECTOR_4, 0x0f0e0d0c0b0a0908) == VECTOR_8
  {
    hide Round;
    VectorRound6();
    VectorRound7();
  }

  lemma VectorFinish()
    ensures Finish(VECTOR_8) == VECTOR_13
  {
    hide Round;
    VectorRound10();
    VectorRound11();
    VectorRound12();
    VectorRound13();
  }

  const VECTOR_BYTES: seq<bv8> := [0, 1, 2, 3, 4, 5, 6, 7, 8, 9, 10, 11, 12, 13, 14]

  lemma VectorPadded()
    ensures Padded(VECTOR_BYTES)[..8] == [0x00, 0x01, 0x02, 0x03, 0x04, 0x05, 0x06, 0x07]
    ensures Padded(VECTOR_BYTES)[8..] == [0x08, 0x09, 0x0a, 0x0b, 0x0c, 0x0d, 0x0e, 0x0f]
  {
    PaddedSeven(VECTOR_BYTES);
    hide Padded;
  }

  lemma VectorWords()
    ensures Words(Padded(VECTOR_BYTES)) == [0x0706050403020100, 0x0f0e0d0c0b0a0908]
  {
    VectorPadded();
    hide Padded, Words;
    TwoWords(Padded(VECTOR_BYTES));
  }

  /** The published value: a full block, a tail of seven bytes, finalization. */
  lemma VectorDigest()
    ensures Digest(VECTOR_BYTES, 0x0706050403020100, 0x0f0e0d0c0b0a0908) == 0xa129ca6149be45e5
  {
    hide Round, Absorb, Finish, Init, Words, Padded, Digest;
    VectorWords();
    VectorInit();
    VectorAbsorb0();
    VectorAbsorb1();
    VectorFinish();
    DigestOfTwo(VECTOR_BYTES, 0x0706050403020100, 0x0f0e0d0c0b0a0908, 0x0706050403020100, 0x0f0e0d0c0b0a0908, VECTOR_8, VECTOR_13);
  }

  // ---------------------------------------------------------------- the stream of one variable

  const VARIABLE_0 := Lanes(0x736f6d6570736575, 0x646f72616e646f6d, 0x6c7967656e657261, 0x7465646279746573)
  const VARIABLE_1 := Lanes(0x736f6d6570736575, 0x646f72616e646f6d, 0x6c7967656e657261, 0x7465646239747d72)
  const VARIABLE_2 := Lanes(0x6394c796b28a7b7c, 0xfe651ba50bca1b67, 0xfb1468421a71bdd1, 0x35ef92e5c45aece2)
  const VARIABLE_3 := Lanes(0x623ad66094288297, 0x7714c71a0e5a96f8, 0xdc0513e2f3913d6a, 0x8d9c93b37fbcfe50)
  const VARIABLE_4 := Lanes(0x623ad660d4289a96, 0x7714c71a0e5a96f8, 0xdc0513e2f3913d6a, 0x8d9c93b37fbcfe50)
  const VARIABLE_5 := Lanes(0x623ad660d4289a96, 0x7714c71a0e5a96f8, 0xdc0513e2f3913d6a, 0x849c93b37fbcfe50)
  const VARIABLE_6 := Lanes(0xd59609b9666e5ca0, 0x1b2de4f05d72f87f, 0x23aa7b26a24e8448, 0xd0c7aa6e82b03efb)
  const VARIABLE_7 := Lanes(0x21fdfc450ac9022d, 0x8adf3341ad19e106, 0xc1ed79bd40d00a9c, 0xc55ebce77a42c1b9)
  const VARIABLE_8 := Lanes(0x28fdfc450ac9022d, 0x8adf3341ad19e106, 0xc1ed79bd40d00a9c, 0xc55ebce77a42c1b9)
  const VARIABLE_9 := Lanes(0x28fdfc450ac9022d, 0x8adf3341ad19e106, 0xc1ed79bd40d00a63, 0xc55ebce77a42c1b9)
  const VARIABLE_10 := Lanes(0xf38e301a2e8838c8, 0xe94a474e220455ee, 0x46d4fe84dd0150ca, 0x6f41657b06cf4da1)
  const VARIABLE_11 := Lanes(0x23f9f3e78b4a6892, 0x2c19a34a193eda69, 0xbe01f20a4a481728, 0x85ec3dd9ae10053e)
  const VARIABLE_12 := Lanes(0x22c0c4ef4d7a30bb, 0x0045fc72b6ec4b2b, 0x781c83dea86903fa, 0x1cbf683c7c35f64b)
  const VARIABLE_13 := Lanes(0x014e0c14f5dca85c, 0x1e1b99dc867f2f22, 0xb1a21633316483da, 0x049456a82a8334ae)

  lemma VariableRound2()
    ensures Round(VARIABLE_1) == VARIABLE_2
  {
  }

  lemma VariableRound3()
    ensures Round(VARIABLE_2) == VARIABLE_3
  {
  }

  lemma VariableRound6()
    ensures Round(VARIABLE_5) == VARIABLE_6
  {
  }

  lemma VariableRound7()
    ensures Round(VARIABLE_6) == VARIABLE_7
  {
  }

  lemma VariableRound10()
    ensures Round(VARIABLE_9) == VARIABLE_10
  {
  }

  lemma VariableRound11()
    ensures Round(VARIABLE_10) == VARIABLE_11
  {
  }

  lemma VariableRound12()
    ensures Round(VARIABLE_11) == VARIABLE_12
  {
  }

  lemma VariableRound13()
    ensures Round(VARIABLE_12) == VARIABLE_13
  {
  }

  lemma VariableInit()
    ensures Init(0x0000000000000000, 0x0000000000000000) == VARIABLE_0
  {
  }

  lemma VariableAbsorb0()
    ensures Absorb(VARIABLE_0, 0x0000000040001801) == VARIABLE_4
  {
    hide Round;
    VariableRound2();
    VariableRound3();
  }

  lemma VariableAbsorb1()
    ensures Absorb(VARIABLE_4, 0x0900000000000000) == VARIABLE_8
  {
    hide Round;
    VariableRound6();
    VariableRound7();
  }

  lemma VariableFinish()
    ensures Finish(VARIABLE_8) == VARIABLE_13
  {
    hide Round;
    VariableRound10();
    VariableRound11();
    VariableRound12();
    VariableRound13();
  }

  const VARIABLE_BYTES: seq<bv8> := [0x01, 0x18, 0x00, 0x40, 0x00, 0x00, 0x00, 0x00, 0x00]

  lemma VariablePadded()
    ensures Padded(VARIABLE_BYTES)[..8] == [0x01, 0x18, 0x00, 0x40, 0x00, 0x00, 0x00, 0x00]
    ensures Padded(VARIABLE_BYTES)[8..] == [0x00, 0x00, 0x00, 0x00, 0x00, 0x00, 0x00, 0x09]
  {
    assert LowByte(9) == 9;
  }

  lemma VariableWords()
    ensures Words(Padded(VARIABLE_BYTES)) == [0x0000000040001801, 0x0900000000000000]
  {
    VariablePadded();
    hide Padded, Words;
    TwoWords(Padded(VARIABLE_BYTES));
  }

  /** A 64-bit variable as a goal of its own, under the zero key. */
  lemma VariableDigest()
    ensures Digest(VARIABLE_BYTES, 0x0000000000000000, 0x0000000000000000) == 0xaa63d5536844300a
  {
    hide Round, Absorb, Finish, Init, Words, Padded, Digest;
    VariableWords();
    VariableInit();
    VariableAbsorb0();
    VariableAbsorb1();
    VariableFinish();
    DigestOfTwo(VARIABLE_BYTES, 0x0000000000000000, 0x0000000000000000, 0x0000000040001801, 0x0900000000000000, VARIABLE_8, VARIABLE_13);
  }
}
