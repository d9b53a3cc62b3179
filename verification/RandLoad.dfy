/**
 The test-program generator that stores the result its own program will return: 64-bit immediate
 loads of random words, all exclusive-ored into register 0. Programs are executed by the rules of
 sections 4 and 5.4 of RFC 9669, for the instructions the generator emits.
 */
module RandLoad {
  import opened Words

  const MAX_INSNS := 4096

  /** `imm` is the bit pattern of the signed 32-bit field. */
  datatype Insn = Insn(code: u8, dst: nat, src: nat, off: int, imm: bv32)

  // ---------------------------------------------------------------- execution

  datatype Outcome = Exited(r0: bv64) | Fault

  const REGISTERS := 11

  function Low(v: bv64): bv32 {
    (v & 0xFFFF_FFFF) as bv32
  }

  function High(v: bv64): bv32 {
    (v >> 32) as bv32
  }

  /** The two halves of a 64-bit immediate (section 5.4). */
  function Wide(low: bv32, high: bv32): bv64 {
    ((high as bv64) << 32) | (low as bv64)
  }

  function SignExtended(v: bv32): bv64 {
    if v < 0x8000_0000 then v as bv64 else 0xFFFF_FFFF_0000_0000 | (v as bv64)
  }

  /** Move, exclusive or and logical right shift on 64 bits; `op` is the high nibble of the opcode. */
  function Operate64(op: nat, d: bv64, s: bv64): Option<bv64> {
    if op == 0xb then Some(s) else if op == 0xa then Some(d ^ s) else if op == 0x7 then Some(Shift64(d, s)) else None
  }

  function Shift64(d: bv64, s: bv64): bv64 {
    d >> (s & 63)
  }

  /** The same on 32 bits; the upper half of the destination becomes zero. */
  function Operate32(op: nat, d: bv32, s: bv32): Option<bv64> {
    if op == 0xb then Some(s as bv64)
    else if op == 0xa then Some((d ^ s) as bv64)
    else if op == 0x7 then Some(Shift32(d, s))
    else None
  }

  function Shift32(d: bv32, s: bv32): bv64 {
    (d >> (s & 31)) as bv64
  }

  /** Class in the low three bits, source flag in the fourth, operation in the high nibble (section 4.1). */
  function Alu(i: Insn, regs: seq<bv64>): Option<bv64>
    requires |regs| == REGISTERS && i.dst < REGISTERS && i.src < REGISTERS
  {
    var code: nat := i.code;
    var fromReg := code / 8 % 2 == 1;
    if code % 8 == 7 then
      Operate64(code / 16, regs[i.dst], if fromReg then regs[i.src] else SignExtended(i.imm))
    else if code % 8 == 4 then
      Operate32(code / 16, Low(regs[i.dst]), if fromReg then Low(regs[i.src]) else i.imm)
    else None
  }

  function Exec(prog: seq<Insn>, pc: nat, regs: seq<bv64>): Outcome
    requires |regs| == REGISTERS
    decreases |prog| - pc
  {
    if pc >= |prog| || prog[pc].dst >= REGISTERS || prog[pc].src >= REGISTERS then Fault
    else
      var i := prog[pc];
      if i.code == 0x95 then Exited(regs[0])
      else if i.code == 0x18 then
        if pc + 1 < |prog| && i.src == 0 && prog[pc + 1].code == 0 then
          Exec(prog, pc + 2, regs[i.dst := Wide(i.imm, prog[pc + 1].imm)])
        else Fault
      else
        match Alu(i, regs)
        case None => Fault
        case Some(v) => Exec(prog, pc + 1, regs[i.dst := v])
  }

  /** Started with any registers, the program exits and the low half of register 0 is `retval`. */
  ghost predicate Returns(prog: seq<Insn>, retval: bv32) {
    forall regs: seq<bv64> :: |regs| == REGISTERS ==>
      Exec(prog, 0, regs).Exited? && Low(Exec(prog, 0, regs).r0) == retval
  }

  // ---------------------------------------------------------------- the emitted program

  const CLEAR := Insn(0xb4, 0, 0, 0, 0)
  const XOR_REG := Insn(0xaf, 0, 1, 0, 0)
  const MOV_REG := Insn(0xbf, 1, 0, 0, 0)
  const SHIFT_32 := Insn(0x77, 1, 0, 0, 32)
  const EXIT := Insn(0x95, 0, 0, 0, 0)

  function Load(v: bv64): seq<Insn> {
    [Insn(0x18, 1, 0, 0, Low(v)), Insn(0, 0, 0, 0, High(v)), XOR_REG]
  }

  function Loads(vals: seq<bv64>): (insns: seq<Insn>)
    ensures |insns| == 3 * |vals|
  {
    if vals == [] then [] else Loads(vals[..|vals| - 1]) + Load(vals[|vals| - 1])
  }

  function Emitted(vals: seq<bv64>): seq<Insn> {
    [CLEAR] + Loads(vals) + [MOV_REG, SHIFT_32, XOR_REG, EXIT]
  }

  function XorAll(vals: seq<bv64>): bv64 {
    if vals == [] then 0 else Xor(XorAll(vals[..|vals| - 1]), vals[|vals| - 1])
  }

  /** The two halves exclusive-ored into the low one. */
  function Halves(v: bv64): bv64 {
    v ^ Upper(v)
  }

  function Upper(v: bv64): bv64 {
    v >> 32
  }

  lemma {:induction false} LoadsAt(vals: seq<bv64>, k: nat)
    requires k < |vals|
    ensures Loads(vals)[3 * k..3 * k + 3] == Load(vals[k])
  {
    var n := |vals| - 1;
    if k < n {
      LoadsAt(vals[..n], k);
      assert Loads(vals)[3 * k..3 * k + 3] == Loads(vals[..n])[3 * k..3 * k + 3];
    }
  }

  lemma EmittedAt(vals: seq<bv64>, k: nat)
    requires k < |vals|
    ensures 3 * k + 4 < |Emitted(vals)|
    ensures Emitted(vals)[3 * k + 1] == Load(vals[k])[0]
    ensures Emitted(vals)[3 * k + 2] == Load(vals[k])[1]
    ensures Emitted(vals)[3 * k + 3] == Load(vals[k])[2]
  {
    hide Load, Loads;
    LoadsAt(vals, k);
    var body := Loads(vals)[3 * k..3 * k + 3];
    assert body[0] == Loads(vals)[3 * k] && body[1] == Loads(vals)[3 * k + 1] && body[2] == Loads(vals)[3 * k + 2];
  }

  lemma EmittedEnds(vals: seq<bv64>)
    ensures var n, e := 3 * |vals| + 1, Emitted(vals);
            |e| == n + 4 && e[0] == CLEAR && e[n] == MOV_REG && e[n + 1] == SHIFT_32 && e[n + 2] == XOR_REG && e[n + 3] == EXIT
  {
    hide Loads;
  }

  // ---------------------------------------------------------------- its execution

  lemma WideOfHalves(v: bv64)
    ensures Wide(Low(v), High(v)) == v
  {
  }

  lemma XorIs(d: bv64, s: bv64)
    ensures Operate64(0xa, d, s) == Some(Xor(d, s))
  {
  }

  /** One load and its exclusive or. */
  lemma ExecLoad(prog: seq<Insn>, pc: nat, regs: seq<bv64>, v: bv64)
    requires |regs| == REGISTERS && pc + 3 <= |prog|
    requires prog[pc] == Load(v)[0] && prog[pc + 1] == Load(v)[1] && prog[pc + 2] == Load(v)[2]
    ensures Exec(prog, pc, regs) == Exec(prog, pc + 3, regs[1 := v][0 := Xor(regs[0], v)])
  {
    hide Low, High, Wide, Xor, Operate64;
    WideOfHalves(v);
    XorIs(regs[0], v);
    var mid := regs[1 := v];
    assert Exec(prog, pc, regs) == Exec(prog, pc + 2, mid);
    assert Alu(prog[pc + 2], mid) == Some(Xor(regs[0], v));
  }

  lemma {:induction false} ExecLoads(vals: seq<bv64>, k: nat, regs: seq<bv64>) returns (end: seq<bv64>)
    requires |regs| == REGISTERS && k <= |vals| && regs[0] == XorAll(vals[..k])
    ensures |end| == REGISTERS && end[0] == XorAll(vals)
    ensures Exec(Emitted(vals), 3 * k + 1, regs) == Exec(Emitted(vals), 3 * |vals| + 1, end)
    decreases |vals| - k
  {
    hide Exec, Emitted, Load, Xor;
    if k == |vals| {
      assert vals[..k] == vals;
      end := regs;
    } else {
      EmittedAt(vals, k);
      ExecLoad(Emitted(vals), 3 * k + 1, regs, vals[k]);
      assert vals[..k + 1][..k] == vals[..k];
      end := ExecLoads(vals, k + 1, regs[1 := vals[k]][0 := Xor(regs[0], vals[k])]);
    }
  }

  lemma ShiftIs(v: bv64)
    ensures Operate64(0x7, v, SignExtended(32)) == Some(Upper(v)) && Xor(v, Upper(v)) == Halves(v)
  {
  }

  lemma MoveIs(v: bv64, d: bv64)
    ensures Operate64(0xb, d, v) == Some(v)
  {
  }

  lemma ExecTail(prog: seq<Insn>, pc: nat, regs: seq<bv64>)
    requires |regs| == REGISTERS && pc + 4 == |prog|
    requires prog[pc] == MOV_REG && prog[pc + 1] == SHIFT_32 && prog[pc + 2] == XOR_REG && prog[pc + 3] == EXIT
    ensures Exec(prog, pc, regs) == Exited(Halves(regs[0]))
  {
    hide Operate64, SignExtended, Xor, Halves, Upper;
    var v := regs[0];
    ShiftIs(v);
    MoveIs(v, regs[1]);
    XorIs(v, Upper(v));
    var a := regs[1 := v];
    var b := a[1 := Upper(v)];
    var c := b[0 := Halves(v)];
    assert Exec(prog, pc, regs) == Exec(prog, pc + 1, a);
    assert Exec(prog, pc + 1, a) == Exec(prog, pc + 2, b);
    assert Exec(prog, pc + 2, b) == Exec(prog, pc + 3, c);
  }

  /** For every sequence of 64-bit words the emitted program returns their folded exclusive or. */
  lemma EmittedReturns(vals: seq<bv64>)
    ensures Returns(Emitted(vals), Low(Halves(XorAll(vals))))
  {
    hide Exec, Emitted, Low, Halves, XorAll;
    forall regs: seq<bv64> | |regs| == REGISTERS
      ensures Exec(Emitted(vals), 0, regs) == Exited(Halves(XorAll(vals)))
    {
      ExecEmitted(vals, regs);
    }
  }

  lemma ExecEmitted(vals: seq<bv64>, regs: seq<bv64>)
    requires |regs| == REGISTERS
    ensures Exec(Emitted(vals), 0, regs) == Exited(Halves(XorAll(vals)))
  {
    hide Exec, Emitted, Low, Halves;
    EmittedEnds(vals);
    ExecClear(Emitted(vals), regs);
    assert vals[..0] == [];
    var end := ExecLoads(vals, 0, regs[0 := 0]);
    ExecTail(Emitted(vals), 3 * |vals| + 1, end);
  }

  lemma ExecClear(prog: seq<Insn>, regs: seq<bv64>)
    requires |regs| == REGISTERS && |prog| > 0 && prog[0] == CLEAR
    ensures Exec(prog, 0, regs) == Exec(prog, 1, regs[0 := 0])
  {
  }

  // ---------------------------------------------------------------- the generator

  /** One step of the 32-bit xorshift generator. */
  function Next(s: bv32): bv32 {
    Left5(Right17(Left13(s)))
  }

  function Left13(s: bv32): bv32 { s ^ (s << 13) }
  function Right17(s: bv32): bv32 { s ^ (s >> 17) }
  function Left5(s: bv32): bv32 { s ^ (s << 5) }

  function After(s: bv32, n: nat): bv32 {
    if n == 0 then s else Next(After(s, n - 1))
  }

  function Widened(v: bv32): bv64 {
    v as bv64
  }

  function Draws(s: bv32, n: nat): (vals: seq<bv64>)
    ensures |vals| == n
  {
    if n == 0 then [] else Draws(s, n - 1) + [Widened(After(s, n))]
  }

  /** The cast to `int`. */
  function Signed(v: bv32): int {
    if v < 0x8000_0000 then v as int else (v as int) - 0x1_0000_0000
  }

  /** How often the loop runs for a requested size. */
  function Rounds(size: int): nat {
    if size <= 1 then 0 else (size + 1) / 3
  }

  class RandTest {
    var insns: array<Insn>
    var progLen: nat
    var retval: bv32
    var randState: bv32

    constructor (insns: array<Insn>, retval: bv32, randState: bv32)
      ensures this.insns == insns && this.retval == retval && this.randState == randState && progLen == 0
    {
      this.insns, this.retval, this.randState, progLen := insns, retval, randState, 0;
    }

    method SemiRandGet() returns (r: bv32)
      modifies this`randState
      ensures randState == Next(old(randState)) && r == randState
    {
      hide Left13, Right17, Left5;
      randState := Left13(randState);
      randState := Right17(randState);
      randState := Left5(randState);
      return randState;
    }

    /** The requested size is in `retval` before the call, and the result of the program after it. */
    method FillRandLdDw()
      requires 3 * Rounds(Signed(retval)) + 5 <= insns.Length
      modifies this, insns
      ensures insns == old(insns) && progLen == 3 * Rounds(Signed(old(retval))) + 5
      ensures insns[..progLen] == Emitted(Draws(old(randState), Rounds(Signed(old(retval)))))
      ensures insns[progLen..] == old(insns[3 * Rounds(Signed(retval)) + 5..])
      ensures randState == After(old(randState), Rounds(Signed(old(retval))))
      ensures Returns(insns[..progLen], retval)
    {
      hide *;
      ghost var n := Rounds(Signed(retval));
      var i, res := EmitLoads();
      assert insns[i + 4..] == insns[i..][4..] && old(insns[i + 4..]) == old(insns[i..])[4..];
      EmitEnd(i);
      progLen := i + 4;
      res := Halves(res);
      retval := Low(res);
      EmittedIs(Draws(old(randState), n));
      EmittedReturns(Draws(old(randState), n));
    }

    method EmitEnd(i: nat)
      requires i + 4 <= insns.Length
      modifies insns
      ensures insns[..i + 4] == old(insns[..i]) + [MOV_REG, SHIFT_32, XOR_REG, EXIT]
      ensures insns[i + 4..] == old(insns[i + 4..])
    {
      hide *;
      insns[i], insns[i + 1], insns[i + 2], insns[i + 3] := MOV_REG, SHIFT_32, XOR_REG, EXIT;
      assert insns[..i] == old(insns[..i]);
    }

    /** The first instruction and the loop. */
    method EmitLoads() returns (i: nat, res: bv64)
      requires 3 * Rounds(Signed(retval)) + 5 <= insns.Length
      modifies this`randState, insns
      ensures var n := Rounds(Signed(retval));
              && i == 3 * n + 1 && randState == After(old(randState), n) && res == XorAll(Draws(old(randState), n))
              && insns[..i] == [CLEAR] + Loads(Draws(old(randState), n))
      ensures insns[i..] == old(insns[i..])
    {
      hide *;
      ghost var n, s := Rounds(Signed(retval)), randState;
      RoundsAre(Signed(retval), 0);
      Begin(s);
      res := 0;
      i := 0;
      insns[i] := CLEAR;
      i := i + 1;
      ghost var k := 0;
      while i < Signed(retval)
        invariant i == 3 * k + 1 && k <= n
        invariant randState == After(s, k) && res == XorAll(Draws(s, k))
        invariant insns[..i] == [CLEAR] + Loads(Draws(s, k))
        invariant insns[i..] == old(insns[i..])
        decreases n - k
      {
        RoundsAre(Signed(retval), k);
        Continue(s, k);
        var word := SemiRandGet();
        var val := Widened(word);
        res := Xor(res, val);
        EmitLoad(i, val);
        assert insns[i + 3..] == old(insns[i..])[3..] == old(insns[i + 3..]);
        assert [CLEAR] + Loads(Draws(s, k)) + Load(val) == [CLEAR] + (Loads(Draws(s, k)) + Load(val));
        i := i + 3;
        k := k + 1;
      }
      RoundsAre(Signed(retval), k);
    }

    method EmitLoad(i: nat, val: bv64)
      requires i + 3 <= insns.Length
      modifies insns
      ensures insns[..i + 3] == old(insns[..i]) + Load(val) && insns[i + 3..] == old(insns[i + 3..])
    {
      hide *;
      var pair := Load(val);
      LoadIs(val);
      insns[i], insns[i + 1], insns[i + 2] := pair[0], pair[1], XOR_REG;
      assert insns[..i] == old(insns[..i]) && insns[i..i + 3] == pair;
    }
  }

  /** The loop is entered for the `k`-th time exactly while `k` is below the number of rounds. */
  lemma RoundsAre(size: int, k: nat)
    ensures 3 * k + 1 < size <==> k < Rounds(size)
  {
  }

  lemma EmittedIs(vals: seq<bv64>)
    ensures Emitted(vals) == [CLEAR] + Loads(vals) + [MOV_REG, SHIFT_32, XOR_REG, EXIT]
  {
  }

  lemma Begin(s: bv32)
    ensures Draws(s, 0) == [] && After(s, 0) == s && Loads([]) == [] && XorAll([]) == 0
  {
  }

  lemma LoadIs(v: bv64)
    ensures |Load(v)| == 3 && Load(v)[2] == XOR_REG
  {
  }

  lemma Continue(s: bv32, k: nat)
    ensures After(s, k + 1) == Next(After(s, k))
    ensures var v := Widened(After(s, k + 1));
            Loads(Draws(s, k + 1)) == Loads(Draws(s, k)) + Load(v) && XorAll(Draws(s, k + 1)) == Xor(XorAll(Draws(s, k)), v)
  {
    hide Xor, Load, Widened, Next;
    var vals := Draws(s, k + 1);
    assert vals[..|vals| - 1] == Draws(s, k);
  }

  /** The buffer the source allocates holds the program exactly up to size 4090. */
  lemma FitsUpTo4090(size: int)
    ensures 3 * Rounds(size) + 5 <= MAX_INSNS <==> size <= 4090
  {
  }

  // ---------------------------------------------------------------- the first draw

  const SEED: bv32 := 0x12345678

  /** What the generator gives first, from the seed it starts with. */
  lemma FirstDraw()
    ensures Next(SEED) == 0x87985aa5
  {
    assert Left13(SEED) == 0x98fb5678;
    assert Right17(0x98fb5678) == 0x98fb1a05;
    assert Left5(0x98fb1a05) == 0x87985aa5;
  }
}
