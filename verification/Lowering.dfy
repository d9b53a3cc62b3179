/**
 Lowering a raw instruction stream to a program: one instruction per slot, every branch, call and
 callback target checked, and the second slots of two-slot loads set aside.
 */
module Lowering {
  import opened Words
  import opened ControlFlow

  /** Raw instructions by what they mean for control; displacements are as encoded. */
  datatype Raw =
    | RawExit
    | RawJump(disp: int)
    | RawIf(disp: int)
    | RawMayGoto(disp: int)
    | RawCall
    | RawCallRel(disp: int)
    | RawWide(src: nat, off: int, low: int)
    | RawSecond(zeroed: bool, high: int)
    | RawPlain
    | RawRefused

  datatype LowerError = InvalidLdImm64 | BranchTargetOutOfRange | CallTargetOutOfBounds | UnknownOpcode

  datatype Lowered =
    | Listing(instrs: seq<Instr>, invalid: set<nat>)
    | Failure(pc: nat, error: LowerError)

  const MAP_PTR := 1
  const PSEUDO_FUNC := 4
  const MAX_PSEUDO := 6

  /** The signed 64-bit immediate of a two-slot load. */
  function Imm64(low: int, high: int): int {
    var u := low % 0x1_0000_0000 + high % 0x1_0000_0000 * 0x1_0000_0000;
    if u < 0x8000_0000_0000_0000 then u else u - 0x1_0000_0000_0000_0000
  }

  predicate Inside(raw: seq<Raw>, t: int) {
    0 <= t < |raw|
  }

  predicate WideFits(raw: seq<Raw>, pc: nat)
    requires pc < |raw| && raw[pc].RawWide?
  {
    && raw[pc].src <= MAX_PSEUDO && raw[pc].off == 0
    && pc + 1 < |raw| && raw[pc + 1].RawSecond? && raw[pc + 1].zeroed
    && (raw[pc].src == MAP_PTR ==> raw[pc + 1].high == 0)
    && (raw[pc].src == PSEUDO_FUNC ==> Inside(raw, pc + 2 + Imm64(raw[pc].low, raw[pc + 1].high)))
  }

  /** What the slot at `pc` has to satisfy. */
  predicate SlotFits(raw: seq<Raw>, pc: nat)
    requires pc < |raw|
  {
    match raw[pc]
    case RawJump(d) => Inside(raw, pc + 1 + d)
    case RawIf(d) => Inside(raw, pc + 1 + d)
    case RawMayGoto(d) => Inside(raw, pc + 1 + d)
    case RawCallRel(d) => Inside(raw, pc + 1 + d)
    case RawWide(_, _, _) => WideFits(raw, pc)
    case RawSecond(_, _) => pc > 0 && raw[pc - 1].RawWide?
    case RawRefused => false
    case _ => true
  }

  predicate Lowerable(raw: seq<Raw>) {
    forall pc :: 0 <= pc < |raw| ==> SlotFits(raw, pc)
  }

  function SlotInstr(raw: seq<Raw>, pc: nat): Instr
    requires pc < |raw| && SlotFits(raw, pc)
  {
    match raw[pc]
    case RawExit => Exit
    case RawJump(d) => Jmp(pc + 1 + d)
    case RawIf(d) => If(pc + 1 + d)
    case RawMayGoto(d) => MayGoto(pc + 1 + d)
    case RawCall => Call
    case RawCallRel(d) => CallRel(pc + 1 + d)
    case RawWide(src, off, low) =>
      Wide(if src == PSEUDO_FUNC then Some(pc + 2 + Imm64(low, raw[pc + 1].high)) else None)
    case _ => Plain
  }

  /** The first `k` slots of the program that `raw` stands for. */
  function Slots(raw: seq<Raw>, k: nat): (r: seq<Instr>)
    requires k <= |raw| && forall pc :: 0 <= pc < k ==> SlotFits(raw, pc)
    ensures |r| == k && forall pc :: 0 <= pc < k ==> r[pc] == SlotInstr(raw, pc)
  {
    seq(k, pc requires 0 <= pc < k => SlotInstr(raw, pc))
  }

  function Seconds(raw: seq<Raw>, k: nat): set<nat>
    requires k <= |raw|
  {
    set pc: nat | pc < k && raw[pc].RawSecond?
  }

  function Refusal(raw: Raw): LowerError {
    match raw
    case RawWide(_, _, _) => InvalidLdImm64
    case RawSecond(_, _) => InvalidLdImm64
    case RawCallRel(_) => CallTargetOutOfBounds
    case RawRefused => UnknownOpcode
    case _ => BranchTargetOutOfRange
  }

  /** Succeeds exactly on the lowerable streams, and otherwise names the first slot that does not fit. */
  method Lower(raw: seq<Raw>) returns (r: Lowered)
    ensures r.Listing? <==> Lowerable(raw)
    ensures r.Listing? ==> r.instrs == Slots(raw, |raw|) && r.invalid == Seconds(raw, |raw|)
    ensures r.Failure? ==> r.pc < |raw| && !SlotFits(raw, r.pc) && r.error == Refusal(raw[r.pc])
    ensures r.Failure? ==> forall q :: 0 <= q < r.pc ==> SlotFits(raw, q)
  {
    hide SlotFits, SlotInstr;
    var instrs: seq<Instr>, invalid: set<nat> := [], {};
    var pc := 0;
    while pc < |raw|
      invariant pc <= |raw| && forall q :: 0 <= q < pc ==> SlotFits(raw, q)
      invariant instrs == Slots(raw, pc) && invalid == Seconds(raw, pc)
      invariant pc > 0 ==> !raw[pc - 1].RawWide?
    {
      if raw[pc].RawWide? {
        var two := LowerWide(raw, pc);
        if two.Failure? { return two; }
        instrs, invalid := instrs + two.instrs, invalid + two.invalid;
        pc := pc + 2;
      } else {
        var one := LowerOne(raw, pc);
        if one.Failure? { return one; }
        instrs := instrs + one.instrs;
        pc := pc + 1;
      }
    }
    r := Listing(instrs, invalid);
  }

  /** A two-slot load; its second slot becomes a move that must never be reached. */
  method LowerWide(raw: seq<Raw>, pc: nat) returns (r: Lowered)
    requires pc < |raw| && raw[pc].RawWide?
    ensures r.Listing? <==> SlotFits(raw, pc)
    ensures r.Listing? ==> pc + 1 < |raw| && raw[pc + 1].RawSecond? && SlotFits(raw, pc + 1)
    ensures r.Listing? ==> r.instrs == [SlotInstr(raw, pc), SlotInstr(raw, pc + 1)] && r.invalid == {pc + 1}
    ensures r.Failure? ==> r.pc == pc && r.error == Refusal(raw[pc])
  {
    hide Imm64;
    if raw[pc].src > MAX_PSEUDO || raw[pc].off != 0 { return Failure(pc, InvalidLdImm64); }
    if pc + 1 >= |raw| { return Failure(pc, InvalidLdImm64); }
    var cont := raw[pc + 1];
    if !cont.RawSecond? || !cont.zeroed { return Failure(pc, InvalidLdImm64); }
    var callback: Option<nat> := None;
    if raw[pc].src == MAP_PTR {
      if cont.high != 0 { return Failure(pc, InvalidLdImm64); }
    } else if raw[pc].src == PSEUDO_FUNC {
      var target := pc + 2 + Imm64(raw[pc].low, cont.high);
      if target < 0 || target >= |raw| { return Failure(pc, InvalidLdImm64); }
      callback := Some(target);
    }
    r := Listing([Wide(callback), Plain], {pc + 1});
  }

  /** A one-slot instruction. */
  method LowerOne(raw: seq<Raw>, pc: nat) returns (r: Lowered)
    requires pc < |raw| && !raw[pc].RawWide? && (pc > 0 ==> !raw[pc - 1].RawWide?)
    ensures r.Listing? <==> SlotFits(raw, pc)
    ensures r.Listing? ==> !raw[pc].RawSecond? && r.instrs == [SlotInstr(raw, pc)] && r.invalid == {}
    ensures r.Failure? ==> r.pc == pc && r.error == Refusal(raw[pc])
  {
    match raw[pc]
    case RawExit => r := Listing([Exit], {});
    case RawCall => r := Listing([Call], {});
    case RawPlain => r := Listing([Plain], {});
    case RawSecond(_, _) => r := Failure(pc, InvalidLdImm64);
    case RawRefused => r := Failure(pc, UnknownOpcode);
    case RawCallRel(d) =>
      var t := pc + 1 + d;
      if t < 0 || t >= |raw| { return Failure(pc, CallTargetOutOfBounds); }
      r := Listing([CallRel(t)], {});
    case RawJump(d) =>
      var t := BranchTarget(raw, pc, d);
      r := if t.Some? then Listing([Jmp(t.value)], {}) else Failure(pc, BranchTargetOutOfRange);
    case RawIf(d) =>
      var t := BranchTarget(raw, pc, d);
      r := if t.Some? then Listing([If(t.value)], {}) else Failure(pc, BranchTargetOutOfRange);
    case RawMayGoto(d) =>
      var t := BranchTarget(raw, pc, d);
      r := if t.Some? then Listing([MayGoto(t.value)], {}) else Failure(pc, BranchTargetOutOfRange);
  }

  function BranchTarget(raw: seq<Raw>, pc: nat, disp: int): (t: Option<nat>)
    ensures t == if Inside(raw, pc + 1 + disp) then Some(pc + 1 + disp) else None
  {
    var t := pc + 1 + disp;
    if t < 0 || t >= |raw| then None else Some(t)
  }

  // ---------------------------------------------------------------- what a lowered program has

  predicate Targets(prog: seq<Instr>, pc: nat)
    requires pc < |prog|
  {
    match prog[pc]
    case Jmp(t) => t < |prog|
    case If(t) => t < |prog|
    case MayGoto(t) => t < |prog|
    case CallRel(t) => t < |prog|
    case Wide(t) => (t.Some? ==> t.value < |prog|) && pc + 1 < |prog| && prog[pc + 1] == Plain
    case _ => true
  }

  /** Every target is an instruction, and every two-slot load has its second slot. */
  predicate WellFormed(prog: seq<Instr>) {
    forall pc :: 0 <= pc < |prog| ==> Targets(prog, pc)
  }

  lemma LoweredIsWellFormed(raw: seq<Raw>)
    requires Lowerable(raw)
    ensures WellFormed(Slots(raw, |raw|))
    ensures forall pc: nat :: pc in Seconds(raw, |raw|) <==> (0 < pc < |raw| && Slots(raw, |raw|)[pc - 1].Wide?)
  {
    hide Imm64;
    var prog := Slots(raw, |raw|);
    forall pc | 0 <= pc < |prog| ensures Targets(prog, pc) {
      assert SlotFits(raw, pc);
      if raw[pc].RawWide? { assert prog[pc + 1] == SlotInstr(raw, pc + 1); }
    }
    forall pc: nat ensures pc in Seconds(raw, |raw|) <==> (0 < pc < |raw| && prog[pc - 1].Wide?) {
      if 0 < pc < |raw| { assert SlotFits(raw, pc) && SlotFits(raw, pc - 1); }
      if pc == 0 && |raw| > 0 { assert SlotFits(raw, 0); }
    }
  }

  // ---------------------------------------------------------------- lowering keeps the steps

  /** Two halves of a signed 64-bit number, the upper one with the sign. */
  lemma Imm64Is(low: int, high: int)
    requires -0x8000_0000 <= high < 0x8000_0000
    ensures Imm64(low, high) == 0x1_0000_0000 * high + low % 0x1_0000_0000
  {
  }

  /** The raw stream loads the entry pc `t` of a callback. */
  predicate RawEntry(raw: seq<Raw>, t: int) {
    exists c :: 0 <= c < |raw| && Loads(raw, c, t)
  }

  predicate Loads(raw: seq<Raw>, c: nat, t: int) {
    && c + 1 < |raw| && raw[c].RawWide? && raw[c].src == PSEUDO_FUNC && raw[c + 1].RawSecond?
    && t == c + 2 + Imm64(raw[c].low, raw[c + 1].high)
  }

  predicate Next(a: Control, b: Control, disp: int) {
    b.frames == a.frames && b.pc == a.pc + 1 + disp
  }

  predicate Enters(a: Control, b: Control) {
    b.frames == a.frames + [a.pc + 1]
  }

  /** One step of the raw program, with displacements counted from the next slot. */
  predicate RawMoves(raw: seq<Raw>, a: Control, b: Control) {
    a.pc < |raw| &&
    match raw[a.pc]
    case RawExit => a.frames == b.frames + [b.pc]
    case RawJump(d) => Next(a, b, d)
    case RawIf(d) => Next(a, b, d) || Next(a, b, 0)
    case RawMayGoto(d) => Next(a, b, d) || Next(a, b, 0)
    case RawCall => Next(a, b, 0) || (Enters(a, b) && RawEntry(raw, b.pc))
    case RawCallRel(d) => Enters(a, b) && b.pc == a.pc + 1 + d
    case RawWide(_, _, _) => Next(a, b, 1)
    case RawPlain => Next(a, b, 0)
    case _ => false
  }

  lemma EntriesKept(raw: seq<Raw>, t: nat)
    requires Lowerable(raw)
    ensures Entry(Slots(raw, |raw|), t) <==> RawEntry(raw, t)
  {
    hide Imm64;
    var prog := Slots(raw, |raw|);
    if Entry(prog, t) {
      var c :| 0 <= c < |prog| && prog[c] == Wide(Some(t));
      assert SlotFits(raw, c) && Loads(raw, c, t);
    }
    if RawEntry(raw, t) {
      var c :| 0 <= c < |raw| && Loads(raw, c, t);
      assert SlotFits(raw, c) && prog[c] == Wide(Some(t));
    }
  }

  /** From every instruction the lowered program takes exactly the steps of the raw one. */
  lemma LoweringKeepsSteps(raw: seq<Raw>, a: Control, b: Control)
    requires Lowerable(raw) && a.pc < |raw| && !raw[a.pc].RawSecond?
    ensures Moves(Slots(raw, |raw|), a, b) <==> RawMoves(raw, a, b)
  {
    hide Imm64, Entry, RawEntry;
    assert SlotFits(raw, a.pc);
    EntriesKept(raw, b.pc);
    if a.frames != [] {
      assert a.frames == a.frames[..|a.frames| - 1] + [a.frames[|a.frames| - 1]];
    }
    if raw[a.pc].RawExit? && a.frames == b.frames + [b.pc] {
      assert a.frames[..|a.frames| - 1] == b.frames;
    }
  }
}
