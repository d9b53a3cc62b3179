/**
 The structural check on the functions of a program: a function runs from an entry to the next one,
 jumps stay inside it, and its last instruction does not fall through.
 */
module Subprograms {
  import opened ControlFlow

  datatype Verdict =
    | Accepted
    | JumpOutOfRange(pc: nat, target: nat, start: nat, end: nat)
    | CallOutOfBounds(pc: nat, target: nat)
    | InvalidTerminator(pc: nat)

  // ---------------------------------------------------------------- what the check means

  predicate Starts(prog: seq<Instr>, s: nat) {
    s == 0 || exists c :: 0 <= c < |prog| && prog[c] == CallRel(s)
  }

  /** No function entry separates the two. */
  ghost predicate SameFunction(prog: seq<Instr>, a: nat, b: nat) {
    forall s: nat :: Starts(prog, s) ==> (s <= a <==> s <= b)
  }

  ghost predicate Local(prog: seq<Instr>, pc: nat, t: nat) {
    SameFunction(prog, pc, t) && (t < |prog| || exists s: nat :: Starts(prog, s) && pc < s)
  }

  ghost predicate JumpFits(prog: seq<Instr>, pc: nat)
    requires pc < |prog|
  {
    match prog[pc]
    case Jmp(t) => Local(prog, pc, t)
    case If(t) => Local(prog, pc, t)
    case CallRel(t) => t < |prog|
    case _ => true
  }

  ghost predicate LastOfFunction(prog: seq<Instr>, pc: nat) {
    pc + 1 == |prog| || Starts(prog, pc + 1)
  }

  ghost predicate Fits(prog: seq<Instr>, pc: nat)
    requires pc < |prog|
  {
    JumpFits(prog, pc) && (LastOfFunction(prog, pc) ==> prog[pc].Jmp? || prog[pc].Exit?)
  }

  ghost predicate Structured(prog: seq<Instr>) {
    forall pc :: 0 <= pc < |prog| ==> Fits(prog, pc)
  }

  /** The function entered at `start` ends before `end`: the next entry, or the end of the program. */
  ghost predicate Bounds(prog: seq<Instr>, start: nat, end: nat) {
    && Starts(prog, start)
    && (if Starts(prog, end) && start < end then forall s: nat :: Starts(prog, s) ==> s <= start || end <= s
        else end == |prog| && forall s: nat :: Starts(prog, s) ==> s <= start)
  }

  /** A refusal names the instruction, its target and the function it stands in. */
  ghost predicate Tells(prog: seq<Instr>, v: Verdict) {
    match v
    case Accepted => true
    case JumpOutOfRange(pc, t, start, end) =>
      && pc < |prog| && (prog[pc] == Jmp(t) || prog[pc] == If(t))
      && Bounds(prog, start, end) && start <= pc < end && !(start <= t < end)
    case CallOutOfBounds(pc, t) => pc < |prog| && prog[pc] == CallRel(t) && t >= |prog|
    case InvalidTerminator(pc) => pc < |prog| && LastOfFunction(prog, pc) && !prog[pc].Jmp? && !prog[pc].Exit?
  }

  // ---------------------------------------------------------------- the ordered set of entries

  predicate Ascending(s: seq<nat>) {
    forall i, j :: 0 <= i < j < |s| ==> s[i] < s[j]
  }

  function Insert(s: seq<nat>, x: nat): (r: seq<nat>) {
    if s == [] then [x]
    else if x < s[0] then [x] + s
    else if x == s[0] then s
    else [s[0]] + Insert(s[1..], x)
  }

  lemma {:induction false} InsertKeeps(s: seq<nat>, x: nat)
    requires Ascending(s)
    ensures var r := Insert(s, x); Ascending(r) && forall y :: y in r <==> y in s || y == x
  {
    if s != [] && x > s[0] {
      var rest := Insert(s[1..], x);
      InsertKeeps(s[1..], x);
      assert s == [s[0]] + s[1..];
      forall i | 0 <= i < |rest| ensures s[0] < rest[i] {
        assert rest[i] in rest;
        if rest[i] != x { assert rest[i] in s[1..]; }
      }
    }
  }

  method CollectStarts(prog: seq<Instr>) returns (starts: seq<nat>)
    ensures Ascending(starts) && (forall s: nat :: s in starts <==> Starts(prog, s))
    ensures |starts| > 0 && starts[0] == 0
  {
    hide Insert;
    starts := [0];
    for pc := 0 to |prog|
      invariant Ascending(starts)
      invariant forall s: nat :: s in starts <==> s == 0 || exists c :: 0 <= c < pc && prog[c] == CallRel(s)
    {
      if prog[pc].CallRel? {
        InsertKeeps(starts, prog[pc].target);
        starts := Insert(starts, prog[pc].target);
      }
    }
    assert Starts(prog, 0);
  }

  // ---------------------------------------------------------------- the check

  /** Reading up to the end of a function never leaves the program: the call that set the end was read first. */
  lemma EndInside(prog: seq<Instr>, start: nat, end: nat, pc: nat)
    requires Bounds(prog, start, end) && start <= pc < end
    requires forall q :: 0 <= q < pc && q < |prog| ==> JumpFits(prog, q)
    ensures pc < |prog|
  {
    if end != |prog| {
      var c :| 0 <= c < |prog| && prog[c] == CallRel(end);
      if c < pc { assert JumpFits(prog, c); }
    }
  }

  lemma LocalIff(prog: seq<Instr>, start: nat, end: nat, pc: nat, t: nat)
    requires Bounds(prog, start, end) && start <= pc < end
    ensures Local(prog, pc, t) <==> start <= t < end
  {
    if start <= t < end {
      forall s: nat | Starts(prog, s) ensures s <= pc <==> s <= t { }
      if t >= |prog| { assert Starts(prog, end) && pc < end; }
    }
  }

  /** Reads the instructions of one function. */
  method CheckJumps(prog: seq<Instr>, start: nat, end: nat) returns (v: Verdict)
    requires Bounds(prog, start, end) && start <= |prog|
    requires forall q :: 0 <= q < start ==> JumpFits(prog, q)
    ensures v.Accepted? ==> end <= |prog| && forall q :: start <= q < end ==> JumpFits(prog, q)
    ensures Tells(prog, v)
    ensures !v.Accepted? ==> start <= v.pc < end && v.pc < |prog| && !JumpFits(prog, v.pc)
    ensures !v.Accepted? ==> forall q :: start <= q < v.pc ==> JumpFits(prog, q)
  {
    hide Bounds, JumpFits, LastOfFunction;
    var pc := start;
    while pc < end
      invariant start <= pc && pc <= |prog|
      invariant forall q :: start <= q < pc ==> JumpFits(prog, q)
    {
      EndInside(prog, start, end, pc);
      v := CheckOne(prog, start, end, pc);
      if !v.Accepted? { return; }
      pc := pc + 1;
    }
    v := Accepted;
  }

  method CheckOne(prog: seq<Instr>, start: nat, end: nat, pc: nat) returns (v: Verdict)
    requires Bounds(prog, start, end) && start <= pc < end && pc < |prog|
    ensures v.Accepted? <==> JumpFits(prog, pc)
    ensures Tells(prog, v) && (!v.Accepted? ==> v.pc == pc)
  {
    v := Accepted;
    match prog[pc]
    case Jmp(t) =>
      LocalIff(prog, start, end, pc, t);
      if !(t >= start && t < end) { v := JumpOutOfRange(pc, t, start, end); }
    case If(t) =>
      LocalIff(prog, start, end, pc, t);
      if !(t >= start && t < end) { v := JumpOutOfRange(pc, t, start, end); }
    case CallRel(t) =>
      if t >= |prog| { v := CallOutOfBounds(pc, t); }
    case _ =>
  }

  /** The last instruction of a function must be a jump or an exit. */
  method CheckFunction(prog: seq<Instr>, start: nat, end: nat) returns (v: Verdict)
    requires Bounds(prog, start, end) && start <= |prog|
    requires forall q :: 0 <= q < start ==> Fits(prog, q)
    ensures v.Accepted? ==> end <= |prog| && forall q :: 0 <= q < end ==> Fits(prog, q)
    ensures Tells(prog, v)
    ensures !v.Accepted? ==> v.pc < |prog| && !Fits(prog, v.pc) && forall q :: 0 <= q < v.pc ==> Fits(prog, q)
  {
    forall q | 0 <= q < start ensures JumpFits(prog, q) { assert Fits(prog, q); }
    v := CheckJumps(prog, start, end);
    ghost var stop := if v.Accepted? then end else v.pc;
    forall q | start <= q < stop && q + 1 < end ensures Fits(prog, q) { InnerFits(prog, start, end, q); }
    if !v.Accepted? { return; }
    if end > 0 {
      LastIs(prog, start, end);
      if !(prog[end - 1].Jmp? || prog[end - 1].Exit?) { return InvalidTerminator(end - 1); }
    }
  }

  /** Inside a function nothing is last. */
  lemma InnerFits(prog: seq<Instr>, start: nat, end: nat, q: nat)
    requires Bounds(prog, start, end) && start <= q && q + 1 < end && q < |prog| && JumpFits(prog, q)
    requires end <= |prog| || q + 1 < |prog|
    ensures Fits(prog, q)
  {
    hide JumpFits;
  }

  lemma LastIs(prog: seq<Instr>, start: nat, end: nat)
    requires Bounds(prog, start, end) && 0 < end <= |prog|
    ensures LastOfFunction(prog, end - 1)
  {
  }

  lemma BoundsOf(prog: seq<Instr>, starts: seq<nat>, i: nat)
    requires Ascending(starts) && (forall s: nat :: s in starts <==> Starts(prog, s)) && i < |starts|
    ensures Bounds(prog, starts[i], if i + 1 < |starts| then starts[i + 1] else |prog|)
  {
    hide Starts;
    var end := if i + 1 < |starts| then starts[i + 1] else |prog|;
    assert starts[i] in starts;
    if i + 1 < |starts| { assert end in starts; }
    forall s: nat | Starts(prog, s) ensures s <= starts[i] || (i + 1 < |starts| && end <= s) {
      var j :| 0 <= j < |starts| && starts[j] == s;
    }
  }

  /**
   Never reads past the program, whatever the program is; accepts exactly the structured programs,
   and otherwise names the first instruction that does not fit.
   */
  method CheckSubprogs(prog: seq<Instr>) returns (v: Verdict)
    ensures v.Accepted? <==> Structured(prog)
    ensures Tells(prog, v)
    ensures !v.Accepted? ==> v.pc < |prog| && !Fits(prog, v.pc) && forall q :: 0 <= q < v.pc ==> Fits(prog, q)
  {
    hide Fits, Bounds, Starts;
    var starts := CollectStarts(prog);
    var i := 0;
    while i < |starts|
      invariant i <= |starts|
      invariant var done := if i < |starts| then starts[i] else |prog|;
                done <= |prog| && forall q :: 0 <= q < done ==> Fits(prog, q)
    {
      var start := starts[i];
      var end := if i + 1 < |starts| then starts[i + 1] else |prog|;
      BoundsOf(prog, starts, i);
      v := CheckFunction(prog, start, end);
      if !v.Accepted? { return; }
      i := i + 1;
    }
    v := Accepted;
  }

  // ---------------------------------------------------------------- what it gives

  /** Jumps of a structured program stay inside the program, and only jumps and exits end a function. */
  lemma StructuredJumps(prog: seq<Instr>, pc: nat)
    requires Structured(prog) && pc < |prog|
    ensures (prog[pc].Jmp? || prog[pc].If? || prog[pc].CallRel?) ==> prog[pc].target < |prog|
    ensures !prog[pc].Jmp? && !prog[pc].Exit? ==> pc + 1 < |prog| && SameFunction(prog, pc, pc + 1)
  {
    assert Fits(prog, pc);
    forall s: nat | Starts(prog, s) ensures s == 0 || s < |prog| { StartsInside(prog, s); }
  }

  lemma StartsInside(prog: seq<Instr>, s: nat)
    requires Structured(prog) && Starts(prog, s)
    ensures s == 0 || s < |prog|
  {
    if s > 0 {
      var c :| 0 <= c < |prog| && prog[c] == CallRel(s);
      assert Fits(prog, c);
    }
  }
}
