/** Programs as far as control can tell their instructions apart, and where control goes next. */
module ControlFlow {
  import opened Words
  import opened Reachability

  /** `Wide` is the first slot of a two-slot load, of a callback's entry pc or of anything else. */
  datatype Instr =
    | Exit
    | Jmp(target: nat)
    | If(target: nat)
    | MayGoto(target: nat)
    | Call
    | CallRel(target: nat)
    | Wide(callback: Option<nat>)
    | Plain

  function FallThrough(n: nat, pc: nat): seq<nat> {
    if pc + 1 < n then [pc + 1] else []
  }

  /** Jump targets may lie outside the program; a search skips those. */
  function Successors(prog: seq<Instr>, pc: nat): seq<nat> {
    if pc >= |prog| then []
    else
      match prog[pc]
      case Exit => []
      case Jmp(t) => [t]
      case If(t) => FallThrough(|prog|, pc) + [t]
      case MayGoto(t) => FallThrough(|prog|, pc) + [t]
      case CallRel(t) => [t] + FallThrough(|prog|, pc)
      case _ => FallThrough(|prog|, pc)
  }

  function FlowGraph(prog: seq<Instr>): (g: Graph)
    ensures |g| == |prog| && forall pc :: 0 <= pc < |g| ==> g[pc] == Successors(prog, pc)
  {
    seq(|prog|, pc requires 0 <= pc < |prog| => Successors(prog, pc))
  }

  // ---------------------------------------------------------------- the control part of a state

  /** The pc and the return pcs of the open frames, innermost last. */
  datatype Control = Control(pc: nat, frames: seq<nat>)

  predicate Entry(prog: seq<Instr>, t: nat) {
    exists c :: 0 <= c < |prog| && prog[c] == Wide(Some(t))
  }

  /**
   One step of the transfer functions. A helper call may enter any callback whose entry the program
   loads; an exit returns to the innermost open frame, and ends the path if there is none.
   */
  predicate Moves(prog: seq<Instr>, a: Control, b: Control) {
    a.pc < |prog| &&
    match prog[a.pc]
    case Exit => a.frames != [] && b == Control(a.frames[|a.frames| - 1], a.frames[..|a.frames| - 1])
    case Jmp(t) => b == a.(pc := t)
    case If(t) => b == a.(pc := t) || b == a.(pc := a.pc + 1)
    case MayGoto(t) => b == a.(pc := t) || b == a.(pc := a.pc + 1)
    case Call => b == a.(pc := a.pc + 1) || (Entry(prog, b.pc) && b.frames == a.frames + [a.pc + 1])
    case CallRel(t) => b == Control(t, a.frames + [a.pc + 1])
    case Wide(_) => b == a.(pc := a.pc + 2)
    case Plain => b == a.(pc := a.pc + 1)
  }
}
