/**
 From a raw instruction stream to a verdict: lowering, the structural checks, and the loop. What the
 checks let through never looks outside the program, so that a verified program is safe, and the
 branch counters are exact as long as no path ends under too long a chain of checkpoints.
 */
module Admission {
  import opened Words
  import opened ControlFlow
  import opened Lowering
  import Subprograms
  import FlowCheck
  import opened Worklist
  import opened WorklistLoop
  import opened WorklistSoundness
  import opened BranchCounters

  // ---------------------------------------------------------------- control stays inside

  predicate Sited(n: nat, c: Control) {
    c.pc < n && forall i :: 0 <= i < |c.frames| ==> c.frames[i] < n
  }

  /**
   Lowering bounds the targets and pairs up two-slot loads, the structural check rules out falling
   off the last instruction; together no step leads out of the program, returns included.
   */
  lemma MovesStaySited(prog: seq<Instr>, a: Control, b: Control)
    requires WellFormed(prog) && Subprograms.Structured(prog) && Sited(|prog|, a) && Moves(prog, a, b)
    ensures Sited(|prog|, b)
  {
    hide Subprograms.Structured;
    assert Targets(prog, a.pc);
    Subprograms.StructuredJumps(prog, a.pc);
    if prog[a.pc].Wide? { Subprograms.StructuredJumps(prog, a.pc + 1); }
    if prog[a.pc].Call? && b != a.(pc := a.pc + 1) {
      var c :| 0 <= c < |prog| && prog[c] == Wide(Some(b.pc));
      assert Targets(prog, c);
    }
  }

  /** The return pcs are part of the abstract value: the loop's own steps keep them, transfer follows the program. */
  ghost predicate Follows<A(!new), E(!new)>(prog: seq<Instr>, frames: A -> seq<nat>, o: Oracle<A, E>) {
    forall e: E, ck: seq<Checkpoint<A>>, s: State<A> :: FollowsAt(prog, frames, o, e, ck, s)
  }

  predicate FollowsAt<A, E>(
      prog: seq<Instr>, frames: A -> seq<nat>, o: Oracle<A, E>, e: E, ck: seq<Checkpoint<A>>, s: State<A>)
  {
    && frames(o.demote(e, ck, s)) == frames(s.abs) && frames(o.prune(e, ck, s).abs) == frames(s.abs)
    && (s.pc < |prog| && !o.transfer(e, ck, s).fail ==>
          FollowedBy(prog, frames, Control(s.pc, frames(s.abs)), o.transfer(e, ck, s).succs))
  }

  predicate FollowedBy<A>(prog: seq<Instr>, frames: A -> seq<nat>, from: Control, succs: seq<Succ<A>>) {
    forall i :: 0 <= i < |succs| ==> Moves(prog, from, Control(succs[i].pc, frames(succs[i].abs)))
  }

  function Inside<A>(n: nat, frames: A -> seq<nat>): (nat, A) -> bool {
    (pc: nat, a: A) => Sited(n, Control(pc, frames(a)))
  }

  lemma FollowsIsConfined<A(!new), E(!new)>(prog: seq<Instr>, frames: A -> seq<nat>, p: Program, o: Oracle<A, E>)
    requires WellFormed(prog) && Subprograms.Structured(prog) && Follows(prog, frames, o) && p.len == |prog|
    ensures Confined(p, o, Inside(|prog|, frames))
  {
    hide WellFormed, Subprograms.Structured, FollowsAt, ConfinedAt, Inside;
    var inside := Inside(|prog|, frames);
    forall e: E, ck: seq<Checkpoint<A>>, s: State<A> | inside(s.pc, s.abs) ensures ConfinedAt(p, o, inside, e, ck, s) {
      assert FollowsAt(prog, frames, o, e, ck, s);
      FollowsIsConfinedAt(prog, frames, p, o, e, ck, s);
    }
  }

  lemma FollowsIsConfinedAt<A, E>(
      prog: seq<Instr>, frames: A -> seq<nat>, p: Program, o: Oracle<A, E>, e: E, ck: seq<Checkpoint<A>>, s: State<A>)
    requires WellFormed(prog) && Subprograms.Structured(prog) && p.len == |prog|
    requires FollowsAt(prog, frames, o, e, ck, s) && Inside(|prog|, frames)(s.pc, s.abs)
    ensures ConfinedAt(p, o, Inside(|prog|, frames), e, ck, s)
  {
    hide WellFormed, Subprograms.Structured, Moves;
    var inside := Inside(|prog|, frames);
    var a, succs := Control(s.pc, frames(s.abs)), o.transfer(e, ck, s).succs;
    if !o.transfer(e, ck, s).fail {
      forall i | 0 <= i < |succs| ensures inside(succs[i].pc, succs[i].abs) {
        assert FollowedBy(prog, frames, a, succs);
        MovesStaySited(prog, a, Control(succs[i].pc, frames(succs[i].abs)));
      }
    }
  }

  // ---------------------------------------------------------------- programs that the checks let through

  function Instrs(raw: seq<Raw>): seq<Instr>
    requires Lowerable(raw)
  {
    Slots(raw, |raw|)
  }

  /**
   Lowering and both structural checks succeed, and there is an instruction: the pass that prepares
   stack liveness looks up the successors of the first one, and aborts if there is none.
   */
  ghost predicate Admitted(raw: seq<Raw>, sites: FlowCheck.Sites, roots: seq<nat>) {
    && raw != [] && Lowerable(raw)
    && Subprograms.Structured(Instrs(raw))
    && FlowCheck.Traversable(Instrs(raw), sites, roots)
  }

  function JumpClass(prog: seq<Instr>): set<nat> {
    set pc: nat | pc < |prog| && !prog[pc].Plain? && !prog[pc].Wide?
  }

  /** Everywhere else control can only go on in line. */
  lemma OtherwiseStraight(prog: seq<Instr>, a: Control, b: Control)
    requires a.pc < |prog| && a.pc !in JumpClass(prog)
    ensures Moves(prog, a, b) <==> b == a.(pc := a.pc + if prog[a.pc].Wide? then 2 else 1)
  {
  }

  /** What the loop gets to see of an admitted program. */
  function Loaded(prog: seq<Instr>, invalid: set<nat>, marks: FlowCheck.Marks): Program {
    Program(|prog|, invalid, marks.jmp, marks.prune, marks.force, JumpClass(prog))
  }

  ghost function LoadedFrom(raw: seq<Raw>, sites: FlowCheck.Sites, roots: seq<nat>): Program
    requires Lowerable(raw)
  {
    var prog := Instrs(raw);
    Loaded(prog, Seconds(raw, |raw|), FlowCheck.Gathered(prog, sites, roots, FlowCheck.ReachedPcs(prog, sites, roots)))
  }

  /** An entry of the program with no frame open. */
  predicate Enters<A>(raw: seq<Raw>, frames: A -> seq<nat>, entry: State<A>) {
    entry.pc < |raw| && frames(entry.abs) == [] && entry.parent == None
  }

  /** The loop ends without a failure and without being stopped for another round. */
  ghost predicate Passes<A, E>(
      raw: seq<Raw>, sites: FlowCheck.Sites, roots: seq<nat>, c: Config, o: Oracle<A, E>, aux: E, entry: State<A>)
    requires Lowerable(raw)
  {
    var e := Run(LoadedFrom(raw, sites, roots), c, o, Start(aux, entry)).env;
    !e.failed && !e.stop
  }

  lemma AdmittedIsConfined<A(!new), E(!new)>(
      raw: seq<Raw>, sites: FlowCheck.Sites, roots: seq<nat>, frames: A -> seq<nat>, o: Oracle<A, E>, entry: State<A>)
    requires Admitted(raw, sites, roots) && Follows(Instrs(raw), frames, o) && Enters(raw, frames, entry)
    ensures Lowerable(raw) && Confined(LoadedFrom(raw, sites, roots), o, Inside(|raw|, frames))
    ensures Inside(|raw|, frames)(entry.pc, entry.abs)
  {
    hide Lowerable, Slots, Seconds, FlowCheck.Gathered, FlowCheck.ReachedPcs, FlowCheck.Traversable, Subprograms.Structured,
      Follows, WellFormed, Confined, JumpClass;
    LoweredIsWellFormed(raw);
    FollowsIsConfined(Instrs(raw), frames, LoadedFrom(raw, sites, roots), o);
  }

  /** Whatever the domain does, the loop never looks outside an admitted program. */
  lemma AdmittedStaysInRange<A(!new), E(!new)>(
      raw: seq<Raw>, sites: FlowCheck.Sites, roots: seq<nat>, frames: A -> seq<nat>,
      c: Config, o: Oracle<A, E>, aux: E, entry: State<A>, n: nat)
    requires Admitted(raw, sites, roots) && Follows(Instrs(raw), frames, o) && Enters(raw, frames, entry)
    ensures var p := LoadedFrom(raw, sites, roots);
            var l := Turns(p, c, o, Start(aux, entry), n); InRange(p, l.env.visits) && InRange(p, l.pending)
  {
    hide *;
    AdmittedIsConfined(raw, sites, roots, frames, o, entry);
    ConfinedStaysInRange(LoadedFrom(raw, sites, roots), c, o, Inside(|raw|, frames), aux, entry, n);
  }

  /** Safety with nothing assumed about ranges: every run of a verified program stays inside it and never faults. */
  lemma VerifiedProgramsAreSafe<A(!new), E(!new), C(!new)>(
      raw: seq<Raw>, sites: FlowCheck.Sites, roots: seq<nat>, frames: A -> seq<nat>,
      c: Config, o: Oracle<A, E>, m: Meaning<A, C>, aux: E, entry: State<A>, run: seq<C>)
    requires Admitted(raw, sites, roots) && Follows(Instrs(raw), frames, o) && Enters(raw, frames, entry)
    requires Sound(LoadedFrom(raw, sites, roots), o, m)
    requires Passes(raw, sites, roots, c, o, aux, entry)
    requires Steps(m, run) && (run != [] ==> Covers(m, entry, run[0]))
    ensures Safe(LoadedFrom(raw, sites, roots), m, run)
  {
    hide Admitted, LoadedFrom, Follows, Enters, Confined, Inside, Sound, Run, Steps, Covers, Safe;
    AdmittedIsConfined(raw, sites, roots, frames, o, entry);
    ConfinedProgramsAreSafe(LoadedFrom(raw, sites, roots), c, o, m, Inside(|raw|, frames), aux, entry, run);
  }

  lemma {:induction false} LeakFreeIffWalksFit<A(!new), E(!new)>(
      p: Program, c: Config, o: Oracle<A, E>, inside: (nat, A) -> bool, l: Loop<A, E>, aux: E, n: nat)
    requires Confined(p, o, inside) && Throughout(inside, l.env.visits) && Throughout(inside, l.pending)
    ensures LeakFree(p, c, o, l, n) <==> WalksFit(p, c, o, l, n)
    decreases n
  {
    hide Confined, Leaks, EndsLong, Turn;
    if n > 0 && Live(l) {
      ThroughoutInRange(p, o, inside, aux, l.pending);
      LeaksIffEndsLong(p, c, o, l.env, l.pending[|l.pending| - 1]);
      TurnsInside(p, c, o, inside, l, 1);
      assert Turns(p, c, o, l, 1) == Turns(p, c, o, Turn(p, c, o, l), 0) == Turn(p, c, o, l);
      LeakFreeIffWalksFit(p, c, o, inside, Turn(p, c, o, l), aux, n - 1);
    }
  }

  /** On admitted programs the only way to lose a branch count is a path that ends under too long a chain. */
  lemma CountersExactIffWalksFit<A(!new), E(!new)>(
      raw: seq<Raw>, sites: FlowCheck.Sites, roots: seq<nat>, frames: A -> seq<nat>,
      c: Config, o: Oracle<A, E>, aux: E, entry: State<A>, n: nat)
    requires Admitted(raw, sites, roots) && Follows(Instrs(raw), frames, o) && Enters(raw, frames, entry)
    requires !Turns(LoadedFrom(raw, sites, roots), c, o, Start(aux, entry), n).env.failed
    ensures var p := LoadedFrom(raw, sites, roots);
            var l := Turns(p, c, o, Start(aux, entry), n);
            Exact(l.env.ckpts, Parents(l.pending)) <==> WalksFit(p, c, o, Start(aux, entry), n)
  {
    hide Admitted, LoadedFrom, Follows, Confined, Inside, Turns, Exact, Parents, LeakFree, WalksFit;
    AdmittedIsConfined(raw, sites, roots, frames, o, entry);
    var p := LoadedFrom(raw, sites, roots);
    LeakFreeIffWalksFit(p, c, o, Inside(|raw|, frames), Start(aux, entry), aux, n);
    ExactIffNoTurnLeaks(p, c, o, aux, entry, n);
  }

  // ---------------------------------------------------------------- what the checks leave to each other

  /** Nothing in a lowered program leads out, so there the flow check only asks for reachability. */
  lemma LoweredTraversableIff(raw: seq<Raw>, sites: FlowCheck.Sites, roots: seq<nat>)
    requires Lowerable(raw)
    ensures FlowCheck.Traversable(Instrs(raw), sites, roots) <==>
            (FlowCheck.Calls(Instrs(raw)) ==>
              forall pc: nat :: pc < |raw| ==> FlowCheck.Reached(Instrs(raw), sites, roots, pc))
  {
    hide FlowCheck.Reached, FlowCheck.Calls;
    LoweredIsWellFormed(raw);
    var prog := Instrs(raw);
    forall pc: nat | pc < |prog| ensures FlowCheck.Stays(prog, sites, pc) { assert Targets(prog, pc); }
  }

  /** The last instruction of an admitted program never falls through. */
  lemma AdmittedEnds(raw: seq<Raw>, sites: FlowCheck.Sites, roots: seq<nat>)
    requires Admitted(raw, sites, roots)
    ensures raw[|raw| - 1].RawExit? || raw[|raw| - 1].RawJump?
  {
    hide FlowCheck.Traversable;
    assert Subprograms.Fits(Instrs(raw), |raw| - 1);
  }

  // ---------------------------------------------------------------- the driver

  datatype Verdict =
    | Verified
    | NotLowered(pc: nat, error: LowerError)
    | BadSubprogram(subprogram: Subprograms.Verdict)
    | BadFlow(flow: FlowCheck.Verdict)
    | OverBudget
    | Aborted
    | Rejected
    | Stopped

  /** One round: lowering, the structural checks, the checks on stack depth and maps (`fits`), the loop. */
  method Analyze<A, E>(
      raw: seq<Raw>, sites: FlowCheck.Sites, roots: seq<nat>, fits: bool, c: Config, o: Oracle<A, E>, aux: E, entry: State<A>)
    returns (v: Verdict)
    ensures v.Verified? <==> (fits && Admitted(raw, sites, roots) && Passes(raw, sites, roots, c, o, aux, entry))
    ensures v.NotLowered? <==> !Lowerable(raw)
    ensures v.BadSubprogram? <==> Lowerable(raw) && !Subprograms.Structured(Instrs(raw))
    ensures v.BadSubprogram? ==> Subprograms.Tells(Instrs(raw), v.subprogram)
    ensures v.OverBudget? ==> !fits
    ensures v.Aborted? <==> fits && raw == []
    ensures v.BadFlow? ==> Lowerable(raw) && !FlowCheck.Traversable(Instrs(raw), sites, roots)
  {
    hide Lowerable, Slots, Seconds, Run, FlowCheck.Gathered, FlowCheck.ReachedPcs, FlowCheck.Traversable, Subprograms.Structured;
    var lowered := Lower(raw);
    if lowered.Failure? { return NotLowered(lowered.pc, lowered.error); }
    var subprogs := Subprograms.CheckSubprogs(lowered.instrs);
    if !subprogs.Accepted? { return BadSubprogram(subprogs); }
    if !fits { return OverBudget; }
    var flow := FlowCheck.CheckCfg(lowered.instrs, sites, roots);
    if !flow.Accepted? { return BadFlow(flow); }
    if |lowered.instrs| == 0 { return Aborted; }
    var verifier := new Verifier(Loaded(lowered.instrs, lowered.invalid, flow.marks), c, o, aux);
    ghost var start := Start<A, E>(aux, entry);
    assert verifier.View() == start.env;
    var _ := verifier.RunWorklist(entry);
    assert Loop(start.env.(pruned := 0), [entry]) == start;
    if verifier.failed { return Rejected; }
    if verifier.stop { return Stopped; }
    v := Verified;
  }

  // ---------------------------------------------------------------- a verified program that leaks

  /** `n` raw instructions in a row, the last one an exit. */
  function RawLine(n: nat): seq<Raw>
    requires n >= 1
  {
    Repeated(RawPlain, n - 1) + [RawExit]
  }

  lemma LineIsLowered(n: nat)
    requires n >= 1
    ensures Lowerable(RawLine(n)) && Seconds(RawLine(n), n) == {}
    ensures forall pc :: 0 <= pc < n ==> Instrs(RawLine(n))[pc] == if pc + 1 < n then Plain else Exit
  {
  }

  lemma LineIsAdmitted(n: nat)
    requires n >= 1
    ensures Admitted(RawLine(n), FlowCheck.Sites(map[], {}), [0])
    ensures Line(LoadedFrom(RawLine(n), FlowCheck.Sites(map[], {}), [0]), n)
  {
    hide Lowerable, Seconds, FlowCheck.ReachedPcs, FlowCheck.Traversable, FlowCheck.Reached;
    LineIsLowered(n);
    var raw, sites := RawLine(n), FlowCheck.Sites(map[], {});
    var prog := Instrs(raw);
    hide RawLine, Instrs;
    LoweredTraversableIff(raw, sites, [0]);
    forall pc | 0 <= pc < n ensures Subprograms.Fits(prog, pc) { }
    var marks := FlowCheck.Gathered(prog, sites, [0], FlowCheck.ReachedPcs(prog, sites, [0]));
    forall pc: nat ensures FlowCheck.Marking(prog, sites, pc).jmp == {} { }
    assert marks.jmp == {};
  }

  function NoFrames(a: ()): seq<nat> {
    []
  }

  lemma LineFollows(n: nat)
    requires n >= 1
    ensures Lowerable(RawLine(n)) && Follows(Instrs(RawLine(n)), NoFrames, StraightLine(n))
  {
    LineIsLowered(n);
    var prog, o := Instrs(RawLine(n)), StraightLine(n);
    hide RawLine, Instrs, Lowerable;
    forall e: (), ck: seq<Checkpoint<()>>, s: State<()> ensures FollowsAt(prog, NoFrames, o, e, ck, s) { }
  }

  /** Losing counts is not confined to refused programs: a long straight line passes every check and leaks. */
  lemma AdmittedLineExactIffShort(n: nat)
    requires 1 <= n <= 1_000_000
    ensures Admitted(RawLine(n), FlowCheck.Sites(map[], {}), [0])
    ensures Follows(Instrs(RawLine(n)), NoFrames, StraightLine(n))
    ensures var p := LoadedFrom(RawLine(n), FlowCheck.Sites(map[], {}), [0]);
            var l := Turns(p, DENSE, StraightLine(n), Start((), State(0, None, 0, ())), n);
            && l.pending == [] && !l.env.failed
            && (Exact(l.env.ckpts, Parents(l.pending)) <==> n <= 16_384)
  {
    hide *;
    LineIsAdmitted(n);
    LineFollows(n);
    StraightLineExactIffShort(LoadedFrom(RawLine(n), FlowCheck.Sites(map[], {}), [0]), n);
  }
}
