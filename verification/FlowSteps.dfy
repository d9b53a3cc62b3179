/**
 The graph of the two passes against the steps of the transfer functions: every step follows edges,
 every edge is a step, a return point or the way through a two-slot load. What a run executes twice
 in one frame therefore lies on a cycle of the graph.
 */
module FlowSteps {
  import opened Words
  import opened Reachability
  import opened ControlFlow
  import opened Lowering
  import Subprograms
  import opened FlowCheck

  /** Some walk of at least one edge. */
  ghost predicate Leads(g: Graph, u: nat, w: nat) {
    exists v: nat :: Edge(g, u, v) && Reach(g, v, w)
  }

  lemma LeadsByEdge(g: Graph, u: nat, v: nat)
    requires Edge(g, u, v)
    ensures Leads(g, u, v)
  {
    ReachSelf(g, v);
  }

  lemma LeadsFurther(g: Graph, u: nat, v: nat, w: nat)
    requires Leads(g, u, v) && (v == w || Leads(g, v, w))
    ensures Leads(g, u, w)
  {
    hide Reach;
    var x: nat :| Edge(g, u, x) && Reach(g, x, v);
    if v != w {
      var y: nat :| Edge(g, v, y) && Reach(g, y, w);
      ReachEdge(g, v, y);
      ReachTrans(g, x, v, y);
      ReachTrans(g, x, y, w);
    }
  }

  lemma LeadsReaches(g: Graph, u: nat, w: nat)
    requires Leads(g, u, w)
    ensures Reach(g, u, w)
  {
    hide Reach;
    var v: nat :| Edge(g, u, v) && Reach(g, v, w);
    ReachEdge(g, u, v);
    ReachTrans(g, u, v, w);
  }

  /** Both passes see this graph, or more. */
  predicate Contains(g: Graph, prog: seq<Instr>) {
    |g| == |prog| && forall u, v :: 0 <= u < |prog| && v in Successors(prog, u) ==> v in g[u]
  }

  lemma BothContain(prog: seq<Instr>, sites: Sites)
    ensures Contains(FlowGraph(prog), prog) && Contains(VisitGraph(prog, sites), prog)
  {
    hide Successors;
  }

  /** Falling through is an edge. */
  lemma NextIsEdge(prog: seq<Instr>, g: Graph, pc: nat)
    requires Subprograms.Structured(prog) && Contains(g, prog) && pc < |prog| && !prog[pc].Jmp? && !prog[pc].Exit?
    ensures Edge(g, pc, pc + 1)
  {
    hide Subprograms.Structured;
    Subprograms.StructuredJumps(prog, pc);
    assert pc + 1 in Successors(prog, pc);
  }

  lemma TargetIsEdge(prog: seq<Instr>, g: Graph, pc: nat)
    requires WellFormed(prog) && Contains(g, prog) && pc < |prog|
    requires prog[pc].Jmp? || prog[pc].If? || prog[pc].MayGoto? || prog[pc].CallRel?
    ensures Edge(g, pc, prog[pc].target)
  {
    assert Targets(prog, pc);
    assert prog[pc].target in Successors(prog, pc);
  }

  lemma ThroughWide(prog: seq<Instr>, g: Graph, pc: nat)
    requires WellFormed(prog) && Subprograms.Structured(prog) && Contains(g, prog) && pc < |prog| && prog[pc].Wide?
    ensures Leads(g, pc, pc + 2)
  {
    hide Subprograms.Structured, Contains;
    assert Targets(prog, pc);
    NextIsEdge(prog, g, pc);
    NextIsEdge(prog, g, pc + 1);
    LeadsByEdge(g, pc, pc + 1);
    LeadsByEdge(g, pc + 1, pc + 2);
    LeadsFurther(g, pc, pc + 1, pc + 2);
  }

  // ---------------------------------------------------------------- steps follow edges

  /** Within a frame a step follows edges; a call is followed by its return point. */
  lemma StepLeads(prog: seq<Instr>, g: Graph, a: Control, b: Control)
    requires WellFormed(prog) && Subprograms.Structured(prog) && Contains(g, prog) && Moves(prog, a, b)
    ensures b.frames == a.frames ==> Leads(g, a.pc, b.pc)
    ensures |b.frames| > |a.frames| ==> b.frames == a.frames + [a.pc + 1] && Leads(g, a.pc, a.pc + 1)
    ensures |b.frames| < |a.frames| ==> prog[a.pc].Exit? && a.frames == b.frames + [b.pc]
  {
    hide Subprograms.Structured, WellFormed, Contains, Leads;
    match prog[a.pc] {
      case Exit =>
        assert |b.frames| < |a.frames| && a.frames == a.frames[..|a.frames| - 1] + [a.frames[|a.frames| - 1]];
      case Wide(_) =>
        ThroughWide(prog, g, a.pc);
      case Jmp(t) =>
        TargetIsEdge(prog, g, a.pc);
        LeadsByEdge(g, a.pc, t);
      case Call =>
        NextIsEdge(prog, g, a.pc);
        LeadsByEdge(g, a.pc, a.pc + 1);
      case Plain =>
        NextIsEdge(prog, g, a.pc);
        LeadsByEdge(g, a.pc, a.pc + 1);
      case _ =>
        NextIsEdge(prog, g, a.pc);
        LeadsByEdge(g, a.pc, a.pc + 1);
        TargetIsEdge(prog, g, a.pc);
        LeadsByEdge(g, a.pc, prog[a.pc].target);
    }
  }

  /** The callback that a call enters is the one found to feed it. */
  predicate Fed(prog: seq<Instr>, sites: Sites, a: Control, b: Control) {
    a.pc < |prog| && prog[a.pc].Call? && b.frames != a.frames ==> a.pc in sites.callback && sites.callback[a.pc] == b.pc
  }

  /** What a step enters is reached in the graph of the flow check: the next pc, and a callee's or callback's entry. */
  lemma StepVisits(prog: seq<Instr>, sites: Sites, a: Control, b: Control)
    requires WellFormed(prog) && Subprograms.Structured(prog) && Moves(prog, a, b) && Fed(prog, sites, a, b)
    requires !prog[a.pc].Exit?
    ensures Leads(VisitGraph(prog, sites), a.pc, b.pc)
    ensures |b.frames| > |a.frames| ==> Leads(VisitGraph(prog, sites), a.pc, a.pc + 1)
  {
    var g := VisitGraph(prog, sites);
    BothContain(prog, sites);
    hide Subprograms.Structured, Contains, Leads;
    StepLeads(prog, g, a, b);
    if prog[a.pc].CallRel? {
      TargetIsEdge(prog, g, a.pc);
      LeadsByEdge(g, a.pc, b.pc);
    } else if b.frames != a.frames {
      var c :| 0 <= c < |prog| && prog[c] == Wide(Some(b.pc));
      assert Targets(prog, c);
      assert b.pc in Visited(prog, sites, a.pc);
      LeadsByEdge(g, a.pc, b.pc);
    }
  }

  // ---------------------------------------------------------------- edges are steps

  /** Every edge is a step, leads to the return point of a call, or into the second slot of a load. */
  lemma EdgeIsStep(prog: seq<Instr>, sites: Sites, u: nat, v: nat)
    requires Edge(VisitGraph(prog, sites), u, v)
    requires forall pc :: pc in sites.callback ==> Entry(prog, sites.callback[pc])
    ensures || Moves(prog, Control(u, []), Control(v, []))
            || Moves(prog, Control(u, []), Control(v, [u + 1]))
            || (v == u + 1 && (prog[u].CallRel? || prog[u].Wide?))
  {
    hide Entry;
    assert v in Visited(prog, sites, u);
    assert [] + [u + 1] == [u + 1];
  }

  // ---------------------------------------------------------------- what a run executes twice

  /** Consecutive steps that never leave the frame `base` was at the start. */
  predicate InFrame(prog: seq<Instr>, run: seq<Control>, base: seq<nat>) {
    && (forall i :: 0 <= i < |run| ==> base <= run[i].frames)
    && (forall i :: 0 <= i < |run| - 1 ==> Moves(prog, run[i], run[i + 1]))
  }

  /** Where the frame `base` stands, or will be when the calls it has made return. */
  function Anchor(c: Control, base: seq<nat>): nat {
    if |c.frames| > |base| then c.frames[|base|] else c.pc
  }

  lemma AnchorMoves(prog: seq<Instr>, g: Graph, base: seq<nat>, a: Control, b: Control)
    requires WellFormed(prog) && Subprograms.Structured(prog) && Contains(g, prog) && Moves(prog, a, b)
    requires base <= a.frames && base <= b.frames
    ensures Anchor(a, base) == Anchor(b, base) || Leads(g, Anchor(a, base), Anchor(b, base))
    ensures a.frames == base ==> Leads(g, Anchor(a, base), Anchor(b, base))
  {
    hide Subprograms.Structured, WellFormed, Contains, Leads, Moves;
    StepLeads(prog, g, a, b);
    FramesDiffer(prog, a, b);
  }

  lemma FramesDiffer(prog: seq<Instr>, a: Control, b: Control)
    requires Moves(prog, a, b)
    ensures b.frames == a.frames || |b.frames| != |a.frames|
  {
  }

  lemma {:induction false} RunLeads(prog: seq<Instr>, g: Graph, run: seq<Control>, base: seq<nat>, i: nat)
    requires WellFormed(prog) && Subprograms.Structured(prog) && Contains(g, prog)
    requires InFrame(prog, run, base) && 0 < i < |run| && run[0].frames == base
    ensures Leads(g, run[0].pc, Anchor(run[i], base))
  {
    hide Subprograms.Structured, WellFormed, Contains, Leads, Moves;
    assert Moves(prog, run[i - 1], run[i - 1 + 1]);
    AnchorMoves(prog, g, base, run[i - 1], run[i]);
    if i > 1 {
      RunLeads(prog, g, run, base, i - 1);
      var x, y := Anchor(run[i - 1], base), Anchor(run[i], base);
      if x != y { LeadsFurther(g, run[0].pc, x, y); }
    }
  }

  /** An instruction that one run executes twice in the same frame lies on a cycle of the flow graph. */
  lemma ExecutedTwiceIsOnCycle(prog: seq<Instr>, run: seq<Control>)
    requires WellFormed(prog) && Subprograms.Structured(prog) && |run| > 1 && InFrame(prog, run, run[0].frames)
    requires run[|run| - 1] == run[0]
    ensures OnCycle(FlowGraph(prog), run[0].pc)
  {
    hide Subprograms.Structured, WellFormed, Contains, Moves, Reach, FlowGraph;
    BothContain(prog, Sites(map[], {}));
    RunLeads(prog, FlowGraph(prog), run, run[0].frames, |run| - 1);
  }

  // ---------------------------------------------------------------- functions

  /**
   Within a frame control stays inside its function, for all but one kind of step: the target of a
   `may_goto` is not looked at.
   */
  lemma StepStaysInFunction(prog: seq<Instr>, a: Control, b: Control)
    requires WellFormed(prog) && Subprograms.Structured(prog) && Moves(prog, a, b) && b.frames == a.frames
    ensures Subprograms.SameFunction(prog, a.pc, b.pc) || (prog[a.pc].MayGoto? && b.pc == prog[a.pc].target)
  {
    assert Subprograms.Fits(prog, a.pc) && Targets(prog, a.pc);
    if !prog[a.pc].Jmp? && !prog[a.pc].Exit? {
      Subprograms.StructuredJumps(prog, a.pc);
      if prog[a.pc].Wide? { Subprograms.StructuredJumps(prog, a.pc + 1); }
    }
  }

  const LEAVING: seq<Instr> := [CallRel(2), Exit, MayGoto(1), Exit]

  /** A `may_goto` that leaves its function passes. */
  lemma MayGotoMayLeave()
    ensures WellFormed(LEAVING) && Subprograms.Structured(LEAVING)
    ensures Moves(LEAVING, Control(2, [1]), Control(1, [1])) && !Subprograms.SameFunction(LEAVING, 2, 1)
  {
    assert LEAVING[0] == CallRel(2);
    assert Subprograms.Starts(LEAVING, 2) && Subprograms.Starts(LEAVING, 0);
    forall pc | 0 <= pc < 4 ensures Subprograms.Fits(LEAVING, pc) && Targets(LEAVING, pc) { }
  }

  // ---------------------------------------------------------------- prune points

  /** The marks of one instruction, kind by kind. */
  lemma MarksAre(prog: seq<Instr>, sites: Sites, u: nat, x: nat)
    requires u < |prog|
    ensures var i, m := prog[u], Marking(prog, sites, u);
            var target := (i.Jmp? || i.If? || i.MayGoto? || i.CallRel?) && i.target == x;
            var entry := i.Call? && u in sites.callback && sites.callback[u] == x;
            var iter := i.Call? && u in sites.iterNext && x == u;
            var self := x == u && (i.If? || i.MayGoto? || i.CallRel?);
            var next := x == u + 1 && (i.Jmp? || i.MayGoto? || i.CallRel? || i.Call?);
            && (x in m.prune <==> x < |prog| && (target || entry || iter || self || next))
            && (x in m.jmp <==> x < |prog| && (target || (x == u + 1 && (i.MayGoto? || i.CallRel? || i.Call?))))
            && (x in m.force <==> iter || (x == u && (i.MayGoto? || (i.Call? && u in sites.callback))))
  {
  }

  lemma OffLineEdgeMarks(prog: seq<Instr>, sites: Sites, u: nat, v: nat)
    requires Edge(VisitGraph(prog, sites), u, v) && v != u + 1
    ensures v in Marking(prog, sites, u).prune
  {
    hide Marking;
    assert v in Visited(prog, sites, u);
    MarksAre(prog, sites, u, v);
  }

  lemma MarkedWhereReached(prog: seq<Instr>, sites: Sites, roots: seq<nat>, u: nat, x: nat)
    requires u < |prog| && Reached(prog, sites, roots, u) && x in Marking(prog, sites, u).prune
    ensures x in Gathered(prog, sites, roots, ReachedPcs(prog, sites, roots)).prune
  {
    hide Marking, Reached;
    assert u in ReachedPcs(prog, sites, roots);
  }

  /** Wherever two ways of reaching an instruction join, there is a prune point. */
  lemma JoinIsPrunePoint(prog: seq<Instr>, sites: Sites, roots: seq<nat>, u: nat, v: nat, x: nat)
    requires u != v && Edge(VisitGraph(prog, sites), u, x) && Edge(VisitGraph(prog, sites), v, x)
    requires Reached(prog, sites, roots, u) && Reached(prog, sites, roots, v)
    ensures x in Gathered(prog, sites, roots, ReachedPcs(prog, sites, roots)).prune
  {
    hide Marking, Reached, Gathered, VisitGraph;
    var w := if x == u + 1 then v else u;
    OffLineEdgeMarks(prog, sites, w, x);
    MarkedWhereReached(prog, sites, roots, w, x);
  }

  lemma {:induction false} StraightRises(g: Graph, p: seq<nat>, k: nat)
    requires Walk(g, p) && k < |p| && forall i :: 0 <= i < |p| - 1 ==> p[i + 1] == p[i] + 1
    ensures p[k] == p[0] + k
  {
    if k > 0 { StraightRises(g, p, k - 1); assert p[k - 1 + 1] == p[k - 1] + 1; }
  }

  /** Every loop that can be reached passes a prune point. */
  lemma CycleHasPrunePoint(prog: seq<Instr>, sites: Sites, roots: seq<nat>, p: seq<nat>) returns (i: nat)
    requires Walk(VisitGraph(prog, sites), p) && |p| > 1 && p[0] == p[|p| - 1]
    requires forall k :: 0 <= k < |p| ==> Reached(prog, sites, roots, p[k])
    ensures i < |p| && p[i] in Gathered(prog, sites, roots, ReachedPcs(prog, sites, roots)).prune
  {
    hide Marking, Reached, Gathered, VisitGraph;
    var g := VisitGraph(prog, sites);
    if forall j :: 0 <= j < |p| - 1 ==> p[j + 1] == p[j] + 1 {
      StraightRises(g, p, |p| - 1);
      assert false;
    }
    var j :| 0 <= j < |p| - 1 && p[j + 1] != p[j] + 1;
    assert Edge(g, p[j], p[j + 1]);
    OffLineEdgeMarks(prog, sites, p[j], p[j + 1]);
    MarkedWhereReached(prog, sites, roots, p[j], p[j + 1]);
    i := j + 1;
  }
}
