/** The loop and the flow check look at the same program: whatever the loop expands, the check has reached. */
module Coverage {
  import opened Reachability
  import opened ControlFlow
  import opened Lowering
  import Subprograms
  import FlowCheck
  import opened FlowSteps
  import opened Worklist
  import opened WorklistSoundness
  import opened Admission

  /** The pc and all return points have been reached. */
  ghost predicate ReachedControl(prog: seq<Instr>, sites: FlowCheck.Sites, roots: seq<nat>, c: Control) {
    && Sited(|prog|, c) && FlowCheck.Reached(prog, sites, roots, c.pc)
    && forall i :: 0 <= i < |c.frames| ==> FlowCheck.Reached(prog, sites, roots, c.frames[i])
  }

  lemma ReachedOnward(prog: seq<Instr>, sites: FlowCheck.Sites, roots: seq<nat>, u: nat, v: nat)
    requires FlowCheck.Reached(prog, sites, roots, u) && Leads(FlowCheck.VisitGraph(prog, sites), u, v)
    ensures FlowCheck.Reached(prog, sites, roots, v)
  {
    hide Reach, Leads;
    var g := FlowCheck.VisitGraph(prog, sites);
    var r :| r in roots && r < |prog| && Reach(g, r, u);
    LeadsReaches(g, u, v);
    ReachTrans(g, r, u, v);
  }

  lemma MovesStayReached(prog: seq<Instr>, sites: FlowCheck.Sites, roots: seq<nat>, a: Control, b: Control)
    requires WellFormed(prog) && Subprograms.Structured(prog) && Moves(prog, a, b) && Fed(prog, sites, a, b)
    requires ReachedControl(prog, sites, roots, a)
    ensures ReachedControl(prog, sites, roots, b)
  {
    MovesStaySited(prog, a, b);
    BothContain(prog, sites);
    StepLeads(prog, FlowCheck.VisitGraph(prog, sites), a, b);
    FramesDiffer(prog, a, b);
    if !prog[a.pc].Exit? {
      StepVisits(prog, sites, a, b);
      hide WellFormed, Subprograms.Structured, Moves, Leads, FlowCheck.Reached, Contains;
      ReachedOnward(prog, sites, roots, a.pc, b.pc);
      if |b.frames| > |a.frames| { ReachedOnward(prog, sites, roots, a.pc, a.pc + 1); }
    }
  }

  /** Transfer enters only callbacks that were found to feed the call. */
  ghost predicate FedTransfers<A(!new), E(!new)>(
      prog: seq<Instr>, sites: FlowCheck.Sites, frames: A -> seq<nat>, o: Oracle<A, E>)
  {
    forall e: E, ck: seq<Checkpoint<A>>, s: State<A> :: FedAt(prog, sites, frames, s, o.transfer(e, ck, s).succs)
  }

  predicate FedAt<A>(
      prog: seq<Instr>, sites: FlowCheck.Sites, frames: A -> seq<nat>, s: State<A>, succs: seq<Succ<A>>)
  {
    forall i :: 0 <= i < |succs| ==>
      Fed(prog, sites, Control(s.pc, frames(s.abs)), Control(succs[i].pc, frames(succs[i].abs)))
  }

  ghost function InsideReached<A>(
      prog: seq<Instr>, sites: FlowCheck.Sites, roots: seq<nat>, frames: A -> seq<nat>): (nat, A) -> bool
  {
    (pc: nat, a: A) => ReachedControl(prog, sites, roots, Control(pc, frames(a)))
  }

  lemma FollowsStaysReachedAt<A, E>(
      prog: seq<Instr>, sites: FlowCheck.Sites, roots: seq<nat>, frames: A -> seq<nat>,
      p: Program, o: Oracle<A, E>, e: E, ck: seq<Checkpoint<A>>, s: State<A>)
    requires WellFormed(prog) && Subprograms.Structured(prog) && p.len == |prog|
    requires FollowsAt(prog, frames, o, e, ck, s) && FedAt(prog, sites, frames, s, o.transfer(e, ck, s).succs)
    requires InsideReached(prog, sites, roots, frames)(s.pc, s.abs)
    ensures ConfinedAt(p, o, InsideReached(prog, sites, roots, frames), e, ck, s)
  {
    hide WellFormed, Subprograms.Structured, Moves, FlowCheck.Reached, Fed;
    var inside := InsideReached(prog, sites, roots, frames);
    var a, succs := Control(s.pc, frames(s.abs)), o.transfer(e, ck, s).succs;
    if !o.transfer(e, ck, s).fail {
      forall i | 0 <= i < |succs| ensures inside(succs[i].pc, succs[i].abs) {
        assert FollowedBy(prog, frames, a, succs);
        MovesStayReached(prog, sites, roots, a, Control(succs[i].pc, frames(succs[i].abs)));
      }
    }
  }

  lemma FollowsStaysReached<A(!new), E(!new)>(
      prog: seq<Instr>, sites: FlowCheck.Sites, roots: seq<nat>, frames: A -> seq<nat>, p: Program, o: Oracle<A, E>)
    requires WellFormed(prog) && Subprograms.Structured(prog) && p.len == |prog|
    requires Follows(prog, frames, o) && FedTransfers(prog, sites, frames, o)
    ensures Confined(p, o, InsideReached(prog, sites, roots, frames))
  {
    hide WellFormed, Subprograms.Structured, FollowsAt, FedAt, ConfinedAt, InsideReached;
    var inside := InsideReached(prog, sites, roots, frames);
    forall e: E, ck: seq<Checkpoint<A>>, s: State<A> | inside(s.pc, s.abs) ensures ConfinedAt(p, o, inside, e, ck, s) {
      assert FollowsAt(prog, frames, o, e, ck, s) && FedAt(prog, sites, frames, s, o.transfer(e, ck, s).succs);
      FollowsStaysReachedAt(prog, sites, roots, frames, p, o, e, ck, s);
    }
  }

  /** Every instruction that the loop expands or has pending was reached, and so marked, by the flow check. */
  lemma ExpandedWasReached<A(!new), E(!new)>(
      raw: seq<Raw>, sites: FlowCheck.Sites, roots: seq<nat>, frames: A -> seq<nat>,
      c: Config, o: Oracle<A, E>, aux: E, entry: State<A>, n: nat)
    requires Admitted(raw, sites, roots) && Follows(Instrs(raw), frames, o) && FedTransfers(Instrs(raw), sites, frames, o)
    requires Admission.Enters(raw, frames, entry) && entry.pc in roots
    ensures var l := Turns(LoadedFrom(raw, sites, roots), c, o, Start(aux, entry), n);
            && (forall i :: 0 <= i < |l.env.visits| ==> l.env.visits[i].pc in FlowCheck.ReachedPcs(Instrs(raw), sites, roots))
            && (forall i :: 0 <= i < |l.pending| ==> l.pending[i].pc in FlowCheck.ReachedPcs(Instrs(raw), sites, roots))
  {
    var prog, p := Instrs(raw), LoadedFrom(raw, sites, roots);
    var inside := InsideReached(prog, sites, roots, frames);
    LoweredIsWellFormed(raw);
    FlowCheck.ReachedRoot(prog, sites, roots, entry.pc);
    assert inside(entry.pc, entry.abs);
    assert p.len == |prog|;
    hide Slots, Seconds, FlowCheck.Gathered, FlowCheck.Traversable, FlowCheck.Reached, Subprograms.Structured, WellFormed,
      Follows, FedTransfers, Confined, JumpClass, Turns;
    FollowsStaysReached(prog, sites, roots, frames, p, o);
    TurnsInside(p, c, o, inside, Start(aux, entry), n);
  }

  /** An instruction that one run executes twice in the same frame has a nonzero component id. */
  lemma LoopsHaveIds(prog: seq<Instr>, ids: seq<nat>, run: seq<Control>)
    requires |ids| == |prog| && forall u :: 0 <= u < |prog| ==> (ids[u] == 0 <==> !OnCycle(FlowGraph(prog), u))
    requires WellFormed(prog) && Subprograms.Structured(prog) && |run| > 1 && InFrame(prog, run, run[0].frames)
    requires run[|run| - 1] == run[0]
    ensures run[0].pc < |prog| && ids[run[0].pc] != 0
  {
    hide Subprograms.Structured, WellFormed, OnCycle, FlowGraph;
    assert Moves(prog, run[0], run[0 + 1]);
    ExecutedTwiceIsOnCycle(prog, run);
  }
}
