/** The worklist loop as it runs: an environment updated in place, proved against `Worklist.Run`. */
module WorklistLoop {
  import opened Words
  import opened Worklist

  class Verifier<A, E> {
    const p: Program
    const c: Config
    const o: Oracle<A, E>

    var ckpts: seq<Checkpoint<A>>
    var insns: nat
    var jmps: nat
    var prevInsns: nat
    var prevJmps: nat
    var failed: bool
    var stop: bool
    var pruned: nat
    var aux: E

    ghost var arrivals: seq<State<A>>
    ghost var visits: seq<State<A>>
    ghost var unforced: nat
    ghost var leaked: multiset<nat>
    ghost var stamps: seq<Stamp>

    ghost function View(): Env<A, E>
      reads this
    {
      Env(ckpts, insns, jmps, prevInsns, prevJmps, failed, stop, pruned, aux, arrivals, visits, unforced, leaked, stamps)
    }

    constructor (p: Program, c: Config, o: Oracle<A, E>, aux: E)
      ensures this.p == p && this.c == c && this.o == o
      ensures forall s: State<A> {:trigger Start<A, E>(aux, s)} :: View() == Start<A, E>(aux, s).env
    {
      this.p, this.c, this.o, this.aux := p, c, o, aux;
      ckpts, insns, jmps, prevInsns, prevJmps := [], 0, 0, 0, 0;
      failed, stop, pruned := false, false, 0;
      arrivals, visits, unforced, leaked, stamps := [], [], 0, multiset{}, [];
    }

    /** Decrements along the parent chain until a checkpoint stays open, within the walk budget. */
    method CompleteDfsBranch(start: Option<nat>)
      modifies this`ckpts, this`leaked
      ensures View() == Died(old(View()), start)
    {
      ghost var was := ckpts;
      assert leaked + Owed(None) == leaked;
      var next: Option<nat>, budget: nat := start, WALK_BUDGET;
      while next.Some?
        invariant Complete(was, start, WALK_BUDGET) == Complete(ckpts, next, budget)
        invariant leaked == old(leaked)
        decreases budget, next.Some?
      {
        if budget == 0 {
          leaked := leaked + Owed(next);
          return;
        }
        budget := budget - 1;
        if next.value >= |ckpts| { return; }
        var st := ckpts[next.value];
        if st.branches > 0 { st := st.(branches := st.branches - 1); }
        ckpts := ckpts[next.value := st];
        if st.branches > 0 { return; }
        next := st.parent;
      }
    }

    /** Caches a snapshot of `s` with one open branch; its id is the next free one. */
    method RecordState(s: State<A>) returns (id: nat)
      modifies this`ckpts
      ensures id == |old(ckpts)| && ckpts == old(ckpts) + [Checkpoint(s.pc, s.parent, 1, s.abs)]
    {
      id := |ckpts|;
      ckpts := ckpts + [Checkpoint(s.pc, s.parent, 1, s.abs)];
    }

    /** Adds the extra branches of a fork, or ends the path if there is no successor. */
    method CountSuccessors(parent: Option<nat>, n: nat)
      modifies this`ckpts, this`leaked
      ensures View() == Counted(old(View()), parent, n)
    {
      hide Complete;
      if n > 1 && parent.Some? && parent.value < |ckpts| {
        var at := ckpts[parent.value];
        ckpts := ckpts[parent.value := at.(branches := at.branches + n - 1)];
      }
      if n == 0 { CompleteDfsBranch(parent); }
    }

    /** Limit, fetch and transfer for a state that was not pruned. */
    method Expand(s: State<A>) returns (succs: seq<State<A>>)
      modifies this
      ensures Outcome(View(), succs) == Expanded(p, c, o, old(View()), s)
    {
      hide Complete, Counted, Children;
      succs := [];
      visits := visits + [s];
      if insns > c.Limit() {
        failed := true;
        return;
      }
      if s.pc >= p.len {
        leaked := leaked + Owed(s.parent);
        return;
      }
      var raw := ApplyTransfer(s);
      if failed { return; }
      CountSuccessors(s.parent, |raw|);
      succs := Children(raw, s.parent);
    }

    /** One instruction; the successors still lack their parent. */
    method ApplyTransfer(s: State<A>) returns (raw: seq<Succ<A>>)
      modifies this`jmps, this`aux, this`failed, this`stop
      ensures var t := o.transfer(old(aux), ckpts, s);
              && raw == t.succs && aux == t.aux
              && failed == (old(failed) || t.fail) && stop == (old(stop) || t.stop)
      ensures jmps == old(jmps) + if s.pc in p.jmpClass then 1 else 0
    {
      if s.pc in p.jmpClass { jmps := jmps + 1; }
      var t := o.transfer(aux, ckpts, s);
      aux := t.aux;
      if t.fail { failed := true; }
      if t.stop { stop := true; }
      raw := t.succs;
    }

    /** Demotion, instruction count and pruning check. */
    method Look(popped: State<A>) returns (s: State<A>, prune: bool, active: bool)
      modifies this`insns, this`aux, this`failed
      ensures Worklist.Look(View(), s, prune, active) == Looked(p, c, o, old(View()), popped)
    {
      s := popped;
      if !c.kernelAlu && s.pc + 1 < p.len { s := s.(abs := o.demote(aux, ckpts, s)); }
      insns := insns + 1;
      var v := o.prune(aux, ckpts, s);
      aux := v.aux;
      if v.fail { failed := true; }
      s, prune, active := s.(abs := v.abs), v.prune, v.active;
    }

    /** Records a checkpoint where the cadence or a forcing rule asks for one. */
    method MaybeRecord(s: State<A>, active: bool) returns (r: State<A>)
      modifies this`ckpts, this`prevJmps, this`prevInsns, this`unforced, this`stamps
      ensures Outcome(View(), [r]) == Checkpointed(p, c, old(View()), s, active)
    {
      r := s;
      stamps := stamps + [Stamp(insns, active)];
      var sparse := c.kernelEngine || c.bcf;
      var dj, di := jmps - prevJmps, insns - prevInsns;
      var force := s.pc in p.forceCheckpoint || s.history > 40;
      var dampened := active && !force && dj < 20 && di < 100;
      var add := !sparse || force || (dj >= 2 && di >= 8 && !dampened);
      assert Records(p, c, old(View()), s, active) <==> (!sparse || s.pc in p.prunePoint) && add;
      hide Records;
      if (!sparse || s.pc in p.prunePoint) && add {
        var id := RecordState(s);
        unforced := unforced + if force then 0 else 1;
        prevJmps, prevInsns := jmps, insns;
        r := s.(parent := Some(id), history := 0);
      }
    }

    /** Counts branch history at jump points and at register spills and fills. */
    method Arrive(popped: State<A>) returns (s: State<A>)
      modifies this`arrivals
      ensures s == Arrived(p, o, popped) && View() == old(View()).(arrivals := old(arrivals) + [s])
    {
      s := popped;
      if o.spillOrFill(popped) { s := s.(history := s.history + 1); }
      if s.pc in p.jmpPoint { s := s.(history := s.history + 1); }
      arrivals := arrivals + [s];
    }

    /** The body of the loop for one popped state. */
    method ProcessState(popped: State<A>) returns (succs: seq<State<A>>)
      modifies this
      ensures Outcome(View(), succs) == Process(p, c, o, old(View()), popped)
    {
      hide Complete, Expanded, Looked, Checkpointed, Died, Arrived;
      succs := [];
      var s := Arrive(popped);
      if s.pc in p.invalid {
        failed := true;
        return;
      }
      var prune, active;
      s, prune, active := Look(s);
      if prune {
        pruned := pruned + 1;
        CompleteDfsBranch(s.parent);
        return;
      }
      s := MaybeRecord(s, active);
      succs := Expand(s);
    }

    /** Splits successors into loop-closing ones and the others. */
    method Partition(s: State<A>, succs: seq<State<A>>) returns (loopBack: seq<State<A>>, other: seq<State<A>>)
      ensures var f := BackFlags(c, o, aux, s, succs);
              loopBack == Chosen(f, succs, true) && other == Chosen(f, succs, false)
    {
      loopBack, other := [], [];
      ghost var f := BackFlags(c, o, aux, s, succs);
      ghost var yes, no := Chosen(f, succs, true), Chosen(f, succs, false);
      hide Chosen;
      assert f[0..] == f && succs[0..] == succs;
      assert [] + yes == yes && [] + no == no;
      for i := 0 to |succs|
        invariant loopBack + Chosen(f[i..], succs[i..], true) == yes
        invariant other + Chosen(f[i..], succs[i..], false) == no
      {
        var back := !c.bcf && o.backEdge(aux, s, Succ(succs[i].pc, succs[i].history, succs[i].abs));
        assert back == f[i];
        ChosenStep(f, succs, i, loopBack, true);
        ChosenStep(f, succs, i, other, false);
        if back { loopBack := loopBack + [succs[i]]; } else { other := other + [succs[i]]; }
        assert loopBack + [] == loopBack && other + [] == other;
      }
      ChosenNone<A>();
      assert f[|succs|..] == [] && succs[|succs|..] == [];
      assert loopBack + [] == loopBack && other + [] == other;
    }

    /** Pushes the successors: loop-closing ones first, then the others in reverse. */
    method PushSuccessors(s: State<A>, succs: seq<State<A>>, worklist: seq<State<A>>) returns (r: seq<State<A>>)
      ensures r == worklist + Pushed(c, o, aux, s, succs)
    {
      hide Chosen, BackFlags, Reversed;
      var loopBack, other := Partition(s, succs);
      r := worklist + loopBack;
      ghost var base := r;
      assert other[|other|..] == [] && base + [] == base;
      for i := |other| downto 0
        invariant r == base + Reversed(other[i..])
      {
        ReversedStep(other, i);
        ghost var done := Reversed(other[i + 1..]);
        assert base + done + [other[i]] == base + (done + [other[i]]);
        r := r + [other[i]];
      }
      assert other[0..] == other;
    }

    /** run_worklist: terminates for every domain, and ends where `Run` ends. */
    method RunWorklist(initial: State<A>) returns (pruneCount: nat)
      modifies this
      ensures View() == Run(p, c, o, Loop(old(View()).(pruned := 0), [initial])).env
      ensures pruneCount == pruned
    {
      hide Process, Pushed;
      pruned := 0;
      var worklist := [initial];
      ghost var start := Loop(View(), worklist);
      while worklist != []
        invariant Run(p, c, o, Loop(View(), worklist)) == Run(p, c, o, start)
        decreases Live(Loop(View(), worklist)), Budget(c, View()), |worklist|
      {
        ghost var l := Loop(View(), worklist);
        var state := worklist[|worklist| - 1];
        if stop || failed { break; }
        worklist := worklist[..|worklist| - 1];
        var succs := ProcessState(state);
        worklist := PushSuccessors(state, succs, worklist);
        assert Loop(View(), worklist) == Turn(p, c, o, l);
      }
      pruneCount := pruned;
    }
  }

  lemma ChosenStep<A>(f: seq<bool>, succs: seq<State<A>>, i: nat, pre: seq<State<A>>, which: bool)
    requires |f| == |succs| && i < |succs|
    ensures pre + Chosen(f[i..], succs[i..], which)
         == pre + (if f[i] == which then [succs[i]] else []) + Chosen(f[i + 1..], succs[i + 1..], which)
  {
    assert f[i..][1..] == f[i + 1..] && succs[i..][1..] == succs[i + 1..];
    var x, y := if f[i] == which then [succs[i]] else [], Chosen(f[i + 1..], succs[i + 1..], which);
    assert pre + (x + y) == pre + x + y;
  }

  lemma ChosenNone<A>()
    ensures Chosen<A>([], [], true) == [] && Chosen<A>([], [], false) == []
  {
  }

  lemma ReversedStep<T>(s: seq<T>, i: nat)
    requires i < |s|
    ensures Reversed(s[i..]) == Reversed(s[i + 1..]) + [s[i]]
  {
    assert s[i..][0] == s[i] && s[i..][1..] == s[i + 1..];
  }
}
