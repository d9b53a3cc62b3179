/**
 The loop entered without the checks that come before it. A fetch past the end of the program ends a
 path silently; one instruction that falls through to nowhere shows both consequences: acceptance
 although the run faults, and branch counters that are no longer exact. No admitted program gets
 there, and this one is refused.
 */
module PastTheEnd {
  import opened Words
  import opened Lowering
  import FlowCheck
  import opened Admission
  import opened Worklist
  import opened WorklistSoundness
  import opened BranchCounters

  const ONE := Program(1, {}, {}, {}, {}, {})

  /** As a program of the driver it never reaches the loop. */
  lemma OneIsNotAdmitted(sites: FlowCheck.Sites, roots: seq<nat>)
    ensures !Admitted([RawPlain], sites, roots)
  {
    hide Admitted;
    if Admitted([RawPlain], sites, roots) {
      AdmittedEnds([RawPlain], sites, roots);
      assert false;
    }
  }

  const ENTRY: State<()> := State(0, None, 0, ())

  /** Every instruction falls through to the next pc; nothing is pruned. */
  const FALLS: Oracle<(), ()> := Oracle(
    (s: State<()>) => false,
    (e: (), ck: seq<Checkpoint<()>>, s: State<()>) => (),
    (e: (), ck: seq<Checkpoint<()>>, s: State<()>) => Pruning(false, false, false, (), ()),
    (e: (), ck: seq<Checkpoint<()>>, s: State<()>) => Transfer([Succ(s.pc + 1, s.history, ())], false, false, ()),
    (e: (), s: State<()>, t: Succ<()>) => false)

  /** Configurations are pcs, every step is to the next pc if `moves`, and only pc 1 is a fault. */
  function Counting(moves: bool): Meaning<(), nat> {
    Meaning(((a: (), c: nat) => true), ((c: nat) => c), ((c: nat, c': nat) => moves && c' == c + 1), ((c: nat) => c == 1))
  }

  lemma FallsIsSound(moves: bool)
    ensures Sound(ONE, FALLS, Counting(moves))
  {
    forall e: (), ck: seq<Checkpoint<()>>, s: State<()> | s.pc < ONE.len && !FALLS.transfer(e, ck, s).fail
      ensures Simulates(Counting(moves), s, FALLS.transfer(e, ck, s).succs)
    {
      var succs := FALLS.transfer(e, ck, s).succs;
      forall c, c' | Covers(Counting(moves), s, c) && Counting(moves).next(c, c')
        ensures Covered(Counting(moves), Children(succs, None), c')
      {
        assert Covers(Counting(moves), Children(succs, None)[0], c');
      }
    }
  }

  const HEAD1: Loop<(), ()> := Loop(
    Env([Checkpoint(0, None, 1, ())], 1, 0, 1, 0, false, false, 0, (), [ENTRY], [State(0, Some(0), 0, ())], 1, multiset{}, [Stamp(1, false)]),
    [State(1, Some(0), 0, ())])

  const HEAD2: Loop<(), ()> := Loop(
    Env([Checkpoint(0, None, 1, ()), Checkpoint(1, Some(0), 1, ())], 2, 0, 2, 0, false, false, 0, (),
        [ENTRY, State(1, Some(0), 0, ())], [State(0, Some(0), 0, ()), State(1, Some(1), 0, ())], 2, multiset{1},
        [Stamp(1, false), Stamp(2, false)]),
    [])

  lemma FirstTurn()
    ensures Turn(ONE, DENSE, FALLS, Start((), ENTRY)) == HEAD1
  {
    hide Pushed;
    var l := Start<(), ()>((), ENTRY);
    var r := Process(ONE, DENSE, FALLS, l.env, ENTRY);
    assert r.env == HEAD1.env && r.succs == HEAD1.pending;
    PushedOne(ONE, DENSE, FALLS, r.env.aux, ENTRY, r.succs[0]);
    assert l.pending[..0] == [];
  }

  lemma SecondTurn()
    ensures Turn(ONE, DENSE, FALLS, HEAD1) == HEAD2
  {
    hide Pushed;
    var s := HEAD1.pending[0];
    var r := Process(ONE, DENSE, FALLS, HEAD1.env, s);
    assert r.env == HEAD2.env && r.succs == [];
    PushedNone(DENSE, FALLS, r.env.aux, s);
    assert HEAD1.pending[..0] == [];
  }

  lemma EndsAtHead2()
    ensures Run(ONE, DENSE, FALLS, Start((), ENTRY)) == HEAD2
    ensures Turns(ONE, DENSE, FALLS, Start((), ENTRY), 2) == HEAD2
  {
    hide Turn;
    FirstTurn();
    SecondTurn();
    assert !Live(HEAD2);
  }

  lemma AcceptedOutOfRange()
    ensures var e := Run(ONE, DENSE, FALLS, Start((), ENTRY)).env; !e.failed && !e.stop && !InRange(ONE, e.visits)
  {
    hide Run, Turns;
    EndsAtHead2();
    assert HEAD2.env.visits[1].pc == 1;
  }

  lemma RunFaults()
    ensures var m := Counting(true);
            ConcreteRun(ONE, m, [0, 1]) && Steps(m, [0, 1]) && Covers(m, ENTRY, 0) && m.bad(1) && !Safe(ONE, m, [0, 1])
  {
    var run := [0, 1];
    assert run[1] == 1 && Counting(true).bad(run[1]);
  }

  /** The loop accepts it, its domain is sound, and its run leaves the program and faults. */
  lemma FallingOffIsAccepted()
    ensures Sound(ONE, FALLS, Counting(true))
    ensures var e := Run(ONE, DENSE, FALLS, Start((), ENTRY)).env; !e.failed && !e.stop && !InRange(ONE, e.visits)
    ensures var m := Counting(true);
            ConcreteRun(ONE, m, [0, 1]) && Steps(m, [0, 1]) && Covers(m, ENTRY, 0) && m.bad(1) && !Safe(ONE, m, [0, 1])
  {
    hide *;
    FallsIsSound(true);
    AcceptedOutOfRange();
    RunFaults();
  }

  lemma StepAt(m: Meaning<(), nat>, run: seq<nat>, i: nat)
    requires Steps(m, run) && i + 1 < |run|
    ensures m.next(run[i], run[i + 1])
  {
  }

  lemma StandingStill(run: seq<nat>)
    requires Steps(Counting(false), run) && (run != [] ==> Covers(Counting(false), ENTRY, run[0]))
    ensures Safe(ONE, Counting(false), run)
  {
    if |run| > 1 {
      StepAt(Counting(false), run, 0);
      assert false;
    }
  }

  /** The guard is not necessary: the same exploration, for a machine that stops at once, is safe. */
  lemma LeavingTheProgramMayBeSafe(run: seq<nat>)
    requires Steps(Counting(false), run) && (run != [] ==> Covers(Counting(false), ENTRY, run[0]))
    ensures Sound(ONE, FALLS, Counting(false)) && Safe(ONE, Counting(false), run)
    ensures !InRange(ONE, Run(ONE, DENSE, FALLS, Start((), ENTRY)).env.visits)
  {
    hide *;
    FallsIsSound(false);
    AcceptedOutOfRange();
    StandingStill(run);
  }

  lemma LeakedIsInexact<A, E>(l: Loop<A, E>)
    requires Accounted(l) && l.env.leaked != multiset{}
    ensures !Exact(l.env.ckpts, Parents(l.pending))
  {
    hide Exact, Parents, Balanced;
    ExactIffNoLeak(l.env.ckpts, Parents(l.pending), l.env.leaked);
  }

  lemma Head2()
    ensures HEAD2.pending == [] && !HEAD2.env.failed && |HEAD2.env.ckpts| == 2 && HEAD2.env.ckpts[1].branches == 1
    ensures HEAD2.env.leaked != multiset{} && ENTRY.parent == None
  {
    assert 1 in HEAD2.env.leaked;
  }

  /** The dropped path keeps its count: nothing is pending, and a checkpoint is still open. */
  lemma FallingOffLeaks()
    ensures var l := Turns(ONE, DENSE, FALLS, Start((), ENTRY), 2);
            && l.pending == [] && !l.env.failed && |l.env.ckpts| == 2 && l.env.ckpts[1].branches == 1
            && !Exact(l.env.ckpts, Parents(l.pending)) && !LeakFree(ONE, DENSE, FALLS, Start((), ENTRY), 2)
  {
    hide *;
    EndsAtHead2();
    Head2();
    CountersAtEveryHead(ONE, DENSE, FALLS, (), ENTRY, 2);
    LeakedIsInexact(HEAD2);
    ExactIffNoTurnLeaks(ONE, DENSE, FALLS, (), ENTRY, 2);
  }
}
