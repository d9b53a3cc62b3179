/**
 If the loop empties its list without failing or being stopped, the states it expanded cover
 every concrete run, although pruning also compares against checkpoints whose own exploration
 is not finished. The domain enters only through what its operations promise (`Sound`).
 */
module WorklistSoundness {
  import opened Words
  import opened Worklist

  /** Concrete configurations: membership in abstract values, program counter, steps, and faults. */
  datatype Meaning<!A, !C> = Meaning(
    gamma: (A, C) -> bool, pc: C -> nat, next: (C, C) -> bool, bad: C -> bool)

  predicate Covers<A, C>(m: Meaning<A, C>, s: State<A>, c: C) {
    m.pc(c) == s.pc && m.gamma(s.abs, c)
  }

  predicate Covered<A, C>(m: Meaning<A, C>, ss: seq<State<A>>, c: C) {
    exists k :: 0 <= k < |ss| && Covers(m, ss[k], c)
  }

  ghost predicate Enlarges<A, C(!new)>(m: Meaning<A, C>, a: A, b: A) {
    forall c :: m.gamma(a, c) ==> m.gamma(b, c)
  }

  ghost predicate Subsumed<A, C(!new)>(m: Meaning<A, C>, ckpts: seq<Checkpoint<A>>, s: State<A>) {
    exists k :: 0 <= k < |ckpts| && ckpts[k].pc == s.pc && Enlarges(m, s.abs, ckpts[k].abs)
  }

  /** No fault at the configurations of `s`, and each of their steps lands in some successor. */
  ghost predicate Simulates<A, C(!new)>(m: Meaning<A, C>, s: State<A>, succs: seq<Succ<A>>) {
    forall c :: Covers(m, s, c) ==>
      !m.bad(c) && forall c' :: m.next(c, c') ==> Covered(m, Children(succs, None), c')
  }

  /** Demotion and widening only enlarge, pruning is subsumption at the same pc, transfer simulates. */
  ghost predicate Sound<A(!new), E(!new), C(!new)>(p: Program, o: Oracle<A, E>, m: Meaning<A, C>) {
    && (forall e: E, ck: seq<Checkpoint<A>>, s: State<A> :: Enlarges(m, s.abs, o.demote(e, ck, s)))
    && (forall e: E, ck: seq<Checkpoint<A>>, s: State<A> :: !o.prune(e, ck, s).fail ==>
          && Enlarges(m, s.abs, o.prune(e, ck, s).abs)
          && (o.prune(e, ck, s).prune ==> Subsumed(m, ck, s)))
    && (forall e: E, ck: seq<Checkpoint<A>>, s: State<A> :: s.pc < p.len && !o.transfer(e, ck, s).fail ==>
          Simulates(m, s, o.transfer(e, ck, s).succs))
  }

  // ---------------------------------------------------------------- invariant

  ghost predicate Snapshot<A>(v: State<A>, c: Checkpoint<A>) {
    v.pc == c.pc && v.abs == c.abs
  }

  ghost predicate Seen<A>(e: seq<State<A>>, c: Checkpoint<A>) {
    exists i :: 0 <= i < |e| && Snapshot(e[i], c)
  }

  /** Every checkpoint is a state that was visited as it was recorded. */
  ghost predicate Snapshots<A>(e: seq<State<A>>, ckpts: seq<Checkpoint<A>>) {
    forall k :: 0 <= k < |ckpts| ==> Seen(e, ckpts[k])
  }

  predicate Somewhere<A, C>(m: Meaning<A, C>, visits: seq<State<A>>, pending: seq<State<A>>, c: C) {
    Covered(m, visits, c) || Covered(m, pending, c)
  }

  /** A visited state inside the program is fault free and its successors are visited, pending or subsumed. */
  ghost predicate Settled<A, C(!new)>(
      p: Program, m: Meaning<A, C>, v: State<A>, visits: seq<State<A>>, pending: seq<State<A>>)
  {
    v.pc < p.len ==>
      forall c :: Covers(m, v, c) ==> !m.bad(c) && forall c' :: m.next(c, c') ==> Somewhere(m, visits, pending, c')
  }

  ghost predicate Closed<A, E, C(!new)>(p: Program, m: Meaning<A, C>, entry: State<A>, l: Loop<A, E>) {
    && Snapshots(l.env.visits, l.env.ckpts)
    && (forall i :: 0 <= i < |l.env.visits| ==> Settled(p, m, l.env.visits[i], l.env.visits, l.pending))
    && (forall c :: Covers(m, entry, c) ==> Somewhere(m, l.env.visits, l.pending, c))
  }

  // ---------------------------------------------------------------- counters do not touch snapshots

  ghost predicate SameSnapshots<A>(a: seq<Checkpoint<A>>, b: seq<Checkpoint<A>>) {
    |a| == |b| && forall k :: 0 <= k < |a| ==> a[k].pc == b[k].pc && a[k].abs == b[k].abs
  }

  lemma {:induction false} CompleteKeepsSnapshots<A>(ckpts: seq<Checkpoint<A>>, at: Option<nat>, budget: nat)
    ensures SameSnapshots(ckpts, Complete(ckpts, at, budget).ckpts)
    decreases budget
  {
    if at.Some? && budget > 0 && at.value < |ckpts| {
      var c := Release(ckpts[at.value]);
      if c.branches == 0 { CompleteKeepsSnapshots(ckpts[at.value := c], c.parent, budget - 1); }
    }
  }

  lemma SnapshotsMove<A>(e: seq<State<A>>, e': seq<State<A>>, a: seq<Checkpoint<A>>, b: seq<Checkpoint<A>>)
    requires Snapshots(e, a) && e <= e' && SameSnapshots(a, b)
    ensures Snapshots(e', b)
  {
    forall k | 0 <= k < |b| ensures Seen(e', b[k]) {
      assert Seen(e, a[k]);
      var i :| 0 <= i < |e| && Snapshot(e[i], a[k]);
      assert Snapshot(e'[i], b[k]);
    }
  }

  // ---------------------------------------------------------------- pushing keeps every successor

  lemma {:induction false} ChosenKeeps<A>(flags: seq<bool>, succs: seq<State<A>>, i: nat)
    requires |flags| == |succs| && i < |succs|
    ensures succs[i] in Chosen(flags, succs, flags[i])
  {
    if i > 0 { ChosenKeeps(flags[1..], succs[1..], i - 1); }
  }

  lemma PushedKeeps<A, E>(c: Config, o: Oracle<A, E>, aux: E, s: State<A>, succs: seq<State<A>>, i: nat)
    requires i < |succs|
    ensures succs[i] in Pushed(c, o, aux, s, succs)
  {
    var f := BackFlags(c, o, aux, s, succs);
    ChosenKeeps(f, succs, i);
    hide Chosen, BackFlags;
    var others := Chosen(f, succs, false);
    if !f[i] { assert succs[i] in multiset(others); assert succs[i] in multiset(Reversed(others)); }
  }

  // ---------------------------------------------------------------- one turn

  lemma ExpandedCovers<A(!new), E(!new), C(!new)>(
      p: Program, c: Config, o: Oracle<A, E>, m: Meaning<A, C>, e: Env<A, E>, s: State<A>)
    requires Sound(p, o, m) && Snapshots(e.visits + [s], e.ckpts) && !Expanded(p, c, o, e, s).env.failed
    ensures var r := Expanded(p, c, o, e, s);
            && r.env.visits == e.visits + [s] && Snapshots(r.env.visits, r.env.ckpts)
            && Settled(p, m, s, r.env.visits, r.succs)
  {
    hide Complete, Snapshots, Children, Covered;
    var r := Expanded(p, c, o, e, s);
    var visits := e.visits + [s];
    if s.pc < p.len {
      var jmps := e.jmps + if s.pc in p.jmpClass then 1 else 0;
      var t := o.transfer(e.aux, e.ckpts, s);
      assert !t.fail && r.succs == Children(t.succs, s.parent);
      TransferSettles(p, m, s, visits, t.succs);
      var forked := Forked(e.ckpts, s.parent, |t.succs|);
      SnapshotsMove(visits, visits, e.ckpts, forked);
      if t.succs == [] {
        CompleteKeepsSnapshots(forked, s.parent, WALK_BUDGET);
        SnapshotsMove(visits, visits, forked, r.env.ckpts);
      }
    }
  }

  lemma TransferSettles<A, C(!new)>(
      p: Program, m: Meaning<A, C>, s: State<A>, visits: seq<State<A>>, succs: seq<Succ<A>>)
    requires Simulates(m, s, succs)
    ensures Settled(p, m, s, visits, Children(succs, s.parent))
  {
    var kids, plain := Children(succs, s.parent), Children(succs, None);
    forall c, c' | Covers(m, s, c) && m.next(c, c') ensures Somewhere(m, visits, kids, c') {
      var k :| 0 <= k < |plain| && Covers(m, plain[k], c');
      assert Covers(m, kids[k], c');
    }
  }

  lemma RecordedSnapshots<A, E>(p: Program, e: Env<A, E>, s: State<A>)
    requires Snapshots(e.visits, e.ckpts)
    ensures Snapshots(e.visits + [s], e.ckpts)
    ensures Snapshots(e.visits + [Recorded(p, e, s).succs[0]], Recorded(p, e, s).env.ckpts)
  {
    var s', ckpts := Recorded(p, e, s).succs[0], Recorded(p, e, s).env.ckpts;
    SnapshotsMove(e.visits, e.visits + [s], e.ckpts, e.ckpts);
    SnapshotsMove(e.visits, e.visits + [s'], e.ckpts, e.ckpts);
    var visits := e.visits + [s'];
    forall k | 0 <= k < |ckpts| ensures Seen(visits, ckpts[k]) {
      if k == |e.ckpts| {
        assert Snapshot(visits[|e.visits|], ckpts[k]);
      } else {
        assert ckpts[k] == e.ckpts[k] && Seen(visits, e.ckpts[k]);
      }
    }
  }

  /** What one turn contributes: everything the popped state stood for, and a settled visit. */
  lemma ProcessCovers<A(!new), E(!new), C(!new)>(
      p: Program, c: Config, o: Oracle<A, E>, m: Meaning<A, C>, e: Env<A, E>, s: State<A>)
    requires Sound(p, o, m) && Snapshots(e.visits, e.ckpts) && !Process(p, c, o, e, s).env.failed
    ensures var r := Process(p, c, o, e, s);
            && Snapshots(r.env.visits, r.env.ckpts)
            && (forall x :: Covers(m, s, x) ==> Covered(m, r.env.visits, x))
            && (r.env.visits == e.visits
                || exists v :: r.env.visits == e.visits + [v] && Settled(p, m, v, r.env.visits, r.succs))
  {
    hide Expanded, Records, Complete, Snapshots, Settled, Covered, Subsumed;
    var s1 := Arrived(p, o, s);
    var e1 := e.(arrivals := e.arrivals + [s1]);
    var s2 := Demoted(p, c, o, e1, s1);
    var k := Looked(p, c, o, e1, s1);
    assert s2.pc == s.pc && Enlarges(m, s.abs, s2.abs);
    if k.prune {
      assert !o.prune(e1.aux, e1.ckpts, s2).fail;
      DiedSnapshots(k.env.(pruned := k.env.pruned + 1), k.state.parent);
      PrunedCovered(m, e.visits, e.ckpts, s2);
    } else {
      RecordedSnapshots(p, k.env, k.state);
      var r := Checkpointed(p, c, k.env, k.state, k.active);
      ExpandedFails(p, c, o, r.env, r.succs[0]);
      assert Enlarges(m, s.abs, r.succs[0].abs) && r.succs[0].pc == s.pc;
      ExpandedCovers(p, c, o, m, r.env, r.succs[0]);
      LastCovers(m, e.visits, r.succs[0], s);
    }
  }

  lemma ExpandedFails<A, E>(p: Program, c: Config, o: Oracle<A, E>, e: Env<A, E>, s: State<A>)
    ensures e.failed ==> Expanded(p, c, o, e, s).env.failed
  {
    hide Complete;
  }

  lemma LastCovers<A, C(!new)>(m: Meaning<A, C>, visits: seq<State<A>>, s': State<A>, s: State<A>)
    requires s'.pc == s.pc && Enlarges(m, s.abs, s'.abs)
    ensures forall x :: Covers(m, s, x) ==> Covered(m, visits + [s'], x)
  {
    forall x | Covers(m, s, x) ensures Covered(m, visits + [s'], x) {
      assert Covers(m, (visits + [s'])[|visits|], x);
    }
  }

  lemma DiedSnapshots<A, E>(e: Env<A, E>, parent: Option<nat>)
    requires Snapshots(e.visits, e.ckpts)
    ensures Snapshots(Died(e, parent).visits, Died(e, parent).ckpts)
  {
    hide Complete, Snapshots;
    CompleteKeepsSnapshots(e.ckpts, parent, WALK_BUDGET);
    SnapshotsMove(e.visits, e.visits, e.ckpts, Died(e, parent).ckpts);
  }

  lemma PrunedCovered<A, C(!new)>(m: Meaning<A, C>, visits: seq<State<A>>, ckpts: seq<Checkpoint<A>>, s: State<A>)
    requires Snapshots(visits, ckpts) && Subsumed(m, ckpts, s)
    ensures forall x :: Covers(m, s, x) ==> Covered(m, visits, x)
  {
    var k :| 0 <= k < |ckpts| && ckpts[k].pc == s.pc && Enlarges(m, s.abs, ckpts[k].abs);
    assert Seen(visits, ckpts[k]);
    var i :| 0 <= i < |visits| && Snapshot(visits[i], ckpts[k]);
    forall x | Covers(m, s, x) ensures Covered(m, visits, x) { assert Covers(m, visits[i], x); }
  }

  /** Nothing that was visited or pending gets lost in a turn. */
  lemma StillSomewhere<A, C(!new)>(
      m: Meaning<A, C>, visits: seq<State<A>>, visits': seq<State<A>>,
      rest: seq<State<A>>, pushed: seq<State<A>>, s: State<A>, c: C)
    requires visits <= visits' && (Covers(m, s, c) ==> Covered(m, visits', c))
    requires Somewhere(m, visits, rest + [s], c)
    ensures Somewhere(m, visits', rest + pushed, c)
  {
    if Covered(m, visits, c) {
      var k :| 0 <= k < |visits| && Covers(m, visits[k], c);
      assert Covers(m, visits'[k], c);
    } else {
      var k :| 0 <= k < |rest + [s]| && Covers(m, (rest + [s])[k], c);
      if k < |rest| { assert Covers(m, (rest + pushed)[k], c); }
    }
  }

  lemma PushedCovers<A, E, C>(
      m: Meaning<A, C>, c: Config, o: Oracle<A, E>, aux: E, s: State<A>, rest: seq<State<A>>, succs: seq<State<A>>, x: C)
    requires Covered(m, succs, x)
    ensures Covered(m, rest + Pushed(c, o, aux, s, succs), x)
  {
    var k :| 0 <= k < |succs| && Covers(m, succs[k], x);
    PushedKeeps(c, o, aux, s, succs, k);
    var pushed := Pushed(c, o, aux, s, succs);
    var j :| 0 <= j < |pushed| && pushed[j] == succs[k];
    assert Covers(m, (rest + pushed)[|rest| + j], x);
  }

  lemma TurnKeepsClosed<A(!new), E(!new), C(!new)>(
      p: Program, c: Config, o: Oracle<A, E>, m: Meaning<A, C>, entry: State<A>, l: Loop<A, E>)
    requires Sound(p, o, m) && Live(l) && Closed(p, m, entry, l) && !Turn(p, c, o, l).env.failed
    ensures Closed(p, m, entry, Turn(p, c, o, l))
  {
    hide Sound, Process, Pushed, Covered, Snapshots;
    var s, rest := l.pending[|l.pending| - 1], l.pending[..|l.pending| - 1];
    assert l.pending == rest + [s];
    var r := Process(p, c, o, l.env, s);
    ProcessCovers(p, c, o, m, l.env, s);
    var pushed := Pushed(c, o, r.env.aux, s, r.succs);
    var visits, visits' := l.env.visits, r.env.visits;
    forall x | Somewhere(m, visits, rest + [s], x) ensures Somewhere(m, visits', rest + pushed, x) {
      StillSomewhere(m, visits, visits', rest, pushed, s, x);
    }
    forall x | Covered(m, r.succs, x) ensures Somewhere(m, visits', rest + pushed, x) {
      PushedCovers(m, c, o, r.env.aux, s, rest, r.succs, x);
    }
    forall i | 0 <= i < |visits'| ensures Settled(p, m, visits'[i], visits', rest + pushed) {
      if i < |visits| { assert visits'[i] == visits[i] && Settled(p, m, visits[i], visits, rest + [s]); }
      else { assert Settled(p, m, visits'[i], visits', r.succs); }
    }
  }

  lemma {:induction false} TurnsKeepClosed<A(!new), E(!new), C(!new)>(
      p: Program, c: Config, o: Oracle<A, E>, m: Meaning<A, C>, entry: State<A>, l: Loop<A, E>, n: nat)
    requires Sound(p, o, m) && Closed(p, m, entry, l)
    ensures !Turns(p, c, o, l, n).env.failed ==> Closed(p, m, entry, Turns(p, c, o, l, n))
    decreases n
  {
    hide Sound, Closed, Turn;
    if n > 0 && Live(l) {
      var l' := Turn(p, c, o, l);
      if l'.env.failed {
        assert Turns(p, c, o, l', n - 1) == l';
      } else {
        TurnKeepsClosed(p, c, o, m, entry, l);
        TurnsKeepClosed(p, c, o, m, entry, l', n - 1);
      }
    }
  }

  /** At every loop head, each successor of a visited state is visited, pending, or inside a visited one. */
  lemma ClosedAtEveryHead<A(!new), E(!new), C(!new)>(
      p: Program, c: Config, o: Oracle<A, E>, m: Meaning<A, C>, aux: E, entry: State<A>, n: nat)
    requires Sound(p, o, m)
    ensures var l := Turns(p, c, o, Start(aux, entry), n); !l.env.failed ==> Closed(p, m, entry, l)
  {
    var l := Start<A, E>(aux, entry);
    forall x | Covers(m, entry, x) ensures Somewhere(m, l.env.visits, l.pending, x) {
      assert Covers(m, l.pending[0], x);
    }
    TurnsKeepClosed(p, c, o, m, entry, l, n);
  }

  // ---------------------------------------------------------------- every concrete run

  /** Consecutive steps, each taken from a pc inside the program. */
  ghost predicate ConcreteRun<A, C>(p: Program, m: Meaning<A, C>, run: seq<C>) {
    forall i :: 0 <= i < |run| - 1 ==> m.pc(run[i]) < p.len && m.next(run[i], run[i + 1])
  }

  lemma {:induction false} RunStaysCovered<A(!new), E(!new), C(!new)>(
      p: Program, m: Meaning<A, C>, entry: State<A>, l: Loop<A, E>, run: seq<C>, i: nat)
    requires Closed(p, m, entry, l) && l.pending == []
    requires ConcreteRun(p, m, run) && i < |run| && Covers(m, entry, run[0])
    ensures Covered(m, l.env.visits, run[i]) && (m.pc(run[i]) < p.len ==> !m.bad(run[i]))
  {
    if i > 0 {
      RunStaysCovered(p, m, entry, l, run, i - 1);
      var k :| 0 <= k < |l.env.visits| && Covers(m, l.env.visits[k], run[i - 1]);
      assert Settled(p, m, l.env.visits[k], l.env.visits, l.pending);
      assert m.next(run[i - 1], run[i - 1 + 1]);
      assert Somewhere(m, l.env.visits, l.pending, run[i]);
    } else {
      assert Somewhere(m, l.env.visits, l.pending, run[0]);
    }
    var k :| 0 <= k < |l.env.visits| && Covers(m, l.env.visits[k], run[i]);
    assert Settled(p, m, l.env.visits[k], l.env.visits, l.pending);
  }

  /**
   Safety: if the loop ends without failing or being stopped, every concrete run from the entry
   stays inside the visited states and meets no fault at any instruction of the program.
   */
  lemma AcceptedProgramsAreSafe<A(!new), E(!new), C(!new)>(
      p: Program, c: Config, o: Oracle<A, E>, m: Meaning<A, C>, aux: E, entry: State<A>, run: seq<C>)
    requires Sound(p, o, m)
    requires var e := Run(p, c, o, Start(aux, entry)).env; !e.failed && !e.stop
    requires ConcreteRun(p, m, run) && (run != [] ==> Covers(m, entry, run[0]))
    ensures forall i :: 0 <= i < |run| ==>
              && Covered(m, Run(p, c, o, Start(aux, entry)).env.visits, run[i])
              && (m.pc(run[i]) < p.len ==> !m.bad(run[i]))
  {
    hide Sound, Turns, Closed, Run, Covered, ConcreteRun, Covers;
    var n := RunEnds(p, c, o, Start(aux, entry));
    ClosedAtEveryHead(p, c, o, m, aux, entry, n);
    var l := Run(p, c, o, Start(aux, entry));
    forall i | 0 <= i < |run| ensures Covered(m, l.env.visits, run[i]) && (m.pc(run[i]) < p.len ==> !m.bad(run[i])) {
      RunStaysCovered(p, m, entry, l, run, i);
    }
  }

  // ---------------------------------------------------------------- runs that may leave the program

  /** Consecutive steps, wherever they lead. */
  ghost predicate Steps<A, C>(m: Meaning<A, C>, run: seq<C>) {
    forall i :: 0 <= i < |run| - 1 ==> m.next(run[i], run[i + 1])
  }

  /** Inside the program and no fault, all along. */
  ghost predicate Safe<A, C>(p: Program, m: Meaning<A, C>, run: seq<C>) {
    forall i :: 0 <= i < |run| ==> m.pc(run[i]) < p.len && !m.bad(run[i])
  }

  lemma {:induction false} StepsStayInside<A(!new), E(!new), C(!new)>(
      p: Program, m: Meaning<A, C>, entry: State<A>, l: Loop<A, E>, run: seq<C>, i: nat)
    requires Closed(p, m, entry, l) && l.pending == [] && InRange(p, l.env.visits)
    requires Steps(m, run) && i <= |run| && (run != [] ==> Covers(m, entry, run[0]))
    ensures forall j :: 0 <= j < i ==> m.pc(run[j]) < p.len
  {
    if i > 0 {
      StepsStayInside(p, m, entry, l, run, i - 1);
      var pre := run[..i];
      assert ConcreteRun(p, m, pre);
      RunStaysCovered(p, m, entry, l, pre, i - 1);
      var k :| 0 <= k < |l.env.visits| && Covers(m, l.env.visits[k], run[i - 1]);
    }
  }

  /**
   If moreover every expanded state lies inside the program, every run from the entry does too, and
   meets no fault anywhere. The guard is not necessary: an expanded state may stand for no run.
   */
  lemma AcceptedInRangeIsSafe<A(!new), E(!new), C(!new)>(
      p: Program, c: Config, o: Oracle<A, E>, m: Meaning<A, C>, aux: E, entry: State<A>, run: seq<C>)
    requires Sound(p, o, m) && Steps(m, run) && (run != [] ==> Covers(m, entry, run[0]))
    requires var e := Run(p, c, o, Start(aux, entry)).env; !e.failed && !e.stop && InRange(p, e.visits)
    ensures Safe(p, m, run)
  {
    hide Sound, Turns, Closed, Run, Covers, Covered, InRange;
    var n := RunEnds(p, c, o, Start(aux, entry));
    ClosedAtEveryHead(p, c, o, m, aux, entry, n);
    StepsStayInside(p, m, entry, Run(p, c, o, Start(aux, entry)), run, |run|);
    AcceptedProgramsAreSafe(p, c, o, m, aux, entry, run);
  }

  /** Each of the states has its pc and its abstract value in `inside`. */
  predicate Throughout<A>(inside: (nat, A) -> bool, states: seq<State<A>>) {
    forall i :: 0 <= i < |states| ==> inside(states[i].pc, states[i].abs)
  }

  /** `inside` keeps to the program, and no operation of the domain leads out of it. */
  ghost predicate Confined<A(!new), E(!new)>(p: Program, o: Oracle<A, E>, inside: (nat, A) -> bool) {
    forall e: E, ck: seq<Checkpoint<A>>, s: State<A> :: inside(s.pc, s.abs) ==> ConfinedAt(p, o, inside, e, ck, s)
  }

  predicate ConfinedAt<A, E>(
      p: Program, o: Oracle<A, E>, inside: (nat, A) -> bool, e: E, ck: seq<Checkpoint<A>>, s: State<A>)
  {
    && s.pc < p.len
    && inside(s.pc, o.demote(e, ck, s)) && inside(s.pc, o.prune(e, ck, s).abs)
    && (!o.transfer(e, ck, s).fail ==> Throughout(inside, Children(o.transfer(e, ck, s).succs, None)))
  }

  lemma {:induction false} ChosenFrom<A>(flags: seq<bool>, succs: seq<State<A>>, which: bool, s: State<A>)
    requires |flags| == |succs| && s in Chosen(flags, succs, which)
    ensures s in succs
  {
    if s != succs[0] { ChosenFrom(flags[1..], succs[1..], which, s); }
  }

  lemma PushedFrom<A, E>(c: Config, o: Oracle<A, E>, aux: E, s: State<A>, succs: seq<State<A>>, x: State<A>)
    requires x in Pushed(c, o, aux, s, succs)
    ensures x in succs
  {
    var f := BackFlags(c, o, aux, s, succs);
    hide Chosen, BackFlags;
    var back, others := Chosen(f, succs, true), Chosen(f, succs, false);
    if x in back {
      ChosenFrom(f, succs, true, x);
    } else {
      assert x in multiset(Reversed(others));
      assert x in multiset(others);
      ChosenFrom(f, succs, false, x);
    }
  }

  lemma ExpandedInside<A(!new), E(!new)>(
      p: Program, c: Config, o: Oracle<A, E>, inside: (nat, A) -> bool, e: Env<A, E>, s: State<A>)
    requires Confined(p, o, inside) && inside(s.pc, s.abs)
    ensures var r := Expanded(p, c, o, e, s); r.env.visits == e.visits + [s] && Throughout(inside, r.succs)
  {
    hide Complete;
    assert ConfinedAt(p, o, inside, e.aux, e.ckpts, s);
    var t := o.transfer(e.aux, e.ckpts, s);
    var cs, ds := Children(t.succs, None), Children(t.succs, s.parent);
    if !t.fail {
      forall i | 0 <= i < |ds| ensures inside(ds[i].pc, ds[i].abs) { assert inside(cs[i].pc, cs[i].abs); }
    }
  }

  lemma LookedInside<A(!new), E(!new)>(
      p: Program, c: Config, o: Oracle<A, E>, inside: (nat, A) -> bool, e: Env<A, E>, s: State<A>)
    requires Confined(p, o, inside) && inside(s.pc, s.abs)
    ensures var k := Looked(p, c, o, e, s); inside(k.state.pc, k.state.abs) && k.env.visits == e.visits
  {
    var s' := Demoted(p, c, o, e, s);
    assert ConfinedAt(p, o, inside, e.aux, e.ckpts, s);
    assert ConfinedAt(p, o, inside, e.aux, e.ckpts, s');
  }

  lemma ProcessInside<A(!new), E(!new)>(
      p: Program, c: Config, o: Oracle<A, E>, inside: (nat, A) -> bool, e: Env<A, E>, s: State<A>)
    requires Confined(p, o, inside) && inside(s.pc, s.abs) && Throughout(inside, e.visits)
    ensures var r := Process(p, c, o, e, s); Throughout(inside, r.env.visits) && Throughout(inside, r.succs)
  {
    hide Confined, Complete, Expanded, Records, Looked;
    var s1 := Arrived(p, o, s);
    var e1 := e.(arrivals := e.arrivals + [s1]);
    LookedInside(p, c, o, inside, e1, s1);
    var k := Looked(p, c, o, e1, s1);
    var r := Checkpointed(p, c, k.env, k.state, k.active);
    ExpandedInside(p, c, o, inside, r.env, r.succs[0]);
  }

  lemma {:induction false} TurnsInside<A(!new), E(!new)>(
      p: Program, c: Config, o: Oracle<A, E>, inside: (nat, A) -> bool, l: Loop<A, E>, n: nat)
    requires Confined(p, o, inside) && Throughout(inside, l.env.visits) && Throughout(inside, l.pending)
    ensures var l' := Turns(p, c, o, l, n); Throughout(inside, l'.env.visits) && Throughout(inside, l'.pending)
    decreases n
  {
    hide Confined, Process, Pushed;
    if n > 0 && Live(l) {
      var s, rest := l.pending[|l.pending| - 1], l.pending[..|l.pending| - 1];
      ProcessInside(p, c, o, inside, l.env, s);
      var r := Process(p, c, o, l.env, s);
      var pushed := Pushed(c, o, r.env.aux, s, r.succs);
      forall i | 0 <= i < |pushed| ensures inside(pushed[i].pc, pushed[i].abs) {
        PushedFrom(c, o, r.env.aux, s, r.succs, pushed[i]);
      }
      TurnsInside(p, c, o, inside, Turn(p, c, o, l), n - 1);
    }
  }

  lemma ThroughoutInRange<A(!new), E(!new)>(p: Program, o: Oracle<A, E>, inside: (nat, A) -> bool, aux: E, states: seq<State<A>>)
    requires Confined(p, o, inside) && Throughout(inside, states)
    ensures InRange(p, states)
  {
    forall i | 0 <= i < |states| ensures states[i].pc < p.len {
      assert ConfinedAt(p, o, inside, aux, [], states[i]);
    }
  }

  /** No head of the loop has ever looked outside the program. */
  lemma ConfinedStaysInRange<A(!new), E(!new)>(
      p: Program, c: Config, o: Oracle<A, E>, inside: (nat, A) -> bool, aux: E, entry: State<A>, n: nat)
    requires Confined(p, o, inside) && inside(entry.pc, entry.abs)
    ensures var l := Turns(p, c, o, Start(aux, entry), n); InRange(p, l.env.visits) && InRange(p, l.pending)
  {
    hide Confined, Turns, InRange;
    TurnsInside(p, c, o, inside, Start(aux, entry), n);
    var l := Turns(p, c, o, Start(aux, entry), n);
    ThroughoutInRange(p, o, inside, aux, l.env.visits);
    ThroughoutInRange(p, o, inside, aux, l.pending);
  }

  /** What can be known before the call: with a confined domain an accepted program is safe outright. */
  lemma ConfinedProgramsAreSafe<A(!new), E(!new), C(!new)>(
      p: Program, c: Config, o: Oracle<A, E>, m: Meaning<A, C>, inside: (nat, A) -> bool, aux: E, entry: State<A>, run: seq<C>)
    requires Sound(p, o, m) && Confined(p, o, inside) && inside(entry.pc, entry.abs)
    requires var e := Run(p, c, o, Start(aux, entry)).env; !e.failed && !e.stop
    requires Steps(m, run) && (run != [] ==> Covers(m, entry, run[0]))
    ensures Safe(p, m, run)
  {
    hide Sound, Confined, Turns, Run, Covers, Steps, Safe, InRange;
    var n := RunEnds(p, c, o, Start(aux, entry));
    ConfinedStaysInRange(p, c, o, inside, aux, entry, n);
    AcceptedInRangeIsSafe(p, c, o, m, aux, entry, run);
  }
}
