/**
 Exactly where the loop records a checkpoint, told from the record of the run alone: the states it
 looked at and expanded, and not from the counters that the loop itself keeps.
 */
module CheckpointRule {
  import opened Words
  import opened Worklist
  import opened WorklistSoundness

  /** The first expanded state under its parent: the one that recorded it. */
  predicate Fresh<A>(visits: seq<State<A>>, i: nat)
    requires i < |visits|
  {
    visits[i].parent.Some? && forall j :: 0 <= j < i ==> visits[j].parent != visits[i].parent
  }

  /** The last of the first `i` expanded states that recorded a checkpoint. */
  function LastFresh<A>(visits: seq<State<A>>, i: nat): (r: Option<nat>)
    requires i <= |visits|
    ensures r.Some? ==> r.value < i
  {
    if i == 0 then None
    else if Fresh(visits, i - 1) then Some(i - 1)
    else LastFresh(visits, i - 1)
  }

  /** How many of the expanded states from `lo` on, before `hi`, are at jumps of the program. */
  function Jumps<A>(p: Program, visits: seq<State<A>>, lo: nat, hi: nat): nat
    requires lo <= hi <= |visits|
  {
    if lo == hi then 0
    else Jumps(p, visits, lo, hi - 1) + if visits[hi - 1].pc < p.len && visits[hi - 1].pc in p.jmpClass then 1 else 0
  }

  function JumpsSince<A>(p: Program, visits: seq<State<A>>, i: nat): nat
    requires i <= |visits|
  {
    var r := LastFresh(visits, i);
    Jumps(p, visits, if r.Some? then r.value else 0, i)
  }

  /** The instruction count at the last checkpoint before the `i`th expanded state. */
  function CountAtLast<A>(visits: seq<State<A>>, stamps: seq<Stamp>, i: nat): nat
    requires i <= |visits| && i <= |stamps|
  {
    var r := LastFresh(visits, i);
    if r.Some? then stamps[r.value].insns else 0
  }

  /** A forced checkpoint, a long history, or the cadence; only at prune points, unless every state is recorded. */
  predicate Due<A>(p: Program, c: Config, arrivals: seq<State<A>>, visits: seq<State<A>>, stamps: seq<Stamp>, i: nat)
    requires i < |visits| == |stamps| && 1 <= stamps[i].insns <= |arrivals|
  {
    var pc, history := visits[i].pc, arrivals[stamps[i].insns - 1].history;
    var dj, di := JumpsSince(p, visits, i), stamps[i].insns - CountAtLast(visits, stamps, i);
    (c.kernelEngine || c.bcf) ==>
      && pc in p.prunePoint
      && (pc in p.forceCheckpoint || history > 40 || (dj >= 2 && di >= 8 && (!stamps[i].active || dj >= 20 || di >= 100)))
  }

  predicate Stamped<A>(arrivals: seq<State<A>>, visits: seq<State<A>>, stamps: seq<Stamp>, i: nat) {
    i < |visits| == |stamps| && 1 <= stamps[i].insns <= |arrivals|
  }

  /** The `i`th expanded state recorded a checkpoint exactly if one was due, and otherwise kept its history. */
  predicate RuleAt<A>(p: Program, c: Config, arrivals: seq<State<A>>, visits: seq<State<A>>, stamps: seq<Stamp>, i: nat) {
    && Stamped(arrivals, visits, stamps, i)
    && visits[i].pc == arrivals[stamps[i].insns - 1].pc
    && (Fresh(visits, i) <==> Due(p, c, arrivals, visits, stamps, i))
    && visits[i].history == if Fresh(visits, i) then 0 else arrivals[stamps[i].insns - 1].history
  }

  ghost predicate SnapshotAt<A>(ckpts: seq<Checkpoint<A>>, visits: seq<State<A>>, i: nat)
    requires i < |visits|
  {
    Fresh(visits, i) ==>
      var k := visits[i].parent.value;
      k < |ckpts| && ckpts[k].pc == visits[i].pc && ckpts[k].abs == visits[i].abs
  }

  // ---------------------------------------------------------------- only the past matters

  lemma FreshPrefix<A>(visits: seq<State<A>>, v: State<A>, i: nat)
    requires i < |visits|
    ensures Fresh(visits + [v], i) <==> Fresh(visits, i)
  {
    var w := visits + [v];
    assert forall j :: 0 <= j <= i ==> w[j] == visits[j];
    if Fresh(w, i) {
      forall j | 0 <= j < i ensures visits[j].parent != visits[i].parent { assert w[j].parent != w[i].parent; }
    }
    if Fresh(visits, i) {
      forall j | 0 <= j < i ensures w[j].parent != w[i].parent { assert visits[j].parent != visits[i].parent; }
    }
  }

  lemma {:induction false} LastFreshPrefix<A>(visits: seq<State<A>>, v: State<A>, i: nat)
    requires i <= |visits|
    ensures LastFresh(visits + [v], i) == LastFresh(visits, i)
  {
    hide Fresh;
    if i > 0 {
      LastFreshPrefix(visits, v, i - 1);
      FreshPrefix(visits, v, i - 1);
    }
  }

  lemma {:induction false} JumpsPrefix<A>(p: Program, visits: seq<State<A>>, v: State<A>, lo: nat, hi: nat)
    requires lo <= hi <= |visits|
    ensures Jumps(p, visits + [v], lo, hi) == Jumps(p, visits, lo, hi)
    decreases hi
  {
    if lo < hi { JumpsPrefix(p, visits, v, lo, hi - 1); }
  }

  lemma {:induction false} JumpsSplit<A>(p: Program, visits: seq<State<A>>, mid: nat, hi: nat)
    requires mid <= hi <= |visits|
    ensures Jumps(p, visits, 0, hi) == Jumps(p, visits, 0, mid) + Jumps(p, visits, mid, hi)
    decreases hi
  {
    if mid < hi { JumpsSplit(p, visits, mid, hi - 1); }
  }

  lemma RulePrefix<A>(
      p: Program, c: Config, arrivals: seq<State<A>>, more: seq<State<A>>, visits: seq<State<A>>, v: State<A>,
      stamps: seq<Stamp>, t: Stamp, i: nat)
    requires RuleAt(p, c, arrivals, visits, stamps, i)
    ensures RuleAt(p, c, arrivals + more, visits + [v], stamps + [t], i)
  {
    LastFreshPrefix(visits, v, i);
    var r := LastFresh(visits, i);
    JumpsPrefix(p, visits, v, if r.Some? then r.value else 0, i);
    FreshPrefix(visits, v, i);
    hide Jumps, LastFresh, Fresh;
  }

  lemma RuleLater<A>(
      p: Program, c: Config, arrivals: seq<State<A>>, more: seq<State<A>>, visits: seq<State<A>>, stamps: seq<Stamp>, i: nat)
    requires RuleAt(p, c, arrivals, visits, stamps, i)
    ensures RuleAt(p, c, arrivals + more, visits, stamps, i)
  {
    hide Jumps, LastFresh;
  }

  // ---------------------------------------------------------------- the invariant

  predicate Known<A>(states: seq<State<A>>, n: nat) {
    forall i :: 0 <= i < |states| && states[i].parent.Some? ==> states[i].parent.value < n
  }

  ghost predicate Recorder<A>(visits: seq<State<A>>, k: nat) {
    exists i :: 0 <= i < |visits| && visits[i].parent == Some(k)
  }

  /** The loop's counters agree with the record, checkpoints have their recorders, and the rule was kept so far. */
  ghost predicate Ruled<A, E>(p: Program, c: Config, e: Env<A, E>) {
    && |e.stamps| == |e.visits| && e.insns == |e.arrivals|
    && Counters(p, e)
    && Known(e.visits, |e.ckpts|) && (forall k: nat :: k < |e.ckpts| ==> Recorder(e.visits, k))
    && (forall i: nat :: i < |e.visits| ==> RuleAt(p, c, e.arrivals, e.visits, e.stamps, i))
    && (forall i: nat :: i < |e.visits| ==> SnapshotAt(e.ckpts, e.visits, i))
  }

  predicate Counters<A, E>(p: Program, e: Env<A, E>)
    requires |e.stamps| == |e.visits|
  {
    var n := |e.visits|;
    var r := LastFresh(e.visits, n);
    && e.jmps == Jumps(p, e.visits, 0, n)
    && e.prevInsns == CountAtLast(e.visits, e.stamps, n)
    && e.prevJmps == Jumps(p, e.visits, 0, if r.Some? then r.value else 0)
  }

  lemma SinceIs<A, E>(p: Program, e: Env<A, E>)
    requires |e.stamps| == |e.visits| && Counters(p, e)
    ensures e.jmps - e.prevJmps == JumpsSince(p, e.visits, |e.visits|)
  {
    hide Jumps, LastFresh;
    var r := LastFresh(e.visits, |e.visits|);
    JumpsSplit(p, e.visits, if r.Some? then r.value else 0, |e.visits|);
  }

  /** Recording and expanding one more state `v`, with the counters of before. */
  ghost predicate Extends<A, E>(p: Program, c: Config, e: Env<A, E>, s: State<A>, active: bool, v: State<A>, e': Env<A, E>) {
    && e'.visits == e.visits + [v] && e'.stamps == e.stamps + [Stamp(e.insns, active)] && e'.arrivals == e.arrivals
    && e'.insns == e.insns && v.pc == s.pc
    && e'.jmps == e.jmps + (if v.pc < p.len && v.pc in p.jmpClass then 1 else 0)
    && if Records(p, c, e, s, active)
       then v == s.(parent := Some(|e.ckpts|), history := 0) && e'.prevInsns == e.insns && e'.prevJmps == e.jmps
            && SameSnapshots(e.ckpts + [Checkpoint(s.pc, s.parent, 1, s.abs)], e'.ckpts)
       else v == s && e'.prevInsns == e.prevInsns && e'.prevJmps == e.prevJmps && SameSnapshots(e.ckpts, e'.ckpts)
  }

  lemma FreshIff<A, E>(p: Program, c: Config, e: Env<A, E>, s: State<A>, active: bool, v: State<A>, e': Env<A, E>)
    requires Extends(p, c, e, s, active, v, e') && Known(e.visits, |e.ckpts|) && Known([s], |e.ckpts|)
    requires forall k: nat :: k < |e.ckpts| ==> Recorder(e.visits, k)
    ensures Fresh(e'.visits, |e.visits|) <==> Records(p, c, e, s, active)
  {
    hide Records, SameSnapshots;
    var n := |e.visits|;
    assert e'.visits[n] == v;
    if Records(p, c, e, s, active) {
      forall j | 0 <= j < n ensures e'.visits[j].parent != v.parent { assert e'.visits[j] == e.visits[j]; }
    } else if s.parent.Some? {
      assert [s][0].parent.Some?;
      assert Recorder(e.visits, s.parent.value);
      var i :| 0 <= i < |e.visits| && e.visits[i].parent == Some(s.parent.value);
      assert e'.visits[i].parent == v.parent;
    }
  }

  /** What the counters say and what the record says is the same rule. */
  lemma RecordsIffDue<A, E>(p: Program, c: Config, e: Env<A, E>, s: State<A>, active: bool, v: State<A>, e': Env<A, E>)
    requires Extends(p, c, e, s, active, v, e') && |e.stamps| == |e.visits| && e.insns == |e.arrivals| && Counters(p, e)
    requires e.insns > 0 && e.arrivals[e.insns - 1].history == s.history
    ensures Records(p, c, e, s, active) <==> Due(p, c, e'.arrivals, e'.visits, e'.stamps, |e.visits|)
  {
    var n := |e.visits|;
    SinceIs(p, e);
    LastFreshPrefix(e.visits, v, n);
    var r := LastFresh(e.visits, n);
    JumpsPrefix(p, e.visits, v, if r.Some? then r.value else 0, n);
    hide Jumps, LastFresh, SameSnapshots;
    assert JumpsSince(p, e'.visits, n) == JumpsSince(p, e.visits, n);
    assert CountAtLast(e'.visits, e'.stamps, n) == CountAtLast(e.visits, e.stamps, n);
  }

  // ---------------------------------------------------------------- one turn

  lemma CountersKept<A, E>(p: Program, c: Config, e: Env<A, E>, s: State<A>, active: bool, v: State<A>, e': Env<A, E>)
    requires Extends(p, c, e, s, active, v, e') && |e.stamps| == |e.visits| && Counters(p, e)
    requires Fresh(e'.visits, |e.visits|) <==> Records(p, c, e, s, active)
    ensures Counters(p, e')
  {
    hide Records, SameSnapshots, Fresh;
    var n := |e.visits|;
    LastFreshPrefix(e.visits, v, n);
    JumpsPrefix(p, e.visits, v, 0, n);
    assert e'.visits[n] == v && e'.stamps[n].insns == e.insns;
    var r := LastFresh(e.visits, n);
    JumpsPrefix(p, e.visits, v, 0, if r.Some? then r.value else 0);
  }

  lemma RecordersKept<A, E>(p: Program, c: Config, e: Env<A, E>, s: State<A>, active: bool, v: State<A>, e': Env<A, E>)
    requires Extends(p, c, e, s, active, v, e') && Known(e.visits, |e.ckpts|) && Known([s], |e.ckpts|)
    requires forall k: nat :: k < |e.ckpts| ==> Recorder(e.visits, k)
    ensures Known(e'.visits, |e'.ckpts|) && Known([v], |e'.ckpts|) && |e.ckpts| <= |e'.ckpts|
    ensures forall k: nat :: k < |e'.ckpts| ==> Recorder(e'.visits, k)
  {
    hide Records;
    var n := |e.visits|;
    assert [s][0] == s && e'.visits[n] == v;
    forall k: nat | k < |e'.ckpts| ensures Recorder(e'.visits, k) {
      if k < |e.ckpts| {
        assert Recorder(e.visits, k);
        var i :| 0 <= i < |e.visits| && e.visits[i].parent == Some(k);
        assert e'.visits[i].parent == Some(k);
      }
    }
  }

  lemma FreshHasParent<A>(visits: seq<State<A>>, i: nat)
    requires i < |visits| && Fresh(visits, i)
    ensures visits[i].parent.Some?
  {
  }

  lemma SnapshotsKept<A, E>(p: Program, c: Config, e: Env<A, E>, s: State<A>, active: bool, v: State<A>, e': Env<A, E>, i: nat)
    requires Extends(p, c, e, s, active, v, e') && i <= |e.visits| && (i < |e.visits| ==> SnapshotAt(e.ckpts, e.visits, i))
    requires Fresh(e'.visits, |e.visits|) <==> Records(p, c, e, s, active)
    ensures SnapshotAt(e'.ckpts, e'.visits, i)
  {
    hide Records, Fresh;
    if i < |e.visits| {
      FreshPrefix(e.visits, v, i);
      assert e'.visits[i] == e.visits[i];
      if Fresh(e.visits, i) {
        FreshHasParent(e.visits, i);
        var k := e.visits[i].parent.value;
        assert (e.ckpts + [Checkpoint(s.pc, s.parent, 1, s.abs)])[k] == e.ckpts[k];
      }
    }
  }

  lemma ExtendsKeepsRuled<A, E>(p: Program, c: Config, e: Env<A, E>, s: State<A>, active: bool, v: State<A>, e': Env<A, E>)
    requires Ruled(p, c, e) && Known([s], |e.ckpts|) && Extends(p, c, e, s, active, v, e')
    requires e.insns > 0 && e.arrivals[e.insns - 1].history == s.history && e.arrivals[e.insns - 1].pc == s.pc
    ensures Ruled(p, c, e') && Known([v], |e'.ckpts|) && |e.ckpts| <= |e'.ckpts|
  {
    var n := |e.visits|;
    FreshIff(p, c, e, s, active, v, e');
    RecordsIffDue(p, c, e, s, active, v, e');
    CountersKept(p, c, e, s, active, v, e');
    RecordersKept(p, c, e, s, active, v, e');
    forall i: nat | i < |e'.visits| ensures SnapshotAt(e'.ckpts, e'.visits, i) {
      SnapshotsKept(p, c, e, s, active, v, e', i);
    }
    assert e.arrivals + [] == e.arrivals;
    forall i: nat | i < |e'.visits| ensures RuleAt(p, c, e'.arrivals, e'.visits, e'.stamps, i) {
      if i < n {
        RulePrefix(p, c, e.arrivals, [], e.visits, v, e.stamps, Stamp(e.insns, active), i);
      } else {
        NewRule(p, c, e, s, active, v, e');
      }
    }
  }

  lemma NewRule<A, E>(p: Program, c: Config, e: Env<A, E>, s: State<A>, active: bool, v: State<A>, e': Env<A, E>)
    requires |e.stamps| == |e.visits| && e.insns == |e.arrivals| && Extends(p, c, e, s, active, v, e')
    requires e.insns > 0 && e.arrivals[e.insns - 1].history == s.history && e.arrivals[e.insns - 1].pc == s.pc
    requires Fresh(e'.visits, |e.visits|) <==> Records(p, c, e, s, active)
    requires Records(p, c, e, s, active) <==> Due(p, c, e'.arrivals, e'.visits, e'.stamps, |e.visits|)
    ensures RuleAt(p, c, e'.arrivals, e'.visits, e'.stamps, |e.visits|)
  {
    hide Records, Due, Fresh, SameSnapshots;
    var n := |e.visits|;
    assert e'.visits[n] == v && e'.stamps[n].insns == e.insns;
  }

  /** Whatever ends a path leaves the record alone. */
  lemma SameRecordRuled<A, E>(p: Program, c: Config, e: Env<A, E>, e': Env<A, E>, more: seq<State<A>>)
    requires Ruled(p, c, e) && SameSnapshots(e.ckpts, e'.ckpts) && e'.arrivals == e.arrivals + more
    requires e'.visits == e.visits && e'.stamps == e.stamps && e'.insns == e.insns + |more|
    requires e'.jmps == e.jmps && e'.prevJmps == e.prevJmps && e'.prevInsns == e.prevInsns
    ensures Ruled(p, c, e')
  {
    forall i: nat | i < |e.visits| ensures RuleAt(p, c, e'.arrivals, e.visits, e.stamps, i) {
      RuleLater(p, c, e.arrivals, more, e.visits, e.stamps, i);
    }
    hide RuleAt, Counters, Recorder, Known;
    forall i: nat | i < |e.visits| ensures SnapshotAt(e'.ckpts, e.visits, i) { assert SnapshotAt(e.ckpts, e.visits, i); }
    assert Counters(p, e') by { SameCounters(p, e, e'); }
  }

  lemma SameCounters<A, E>(p: Program, e: Env<A, E>, e': Env<A, E>)
    requires |e.stamps| == |e.visits| && Counters(p, e) && e'.visits == e.visits && e'.stamps == e.stamps
    requires e'.jmps == e.jmps && e'.prevJmps == e.prevJmps && e'.prevInsns == e.prevInsns
    ensures Counters(p, e')
  {
  }

  lemma ExpandedExtends<A, E>(p: Program, c: Config, o: Oracle<A, E>, e: Env<A, E>, s: State<A>, active: bool)
    requires var r := Checkpointed(p, c, e, s, active); !Expanded(p, c, o, r.env, r.succs[0]).env.failed
    ensures var r := Checkpointed(p, c, e, s, active);
            Extends(p, c, e, s, active, r.succs[0], Expanded(p, c, o, r.env, r.succs[0]).env)
  {
    hide Complete, Records;
    var r := Checkpointed(p, c, e, s, active);
    ExpandedKeepsSnapshots(p, c, o, r.env, r.succs[0]);
  }

  lemma ExpandedKeepsSnapshots<A, E>(p: Program, c: Config, o: Oracle<A, E>, e: Env<A, E>, s: State<A>)
    ensures SameSnapshots(e.ckpts, Expanded(p, c, o, e, s).env.ckpts)
  {
    hide Complete;
    var t := o.transfer(e.aux, e.ckpts, s);
    var forked := Forked(e.ckpts, s.parent, |t.succs|);
    CompleteKeepsSnapshots(forked, s.parent, WALK_BUDGET);
    assert SameSnapshots(e.ckpts, forked);
  }

  lemma ExpandedChildren<A, E>(p: Program, c: Config, o: Oracle<A, E>, e: Env<A, E>, s: State<A>, n: nat)
    requires Known([s], n)
    ensures Known(Expanded(p, c, o, e, s).succs, n)
  {
    hide Complete;
    assert [s][0] == s;
  }

  lemma ProcessKeepsRuled<A, E>(p: Program, c: Config, o: Oracle<A, E>, e: Env<A, E>, s: State<A>)
    requires Ruled(p, c, e) && Known([s], |e.ckpts|) && !Process(p, c, o, e, s).env.failed
    ensures var r := Process(p, c, o, e, s);
            Ruled(p, c, r.env) && Known(r.succs, |r.env.ckpts|) && |e.ckpts| <= |r.env.ckpts|
  {
    hide Complete, Expanded, Records, Ruled;
    var s1 := Arrived(p, o, s);
    var e1 := e.(arrivals := e.arrivals + [s1]);
    var k := Looked(p, c, o, e1, s1);
    assert [s][0] == s;
    RuledInsns(p, c, e);
    if k.prune {
      var e2 := Died(k.env.(pruned := k.env.pruned + 1), k.state.parent);
      CompleteKeepsSnapshots(e.ckpts, k.state.parent, WALK_BUDGET);
      SameRecordRuled(p, c, e, e2, [s1]);
    } else {
      SameSnapshotsSelf(e.ckpts);
      SameRecordRuled(p, c, e, k.env, [s1]);
      var r := Checkpointed(p, c, k.env, k.state, k.active);
      ExpandedExtends(p, c, o, k.env, k.state, k.active);
      var e2 := Expanded(p, c, o, r.env, r.succs[0]).env;
      assert [k.state][0] == k.state;
      ExtendsKeepsRuled(p, c, k.env, k.state, k.active, r.succs[0], e2);
      ExpandedChildren(p, c, o, r.env, r.succs[0], |e2.ckpts|);
    }
  }

  lemma RuledInsns<A, E>(p: Program, c: Config, e: Env<A, E>)
    requires Ruled(p, c, e)
    ensures e.insns == |e.arrivals|
  {
  }

  lemma SameSnapshotsSelf<A>(ckpts: seq<Checkpoint<A>>)
    ensures SameSnapshots(ckpts, ckpts)
  {
  }

  lemma {:induction false} TurnsKeepRuled<A, E>(p: Program, c: Config, o: Oracle<A, E>, l: Loop<A, E>, n: nat)
    requires Ruled(p, c, l.env) && Known(l.pending, |l.env.ckpts|)
    ensures var l' := Turns(p, c, o, l, n); !l'.env.failed ==> Ruled(p, c, l'.env)
    decreases n
  {
    hide Ruled, Process, Pushed;
    if n > 0 && Live(l) {
      var s, rest := l.pending[|l.pending| - 1], l.pending[..|l.pending| - 1];
      var r := Process(p, c, o, l.env, s);
      var l' := Turn(p, c, o, l);
      if r.env.failed {
        assert Turns(p, c, o, l', n - 1) == l';
      } else {
        ProcessKeepsRuled(p, c, o, l.env, s);
        var pushed := Pushed(c, o, r.env.aux, s, r.succs);
        forall i | 0 <= i < |pushed| && pushed[i].parent.Some? ensures pushed[i].parent.value < |r.env.ckpts| {
          PushedFrom(c, o, r.env.aux, s, r.succs, pushed[i]);
        }
        TurnsKeepRuled(p, c, o, l', n - 1);
      }
    }
  }

  lemma RuledAtStart<A, E>(p: Program, c: Config, aux: E, s: State<A>)
    requires s.parent == None
    ensures Ruled(p, c, Start<A, E>(aux, s).env) && Known(Start<A, E>(aux, s).pending, 0)
  {
  }

  /**
   At every loop head of every run, each expanded state recorded a checkpoint exactly if one was due,
   and then its checkpoint holds its pc and abstract value.
   */
  lemma RecordedIffDue<A, E>(p: Program, c: Config, o: Oracle<A, E>, aux: E, s: State<A>, n: nat, i: nat)
    requires s.parent == None
    ensures var e := Turns(p, c, o, Start(aux, s), n).env;
            !e.failed && i < |e.visits| ==> RuleAt(p, c, e.arrivals, e.visits, e.stamps, i) && SnapshotAt(e.ckpts, e.visits, i)
  {
    hide Turns, RuleAt, SnapshotAt;
    RuledAtStart<A, E>(p, c, aux, s);
    TurnsKeepRuled(p, c, o, Start(aux, s), n);
  }

  // ---------------------------------------------------------------- what follows for sparse runs

  /** At a prune point no history is longer than 40. */
  lemma HistoryStaysShort<A, E>(p: Program, c: Config, o: Oracle<A, E>, aux: E, s: State<A>, n: nat, i: nat)
    requires s.parent == None && (c.kernelEngine || c.bcf)
    ensures var e := Turns(p, c, o, Start(aux, s), n).env;
            !e.failed && i < |e.visits| && e.visits[i].pc in p.prunePoint ==> e.visits[i].history <= 40
  {
    hide Turns, LastFresh, Jumps, Fresh;
    RecordedIffDue(p, c, o, aux, s, n, i);
  }

  /** A forced prune point is always expanded under a checkpoint of its own. */
  lemma ForcedIsRecorded<A, E>(p: Program, c: Config, o: Oracle<A, E>, aux: E, s: State<A>, n: nat, i: nat)
    requires s.parent == None
    ensures var e := Turns(p, c, o, Start(aux, s), n).env;
            !e.failed && i < |e.visits| && e.visits[i].pc in p.prunePoint && e.visits[i].pc in p.forceCheckpoint ==>
              var v := e.visits[i];
              && v.parent.Some? && v.parent.value < |e.ckpts|
              && e.ckpts[v.parent.value].pc == v.pc && e.ckpts[v.parent.value].abs == v.abs
  {
    hide Turns, LastFresh, Jumps;
    RecordedIffDue(p, c, o, aux, s, n, i);
  }

  /**
   Between checkpoints no prune point is passed with two jumps and eight instructions since the last
   one; below an open ancestor, with 20 jumps or 100 instructions as well.
   */
  lemma CadenceIsKept<A, E>(p: Program, c: Config, o: Oracle<A, E>, aux: E, s: State<A>, n: nat, i: nat)
    requires s.parent == None
    ensures var e := Turns(p, c, o, Start(aux, s), n).env;
            !e.failed && i < |e.visits| && |e.stamps| == |e.visits|
            && e.visits[i].pc in p.prunePoint && !Fresh(e.visits, i) ==>
              var dj, di := JumpsSince(p, e.visits, i), e.stamps[i].insns - CountAtLast(e.visits, e.stamps, i);
              dj < 2 || di < 8 || (e.stamps[i].active && dj < 20 && di < 100)
  {
    hide Turns, LastFresh, Jumps, Fresh;
    RecordedIffDue(p, c, o, aux, s, n, i);
  }
}
