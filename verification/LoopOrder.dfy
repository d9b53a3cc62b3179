/** In which order the loop takes up its states, how their history grows, and exactly when it fails. */
module LoopOrder {
  import opened Worklist
  import opened WorklistSoundness

  // ---------------------------------------------------------------- loop-closing successors wait

  predicate Closes<A, E>(c: Config, o: Oracle<A, E>, aux: E, s: State<A>, x: State<A>) {
    !c.bcf && o.backEdge(aux, s, Succ(x.pc, x.history, x.abs))
  }

  lemma {:induction false} ChosenFlag<A>(flags: seq<bool>, succs: seq<State<A>>, which: bool, x: State<A>) returns (i: nat)
    requires |flags| == |succs| && x in Chosen(flags, succs, which)
    ensures i < |succs| && succs[i] == x && flags[i] == which
  {
    if flags[0] == which && succs[0] == x {
      i := 0;
    } else {
      i := ChosenFlag(flags[1..], succs[1..], which, x);
      i := i + 1;
    }
  }

  lemma ChosenClose<A, E>(c: Config, o: Oracle<A, E>, aux: E, s: State<A>, succs: seq<State<A>>, which: bool, x: State<A>)
    requires x in Chosen(BackFlags(c, o, aux, s, succs), succs, which)
    ensures Closes(c, o, aux, s, x) == which
  {
    hide Chosen;
    var i := ChosenFlag(BackFlags(c, o, aux, s, succs), succs, which, x);
  }

  /** Of the successors pushed in one turn, those that close a loop lie under all others. */
  lemma ClosersAreUnder<A, E>(c: Config, o: Oracle<A, E>, aux: E, s: State<A>, succs: seq<State<A>>, a: nat, b: nat)
    requires a < b < |Pushed(c, o, aux, s, succs)|
    ensures var pushed := Pushed(c, o, aux, s, succs);
            Closes(c, o, aux, s, pushed[b]) ==> Closes(c, o, aux, s, pushed[a])
  {
    var f := BackFlags(c, o, aux, s, succs);
    hide Chosen, BackFlags, Closes, Reversed;
    var back, others := Chosen(f, succs, true), Chosen(f, succs, false);
    var pushed := Pushed(c, o, aux, s, succs);
    if a < |back| {
      ChosenClose(c, o, aux, s, succs, true, back[a]);
      assert pushed[a] == back[a];
    } else {
      ReversedIn(others, b - |back|);
      ChosenClose(c, o, aux, s, succs, false, pushed[b]);
    }
  }

  lemma ReversedIn<T>(s: seq<T>, k: nat)
    requires k < |s|
    ensures |Reversed(s)| == |s| && Reversed(s)[k] in s
  {
    hide Reversed;
    assert Reversed(s)[k] == s[|s| - 1 - k];
  }

  lemma TurnKeepsBelow<A, E>(p: Program, c: Config, o: Oracle<A, E>, l: Loop<A, E>, base: seq<State<A>>)
    requires Live(l) && base <= l.pending && base != l.pending
    ensures base <= Turn(p, c, o, l).pending
  {
    hide Process, Pushed;
    var rest := l.pending[..|l.pending| - 1];
    assert base <= rest;
  }

  /** What lies below is not touched until everything above it, and all that leads to, is done. */
  lemma {:induction false} BelowWaits<A, E>(p: Program, c: Config, o: Oracle<A, E>, l: Loop<A, E>, base: seq<State<A>>, n: nat)
    requires base <= l.pending
    ensures base <= Turns(p, c, o, l, n).pending || exists m: nat :: m <= n && Turns(p, c, o, l, m).pending == base
    decreases n
  {
    hide Turn;
    if l.pending == base {
      assert Turns(p, c, o, l, 0) == l;
    } else if n > 0 && Live(l) {
      var l' := Turn(p, c, o, l);
      TurnKeepsBelow(p, c, o, l, base);
      BelowWaits(p, c, o, l', base, n - 1);
      if !(base <= Turns(p, c, o, l, n).pending) {
        var m: nat :| m <= n - 1 && Turns(p, c, o, l', m).pending == base;
        var k: nat := m + 1;
        assert Turns(p, c, o, l, k) == Turns(p, c, o, l', k - 1);
        assert k <= n && Turns(p, c, o, l, k).pending == base;
      }
    }
  }

  // ---------------------------------------------------------------- branch history

  /** Transfer hands its history on. */
  ghost predicate KeepsHistory<A(!new), E(!new)>(o: Oracle<A, E>) {
    forall e: E, ck: seq<Checkpoint<A>>, s: State<A> :: HandsOn(o.transfer(e, ck, s).succs, s.history)
  }

  predicate HandsOn<A>(succs: seq<Succ<A>>, history: nat) {
    forall i :: 0 <= i < |succs| ==> succs[i].history == history
  }

  /** The history is that of the entry or of an expanded state under the same parent. */
  ghost predicate Origin<A>(entry: State<A>, visits: seq<State<A>>, s: State<A>) {
    || (s.history == entry.history && s.parent == entry.parent)
    || exists j :: 0 <= j < |visits| && visits[j].history == s.history && visits[j].parent == s.parent
  }

  /** One more at a register spill or fill, one more at a jump point. */
  ghost predicate Bumped<A(!new), E>(p: Program, o: Oracle<A, E>, entry: State<A>, visits: seq<State<A>>, a: State<A>) {
    exists s: State<A> ::
      && Origin(entry, visits, s) && s.(history := a.history) == a
      && a.history == s.history + (if o.spillOrFill(s) then 1 else 0) + (if s.pc in p.jmpPoint then 1 else 0)
  }

  ghost predicate Traced<A(!new), E>(p: Program, o: Oracle<A, E>, entry: State<A>, e: Env<A, E>, pending: seq<State<A>>) {
    && (forall i :: 0 <= i < |e.arrivals| ==> Bumped(p, o, entry, e.visits, e.arrivals[i]))
    && (forall i :: 0 <= i < |pending| ==> Origin(entry, e.visits, pending[i]))
  }

  lemma OriginStays<A>(entry: State<A>, visits: seq<State<A>>, visits': seq<State<A>>, s: State<A>)
    requires Origin(entry, visits, s) && visits <= visits'
    ensures Origin(entry, visits', s)
  {
    if !(s.history == entry.history && s.parent == entry.parent) {
      var j :| 0 <= j < |visits| && visits[j].history == s.history && visits[j].parent == s.parent;
      assert visits'[j] == visits[j];
    }
  }

  lemma BumpedStays<A(!new), E>(
      p: Program, o: Oracle<A, E>, entry: State<A>, visits: seq<State<A>>, visits': seq<State<A>>, a: State<A>)
    requires Bumped(p, o, entry, visits, a) && visits <= visits'
    ensures Bumped(p, o, entry, visits', a)
  {
    hide Origin;
    var s: State<A> :|
      && Origin(entry, visits, s) && s.(history := a.history) == a
      && a.history == s.history + (if o.spillOrFill(s) then 1 else 0) + (if s.pc in p.jmpPoint then 1 else 0);
    OriginStays(entry, visits, visits', s);
  }

  lemma ArrivedBumped<A(!new), E>(p: Program, o: Oracle<A, E>, entry: State<A>, visits: seq<State<A>>, s: State<A>)
    requires Origin(entry, visits, s)
    ensures Bumped(p, o, entry, visits, Arrived(p, o, s))
  {
    hide Origin;
    assert s.(history := Arrived(p, o, s).history) == Arrived(p, o, s);
  }

  lemma ExpandedOrigins<A(!new), E(!new)>(
      p: Program, c: Config, o: Oracle<A, E>, entry: State<A>, e: Env<A, E>, s: State<A>, x: State<A>)
    requires KeepsHistory(o) && x in Expanded(p, c, o, e, s).succs
    ensures Expanded(p, c, o, e, s).env.visits == e.visits + [s] && Origin(entry, e.visits + [s], x)
  {
    hide Complete;
    var t := o.transfer(e.aux, e.ckpts, s);
    assert HandsOn(t.succs, s.history);
    var visits := e.visits + [s];
    assert visits[|e.visits|] == s;
    assert x.history == s.history && x.parent == s.parent;
  }

  lemma ExpandedRecord<A, E>(p: Program, c: Config, o: Oracle<A, E>, e: Env<A, E>, s: State<A>)
    ensures var r := Expanded(p, c, o, e, s).env;
            r.arrivals == e.arrivals && r.visits == e.visits + [s] && r.stamps == e.stamps
  {
    hide Complete;
  }

  lemma ProcessRecord<A, E>(p: Program, c: Config, o: Oracle<A, E>, e: Env<A, E>, s: State<A>)
    ensures var r := Process(p, c, o, e, s).env; r.arrivals == e.arrivals + [Arrived(p, o, s)] && e.visits <= r.visits
  {
    hide Complete, Records, Expanded, Arrived, Demoted;
    var s1 := Arrived(p, o, s);
    var k := Looked(p, c, o, e.(arrivals := e.arrivals + [s1]), s1);
    var r := Checkpointed(p, c, k.env, k.state, k.active);
    ExpandedRecord(p, c, o, r.env, r.succs[0]);
  }

  lemma ProcessOrigins<A(!new), E(!new)>(
      p: Program, c: Config, o: Oracle<A, E>, entry: State<A>, e: Env<A, E>, s: State<A>, x: State<A>)
    requires KeepsHistory(o) && x in Process(p, c, o, e, s).succs
    ensures Origin(entry, Process(p, c, o, e, s).env.visits, x)
  {
    hide KeepsHistory, Complete, Records, Expanded, Origin, Arrived, Demoted;
    var s1 := Arrived(p, o, s);
    var e1 := e.(arrivals := e.arrivals + [s1]);
    var k := Looked(p, c, o, e1, s1);
    var r := Checkpointed(p, c, k.env, k.state, k.active);
    ExpandedOrigins(p, c, o, entry, r.env, r.succs[0], x);
  }

  lemma {:induction false} TurnsTraced<A(!new), E(!new)>(
      p: Program, c: Config, o: Oracle<A, E>, entry: State<A>, l: Loop<A, E>, n: nat)
    requires KeepsHistory(o) && Traced(p, o, entry, l.env, l.pending)
    ensures var l' := Turns(p, c, o, l, n); Traced(p, o, entry, l'.env, l'.pending)
    decreases n
  {
    hide KeepsHistory, Process, Pushed, Origin, Bumped, Arrived;
    if n > 0 && Live(l) {
      var s, rest := l.pending[|l.pending| - 1], l.pending[..|l.pending| - 1];
      var r := Process(p, c, o, l.env, s);
      ProcessRecord(p, c, o, l.env, s);
      forall i | 0 <= i < |r.env.arrivals| ensures Bumped(p, o, entry, r.env.visits, r.env.arrivals[i]) {
        if i < |l.env.arrivals| {
          assert r.env.arrivals[i] == l.env.arrivals[i];
        } else {
          ArrivedBumped(p, o, entry, l.env.visits, s);
        }
        BumpedStays(p, o, entry, l.env.visits, r.env.visits, r.env.arrivals[i]);
      }
      var pushed := Pushed(c, o, r.env.aux, s, r.succs);
      var pending := rest + pushed;
      forall i | 0 <= i < |pending| ensures Origin(entry, r.env.visits, pending[i]) {
        if i < |rest| {
          assert pending[i] == l.pending[i];
          OriginStays(entry, l.env.visits, r.env.visits, pending[i]);
        } else {
          assert pending[i] in pushed;
          PushedFrom(c, o, r.env.aux, s, r.succs, pending[i]);
          ProcessOrigins(p, c, o, entry, l.env, s, pending[i]);
        }
      }
      TurnsTraced(p, c, o, entry, Turn(p, c, o, l), n - 1);
    }
  }

  /** Every state looked at has the history of the state it continues, plus what its own instruction adds. */
  lemma HistoryGrows<A(!new), E(!new)>(p: Program, c: Config, o: Oracle<A, E>, aux: E, entry: State<A>, n: nat, i: nat)
    requires KeepsHistory(o) && i < |Turns(p, c, o, Start(aux, entry), n).env.arrivals|
    ensures var e := Turns(p, c, o, Start(aux, entry), n).env; Bumped(p, o, entry, e.visits, e.arrivals[i])
  {
    hide KeepsHistory, Turns, Bumped;
    TurnsTraced(p, c, o, entry, Start(aux, entry), n);
  }

  // ---------------------------------------------------------------- when the loop fails

  ghost predicate NeverFails<A(!new), E(!new)>(o: Oracle<A, E>) {
    forall e: E, ck: seq<Checkpoint<A>>, s: State<A> :: !o.prune(e, ck, s).fail && !o.transfer(e, ck, s).fail
  }

  /** The last state expanded was one too many. */
  predicate OverLimit<A, E>(c: Config, e: Env<A, E>) {
    e.stamps != [] && e.stamps[|e.stamps| - 1].insns > if c.bcf then c.bcfMaxInsn else c.maxInsn
  }

  /** The last state looked at is in the second slot of a load. */
  predicate InSecondSlot<A, E>(p: Program, e: Env<A, E>) {
    e.arrivals != [] && e.arrivals[|e.arrivals| - 1].pc in p.invalid
  }

  lemma ProcessFailsIff<A(!new), E(!new)>(p: Program, c: Config, o: Oracle<A, E>, e: Env<A, E>, s: State<A>)
    requires NeverFails(o) && !e.failed && !OverLimit(c, e)
    ensures var r := Process(p, c, o, e, s).env; r.failed <==> OverLimit(c, r) || InSecondSlot(p, r)
  {
    hide NeverFails, Complete, Records, Expanded, Arrived, Demoted;
    var s1 := Arrived(p, o, s);
    var e1 := e.(arrivals := e.arrivals + [s1]);
    var k := Looked(p, c, o, e1, s1);
    PruneNeverFails(p, c, o, e1, s1);
    var r := Checkpointed(p, c, k.env, k.state, k.active);
    ExpandedRecord(p, c, o, r.env, r.succs[0]);
    ExpandedFailsIff(p, c, o, r.env, r.succs[0]);
    ProcessRecord(p, c, o, e, s);
    ArrivedPc(p, o, s);
  }

  lemma ArrivedPc<A, E>(p: Program, o: Oracle<A, E>, s: State<A>)
    ensures Arrived(p, o, s).pc == s.pc
  {
  }

  lemma PruneNeverFails<A(!new), E(!new)>(p: Program, c: Config, o: Oracle<A, E>, e: Env<A, E>, s: State<A>)
    requires NeverFails(o)
    ensures Looked(p, c, o, e, s).env.failed == e.failed
  {
    assert !o.prune(e.aux, e.ckpts, Demoted(p, c, o, e, s)).fail;
  }

  lemma ExpandedFailsIff<A(!new), E(!new)>(p: Program, c: Config, o: Oracle<A, E>, e: Env<A, E>, s: State<A>)
    requires NeverFails(o) && !e.failed
    ensures Expanded(p, c, o, e, s).env.failed <==> e.insns > if c.bcf then c.bcfMaxInsn else c.maxInsn
  {
    hide Complete;
    assert !o.transfer(e.aux, e.ckpts, s).fail;
  }

  /**
   If no operation of the domain fails, the loop has failed exactly if it expanded a state beyond the
   instruction limit or came to the second slot of a load.
   */
  lemma {:induction false} FailsIff<A(!new), E(!new)>(p: Program, c: Config, o: Oracle<A, E>, l: Loop<A, E>, n: nat)
    requires NeverFails(o) && (l.env.failed <==> OverLimit(c, l.env) || InSecondSlot(p, l.env))
    ensures var e := Turns(p, c, o, l, n).env; e.failed <==> OverLimit(c, e) || InSecondSlot(p, e)
    decreases n
  {
    hide NeverFails, Process, Pushed, OverLimit, InSecondSlot;
    if n > 0 && Live(l) {
      ProcessFailsIff(p, c, o, l.env, l.pending[|l.pending| - 1]);
      FailsIff(p, c, o, Turn(p, c, o, l), n - 1);
    }
  }

  lemma LimitIsExact<A(!new), E(!new)>(p: Program, c: Config, o: Oracle<A, E>, aux: E, s: State<A>, n: nat)
    requires NeverFails(o)
    ensures var e := Turns(p, c, o, Start(aux, s), n).env; e.failed <==> OverLimit(c, e) || InSecondSlot(p, e)
  {
    hide NeverFails, Turns;
    FailsIff(p, c, o, Start(aux, s), n);
  }

  // ---------------------------------------------------------------- when the round is stopped

  /** Whether transfer asks to stop the round depends on the state alone. */
  ghost predicate StopsBy<A(!new), E(!new)>(o: Oracle<A, E>, stops: State<A> -> bool) {
    forall e: E, ck: seq<Checkpoint<A>>, s: State<A> :: o.transfer(e, ck, s).stop <==> stops(s)
  }

  predicate Asked<A>(p: Program, stops: State<A> -> bool, visits: seq<State<A>>) {
    exists i :: 0 <= i < |visits| && visits[i].pc < p.len && stops(visits[i])
  }

  lemma AskedMore<A>(p: Program, stops: State<A> -> bool, visits: seq<State<A>>, s: State<A>)
    ensures Asked(p, stops, visits + [s]) <==> Asked(p, stops, visits) || (s.pc < p.len && stops(s))
  {
    var more := visits + [s];
    if Asked(p, stops, visits) {
      var i :| 0 <= i < |visits| && visits[i].pc < p.len && stops(visits[i]);
      assert more[i] == visits[i];
    }
    if s.pc < p.len && stops(s) { assert more[|visits|] == s; }
  }

  lemma ExpandedStopsIff<A(!new), E(!new)>(
      p: Program, c: Config, o: Oracle<A, E>, stops: State<A> -> bool, e: Env<A, E>, s: State<A>)
    requires StopsBy(o, stops) && !Expanded(p, c, o, e, s).env.failed
    ensures Expanded(p, c, o, e, s).env.stop <==> e.stop || (s.pc < p.len && stops(s))
  {
    hide Complete;
    assert o.transfer(e.aux, e.ckpts, s).stop <==> stops(s);
  }

  lemma ProcessStopsIff<A(!new), E(!new)>(
      p: Program, c: Config, o: Oracle<A, E>, stops: State<A> -> bool, e: Env<A, E>, s: State<A>)
    requires StopsBy(o, stops) && (e.stop <==> Asked(p, stops, e.visits)) && !Process(p, c, o, e, s).env.failed
    ensures var r := Process(p, c, o, e, s).env; r.stop <==> Asked(p, stops, r.visits)
  {
    hide StopsBy, Complete, Records, Expanded, Arrived, Demoted, Asked;
    var s1 := Arrived(p, o, s);
    var k := Looked(p, c, o, e.(arrivals := e.arrivals + [s1]), s1);
    if s1.pc !in p.invalid && !k.prune {
      var r := Checkpointed(p, c, k.env, k.state, k.active);
      ExpandedRecord(p, c, o, r.env, r.succs[0]);
      ExpandedStopsIff(p, c, o, stops, r.env, r.succs[0]);
      AskedMore(p, stops, e.visits, r.succs[0]);
    }
  }

  lemma {:induction false} TurnsStopIff<A(!new), E(!new)>(
      p: Program, c: Config, o: Oracle<A, E>, stops: State<A> -> bool, l: Loop<A, E>, n: nat)
    requires StopsBy(o, stops) && (l.env.stop <==> Asked(p, stops, l.env.visits))
    ensures var e := Turns(p, c, o, l, n).env; !e.failed ==> (e.stop <==> Asked(p, stops, e.visits))
    decreases n
  {
    hide StopsBy, Process, Pushed, Asked;
    if n > 0 && Live(l) {
      var s := l.pending[|l.pending| - 1];
      var l' := Turn(p, c, o, l);
      if l'.env.failed {
        assert Turns(p, c, o, l', n - 1) == l';
      } else {
        ProcessStopsIff(p, c, o, stops, l.env, s);
        TurnsStopIff(p, c, o, stops, l', n - 1);
      }
    }
  }

  /** The round is stopped exactly if transfer asked for it at some expanded instruction. */
  lemma StoppedIffAsked<A(!new), E(!new)>(
      p: Program, c: Config, o: Oracle<A, E>, stops: State<A> -> bool, aux: E, s: State<A>, n: nat)
    requires StopsBy(o, stops)
    ensures var e := Turns(p, c, o, Start(aux, s), n).env; !e.failed ==> (e.stop <==> Asked(p, stops, e.visits))
  {
    hide StopsBy, Turns;
    TurnsStopIff(p, c, o, stops, Start(aux, s), n);
  }

  // ---------------------------------------------------------------- what is expanded

  /** The value that pruning left of one that was demoted before, unless the kernel's arithmetic is followed. */
  ghost predicate Prepared<A(!new), E(!new)>(p: Program, c: Config, o: Oracle<A, E>, v: State<A>) {
    exists e: E, ck: seq<Checkpoint<A>>, s: State<A> :: PreparedFrom(p, c, o, v, e, ck, s)
  }

  ghost predicate PreparedFrom<A, E>(p: Program, c: Config, o: Oracle<A, E>, v: State<A>, e: E, ck: seq<Checkpoint<A>>, s: State<A>) {
    && s.pc == v.pc
    && v.abs == o.prune(e, ck, s.(abs := if c.kernelAlu || s.pc + 1 >= p.len then s.abs else o.demote(e, ck, s))).abs
  }

  ghost predicate AllPrepared<A(!new), E(!new)>(p: Program, c: Config, o: Oracle<A, E>, visits: seq<State<A>>) {
    forall i :: 0 <= i < |visits| ==> Prepared(p, c, o, visits[i])
  }

  lemma LookedPrepared<A(!new), E(!new)>(p: Program, c: Config, o: Oracle<A, E>, e: Env<A, E>, s: State<A>, v: State<A>)
    requires v.pc == s.pc && v.abs == Looked(p, c, o, e, s).state.abs
    ensures Prepared(p, c, o, v)
  {
    var abs := if c.kernelAlu || s.pc + 1 >= p.len then s.abs else o.demote(e.aux, e.ckpts, s);
    assert Demoted(p, c, o, e, s) == s.(abs := abs);
    assert PreparedFrom(p, c, o, v, e.aux, e.ckpts, s);
  }

  lemma ProcessPrepared<A(!new), E(!new)>(p: Program, c: Config, o: Oracle<A, E>, e: Env<A, E>, s: State<A>)
    requires AllPrepared(p, c, o, e.visits)
    ensures AllPrepared(p, c, o, Process(p, c, o, e, s).env.visits)
  {
    hide Complete, Records, Expanded, Arrived, Demoted, Prepared;
    var s1 := Arrived(p, o, s);
    var e1 := e.(arrivals := e.arrivals + [s1]);
    var k := Looked(p, c, o, e1, s1);
    var r := Checkpointed(p, c, k.env, k.state, k.active);
    ExpandedRecord(p, c, o, r.env, r.succs[0]);
    DemotedPc(p, c, o, e1, s1);
    LookedPrepared(p, c, o, e1, s1, r.succs[0]);
  }

  lemma DemotedPc<A, E>(p: Program, c: Config, o: Oracle<A, E>, e: Env<A, E>, s: State<A>)
    ensures Demoted(p, c, o, e, s).pc == s.pc
  {
  }

  lemma {:induction false} TurnsPrepared<A(!new), E(!new)>(p: Program, c: Config, o: Oracle<A, E>, l: Loop<A, E>, n: nat)
    requires AllPrepared(p, c, o, l.env.visits)
    ensures AllPrepared(p, c, o, Turns(p, c, o, l, n).env.visits)
    decreases n
  {
    hide AllPrepared, Process, Pushed;
    if n > 0 && Live(l) {
      ProcessPrepared(p, c, o, l.env, l.pending[|l.pending| - 1]);
      TurnsPrepared(p, c, o, Turn(p, c, o, l), n - 1);
    }
  }

  /** Every expanded value was first demoted, where that applies, and then went through pruning. */
  lemma ExpandedWasPrepared<A(!new), E(!new)>(p: Program, c: Config, o: Oracle<A, E>, aux: E, s: State<A>, n: nat, i: nat)
    requires i < |Turns(p, c, o, Start(aux, s), n).env.visits|
    ensures Prepared(p, c, o, Turns(p, c, o, Start(aux, s), n).env.visits[i])
  {
    hide Turns, Prepared;
    TurnsPrepared(p, c, o, Start(aux, s), n);
  }
}
