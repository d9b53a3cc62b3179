/**
 What the `branches` counters of the checkpoints count. At every loop head a counter is the
 number of pending states directly under its checkpoint, plus its child checkpoints that are
 still open, plus what has leaked there; nothing else ever changes a counter.
 */
module BranchCounters {
  import opened Words
  import opened Worklist

  /** Checkpoints directly under `i` whose counter is not zero. */
  function OpenKids<A>(ckpts: seq<Checkpoint<A>>, i: nat): nat {
    if ckpts == [] then 0
    else
      var c := ckpts[|ckpts| - 1];
      OpenKids(ckpts[..|ckpts| - 1], i) + if c.parent == Some(i) && c.branches > 0 then 1 else 0
  }

  /** The parents of the pending states. */
  function Parents<A>(wl: seq<State<A>>): multiset<nat> {
    if wl == [] then multiset{} else Parents(wl[..|wl| - 1]) + Owed(wl[|wl| - 1].parent)
  }

  predicate Backward<A>(ckpts: seq<Checkpoint<A>>) {
    forall i :: 0 <= i < |ckpts| && ckpts[i].parent.Some? ==> ckpts[i].parent.value < i
  }

  ghost predicate Within(m: multiset<nat>, n: nat) {
    forall i: nat :: n <= i ==> m[i] == 0
  }

  ghost predicate Balanced<A>(ckpts: seq<Checkpoint<A>>, pend: multiset<nat>, leaked: multiset<nat>) {
    && Backward(ckpts) && Within(pend, |ckpts|) && Within(leaked, |ckpts|)
    && forall i :: 0 <= i < |ckpts| ==> Adds(ckpts, pend, leaked, i)
  }

  predicate Adds<A>(ckpts: seq<Checkpoint<A>>, pend: multiset<nat>, leaked: multiset<nat>, i: nat)
    requires i < |ckpts|
  {
    ckpts[i].branches == pend[i] + OpenKids(ckpts, i) + leaked[i]
  }

  // ---------------------------------------------------------------- counting lemmas

  predicate CountsFor<A>(c: Checkpoint<A>, i: nat) {
    c.parent == Some(i) && c.branches > 0
  }

  lemma {:induction false} OpenKidsUpdate<A>(ckpts: seq<Checkpoint<A>>, j: nat, c: Checkpoint<A>, i: nat)
    requires j < |ckpts|
    ensures OpenKids(ckpts[j := c], i) + (if CountsFor(ckpts[j], i) then 1 else 0)
         == OpenKids(ckpts, i) + (if CountsFor(c, i) then 1 else 0)
  {
    var n := |ckpts| - 1;
    if j == n {
      assert ckpts[j := c][..n] == ckpts[..n];
    } else {
      OpenKidsUpdate(ckpts[..n], j, c, i);
      assert ckpts[j := c][..n] == ckpts[..n][j := c];
    }
  }

  lemma OpenKidsSnoc<A>(ckpts: seq<Checkpoint<A>>, c: Checkpoint<A>, i: nat)
    ensures OpenKids(ckpts + [c], i) == OpenKids(ckpts, i) + if CountsFor(c, i) then 1 else 0
  {
    var more := ckpts + [c];
    assert more[..|more| - 1] == ckpts && more[|more| - 1] == c;
  }

  lemma {:induction false} OpenKidsNone<A>(ckpts: seq<Checkpoint<A>>, i: nat)
    requires Backward(ckpts) && i >= |ckpts|
    ensures OpenKids(ckpts, i) == 0
  {
    if ckpts != [] { OpenKidsNone(ckpts[..|ckpts| - 1], i); }
  }

  lemma {:induction false} OpenKidExists<A>(ckpts: seq<Checkpoint<A>>, i: nat)
    ensures OpenKids(ckpts, i) > 0 <==> exists j :: 0 <= j < |ckpts| && CountsFor(ckpts[j], i)
  {
    if ckpts != [] {
      var n := |ckpts| - 1;
      OpenKidExists(ckpts[..n], i);
      if OpenKids(ckpts[..n], i) > 0 {
        var j :| 0 <= j < n && CountsFor(ckpts[..n][j], i);
        assert CountsFor(ckpts[j], i);
      }
      if j :| 0 <= j < |ckpts| && CountsFor(ckpts[j], i) {
        if j < n { assert CountsFor(ckpts[..n][j], i); }
      }
    }
  }

  lemma {:induction false} ParentsAppend<A>(a: seq<State<A>>, b: seq<State<A>>)
    ensures Parents(a + b) == Parents(a) + Parents(b)
  {
    hide Owed;
    if b == [] {
      assert a + b == a;
    } else {
      var n := |b| - 1;
      ParentsAppend(a, b[..n]);
      var ab := a + b;
      assert ab[..|ab| - 1] == a + b[..n] && ab[|ab| - 1] == b[n];
    }
  }

  lemma {:induction false} ParentsAlike<A>(wl: seq<State<A>>, parent: Option<nat>)
    requires forall i :: 0 <= i < |wl| ==> wl[i].parent == parent
    ensures Parents(wl) == Copies(parent, |wl|)
  {
    if wl != [] { ParentsAlike(wl[..|wl| - 1], parent); }
  }

  // ---------------------------------------------------------------- the three operations on counters

  /** A path death passes its one decrement up until it is absorbed, or leaks when the budget ends. */
  lemma {:induction false} CompleteKeepsBalance<A>(
      ckpts: seq<Checkpoint<A>>, at: Option<nat>, budget: nat, pend: multiset<nat>, leaked: multiset<nat>)
    requires Balanced(ckpts, pend + Owed(at), leaked)
    ensures var r := Complete(ckpts, at, budget); Balanced(r.ckpts, pend, leaked + Owed(r.leak))
    decreases budget
  {
    hide Balanced, Release;
    Settled(pend, leaked, at);
    if at.None? || budget == 0 {
      SameBalance(ckpts, pend + Owed(at), leaked, pend, leaked + Owed(at));
    } else {
      OwedInside(ckpts, pend, at.value, leaked);
      var c := Release(ckpts[at.value]);
      ReleaseKeepsBalance(ckpts, at.value, pend, leaked);
      if c.branches > 0 {
        assert pend + multiset{} == pend && leaked + Owed(None) == leaked;
      } else {
        CompleteKeepsBalance(ckpts[at.value := c], c.parent, budget - 1, pend, leaked);
      }
    }
  }

  lemma Settled(pend: multiset<nat>, leaked: multiset<nat>, at: Option<nat>)
    ensures forall i: nat :: (pend + Owed(at))[i] + leaked[i] == pend[i] + (leaked + Owed(at))[i]
  {
  }

  lemma OwedInside<A>(ckpts: seq<Checkpoint<A>>, pend: multiset<nat>, k: nat, leaked: multiset<nat>)
    requires Balanced(ckpts, pend + Owed(Some(k)), leaked)
    ensures k < |ckpts|
  {
    hide OpenKids;
    assert (pend + Owed(Some(k)))[k] > 0;
  }

  /** Only the sum of what is pending and what has leaked matters. */
  lemma SameBalance<A>(ckpts: seq<Checkpoint<A>>, p: multiset<nat>, l: multiset<nat>, p': multiset<nat>, l': multiset<nat>)
    requires Balanced(ckpts, p, l) && forall i: nat :: p[i] + l[i] == p'[i] + l'[i]
    ensures Balanced(ckpts, p', l')
  {
    hide OpenKids;
    forall i | 0 <= i < |ckpts| ensures Adds(ckpts, p', l', i) { assert Adds(ckpts, p, l, i); }
  }

  lemma ReleaseKeepsBalance<A>(ckpts: seq<Checkpoint<A>>, k: nat, pend: multiset<nat>, leaked: multiset<nat>)
    requires k < |ckpts| && Balanced(ckpts, pend + multiset{k}, leaked)
    ensures var c := Release(ckpts[k]);
            Balanced(ckpts[k := c], pend + (if c.branches > 0 then multiset{} else Owed(c.parent)), leaked)
  {
    hide Adds;
    var c := Release(ckpts[k]);
    var was, up, ckpts' := pend + multiset{k}, if c.branches > 0 then multiset{} else Owed(c.parent), ckpts[k := c];
    forall i | 0 <= i < |ckpts'| ensures Adds(ckpts', pend + up, leaked, i) { ReleaseAt(ckpts, k, pend, leaked, i); }
    forall i: nat | |ckpts'| <= i ensures (pend + up)[i] == 0 { assert was[i] == 0; }
  }

  lemma ReleaseAt<A>(ckpts: seq<Checkpoint<A>>, k: nat, pend: multiset<nat>, leaked: multiset<nat>, i: nat)
    requires k < |ckpts| && i < |ckpts| && (ckpts[k].parent.Some? ==> ckpts[k].parent.value < k)
    requires Adds(ckpts, pend + multiset{k}, leaked, k) && Adds(ckpts, pend + multiset{k}, leaked, i)
    ensures var c := Release(ckpts[k]);
            Adds(ckpts[k := c], pend + (if c.branches > 0 then multiset{} else Owed(c.parent)), leaked, i)
  {
    hide OpenKids;
    OpenKidsUpdate(ckpts, k, Release(ckpts[k]), i);
  }

  lemma RecordKeepsBalance<A>(
      ckpts: seq<Checkpoint<A>>, s: State<A>, pend: multiset<nat>, leaked: multiset<nat>)
    requires Balanced(ckpts, pend + Owed(s.parent), leaked)
    ensures Balanced(ckpts + [Checkpoint(s.pc, s.parent, 1, s.abs)], pend + Owed(Some(|ckpts|)), leaked)
  {
    hide Adds;
    var c := Checkpoint(s.pc, s.parent, 1, s.abs);
    var ckpts', n := ckpts + [c], |ckpts|;
    var was, pend' := pend + Owed(s.parent), pend + Owed(Some(n));
    forall i: nat | |ckpts'| <= i ensures pend'[i] == 0 { assert was[i] == 0; }
    assert was[n] == 0 && leaked[n] == 0;
    if s.parent.Some? { assert was[s.parent.value] > 0; }
    OpenKidsNone(ckpts, n);
    forall i | 0 <= i < |ckpts'| ensures Adds(ckpts', pend', leaked, i) { RecordAt(ckpts, c, pend, leaked, i); }
  }

  lemma RecordAt<A>(ckpts: seq<Checkpoint<A>>, c: Checkpoint<A>, pend: multiset<nat>, leaked: multiset<nat>, i: nat)
    requires i <= |ckpts| && c.branches == 1 && (c.parent.Some? ==> c.parent.value < |ckpts|)
    requires if i < |ckpts| then Adds(ckpts, pend + Owed(c.parent), leaked, i)
             else OpenKids(ckpts, i) == 0 && pend[i] == 0 && leaked[i] == 0
    ensures Adds(ckpts + [c], pend + Owed(Some(|ckpts|)), leaked, i)
  {
    hide OpenKids;
    OpenKidsSnoc(ckpts, c, i);
  }

  function Copies(parent: Option<nat>, n: nat): multiset<nat> {
    if parent.Some? then multiset{}[parent.value := n] else multiset{}
  }

  lemma ForkKeepsBalance<A>(
      ckpts: seq<Checkpoint<A>>, parent: Option<nat>, n: nat, pend: multiset<nat>, leaked: multiset<nat>)
    requires n > 0 && Balanced(ckpts, pend + Owed(parent), leaked)
    ensures Balanced(Forked(ckpts, parent, n), pend + Copies(parent, n), leaked)
  {
    hide Adds;
    var was, pend', ckpts' := pend + Owed(parent), pend + Copies(parent, n), Forked(ckpts, parent, n);
    if parent.Some? && n > 1 {
      assert was[parent.value] > 0;
      forall i | 0 <= i < |ckpts'| ensures Adds(ckpts', pend', leaked, i) { ForkAt(ckpts, parent.value, n, pend, leaked, i); }
      forall i: nat | |ckpts'| <= i ensures pend'[i] == 0 { assert was[i] == 0; }
    } else {
      SameBalance(ckpts, was, leaked, pend', leaked);
    }
  }

  lemma ForkAt<A>(ckpts: seq<Checkpoint<A>>, k: nat, n: nat, pend: multiset<nat>, leaked: multiset<nat>, i: nat)
    requires k < |ckpts| && i < |ckpts| && n > 1
    requires Adds(ckpts, pend + Owed(Some(k)), leaked, k) && Adds(ckpts, pend + Owed(Some(k)), leaked, i)
    ensures Adds(Forked(ckpts, Some(k), n), pend + Copies(Some(k), n), leaked, i)
  {
    hide OpenKids;
    OpenKidsUpdate(ckpts, k, Forked(ckpts, Some(k), n)[k], i);
  }

  // ---------------------------------------------------------------- whole runs

  ghost predicate Accounted<A, E>(l: Loop<A, E>) {
    Balanced(l.env.ckpts, Parents(l.pending), l.env.leaked)
  }

  lemma {:induction false} ChosenAlike<A>(flags: seq<bool>, succs: seq<State<A>>, which: bool, parent: Option<nat>)
    requires |flags| == |succs| && forall i :: 0 <= i < |succs| ==> succs[i].parent == parent
    ensures |Chosen(flags, succs, true)| + |Chosen(flags, succs, false)| == |succs|
    ensures forall i :: 0 <= i < |Chosen(flags, succs, which)| ==> Chosen(flags, succs, which)[i].parent == parent
  {
    if succs != [] { ChosenAlike(flags[1..], succs[1..], which, parent); }
  }

  /** Pushing reorders siblings, so it keeps the multiset of parents. */
  lemma PushedParents<A, E>(c: Config, o: Oracle<A, E>, aux: E, s: State<A>, succs: seq<State<A>>, parent: Option<nat>)
    requires forall i :: 0 <= i < |succs| ==> succs[i].parent == parent
    ensures Parents(Pushed(c, o, aux, s, succs)) == Copies(parent, |succs|)
  {
    var f := BackFlags(c, o, aux, s, succs);
    ChosenAlike(f, succs, true, parent);
    ChosenAlike(f, succs, false, parent);
    hide Chosen, Reversed;
    ParentsAlike(Pushed(c, o, aux, s, succs), parent);
  }

  lemma DiedKeepsBalance<A, E>(e: Env<A, E>, parent: Option<nat>, pend: multiset<nat>)
    requires Balanced(e.ckpts, pend + Owed(parent), e.leaked)
    ensures Balanced(Died(e, parent).ckpts, pend, Died(e, parent).leaked)
  {
    hide Balanced, Complete;
    CompleteKeepsBalance(e.ckpts, parent, WALK_BUDGET, pend, e.leaked);
  }

  lemma ExpandedKeepsBalance<A, E>(
      p: Program, c: Config, o: Oracle<A, E>, e: Env<A, E>, s: State<A>, pend: multiset<nat>)
    requires Balanced(e.ckpts, pend + Owed(s.parent), e.leaked)
    requires !Expanded(p, c, o, e, s).env.failed
    ensures var r := Expanded(p, c, o, e, s);
            && Balanced(r.env.ckpts, pend + Copies(s.parent, |r.succs|), r.env.leaked)
            && forall i :: 0 <= i < |r.succs| ==> r.succs[i].parent == s.parent
  {
    hide Balanced, Complete, Forked;
    var r := Expanded(p, c, o, e, s);
    assert pend + Copies(s.parent, 0) == pend;
    if s.pc >= p.len {
      LeakKeepsBalance(e.ckpts, pend, s.parent, e.leaked);
    } else {
      var n := |r.succs|;
      if n == 0 {
        assert Forked(e.ckpts, s.parent, 0) == e.ckpts by { ForkedNone(e.ckpts, s.parent); }
        DiedKeepsBalance(e, s.parent, pend);
      } else {
        ForkKeepsBalance(e.ckpts, s.parent, n, pend, e.leaked);
      }
    }
  }

  lemma ForkedNone<A>(ckpts: seq<Checkpoint<A>>, parent: Option<nat>)
    ensures Forked(ckpts, parent, 0) == ckpts
  {
  }

  /** Fetching past the end drops the path and keeps its count. */
  lemma LeakKeepsBalance<A>(ckpts: seq<Checkpoint<A>>, pend: multiset<nat>, at: Option<nat>, leaked: multiset<nat>)
    requires Balanced(ckpts, pend + Owed(at), leaked)
    ensures Balanced(ckpts, pend, leaked + Owed(at))
  {
    SameBalance(ckpts, pend + Owed(at), leaked, pend, leaked + Owed(at));
  }

  lemma ProcessKeepsBalance<A, E>(
      p: Program, c: Config, o: Oracle<A, E>, e: Env<A, E>, s: State<A>, pend: multiset<nat>)
    requires Balanced(e.ckpts, pend + Owed(s.parent), e.leaked) && !Process(p, c, o, e, s).env.failed
    ensures var r := Process(p, c, o, e, s);
            exists parent :: && Balanced(r.env.ckpts, pend + Copies(parent, |r.succs|), r.env.leaked)
                             && forall i :: 0 <= i < |r.succs| ==> r.succs[i].parent == parent
  {
    hide Balanced, Expanded, Complete, Records, Arrived, Demoted;
    var s1 := Arrived(p, o, s);
    ArrivedParent(p, o, s);
    var e1 := e.(arrivals := e.arrivals + [s1]);
    DemotedParent(p, c, o, e1, s1);
    var k := Looked(p, c, o, e1, s1);
    if k.prune {
      DiedKeepsBalance(k.env.(pruned := k.env.pruned + 1), k.state.parent, pend);
      assert pend + Copies(None, 0) == pend;
    } else {
      var r := Checkpointed(p, c, k.env, k.state, k.active);
      if Records(p, c, k.env, k.state, k.active) { RecordKeepsBalance(k.env.ckpts, k.state, pend, k.env.leaked); }
      ExpandedKeepsBalance(p, c, o, r.env, r.succs[0], pend);
    }
  }

  lemma ArrivedParent<A, E>(p: Program, o: Oracle<A, E>, s: State<A>)
    ensures Arrived(p, o, s).parent == s.parent
  {
  }

  lemma DemotedParent<A, E>(p: Program, c: Config, o: Oracle<A, E>, e: Env<A, E>, s: State<A>)
    ensures Demoted(p, c, o, e, s).parent == s.parent
  {
  }

  lemma TurnKeepsAccount<A, E>(p: Program, c: Config, o: Oracle<A, E>, l: Loop<A, E>)
    requires Live(l) && Accounted(l) && !Turn(p, c, o, l).env.failed
    ensures Accounted(Turn(p, c, o, l))
  {
    hide Balanced, Process, Pushed;
    var s, rest := l.pending[|l.pending| - 1], l.pending[..|l.pending| - 1];
    ProcessKeepsBalance(p, c, o, l.env, s, Parents(rest));
    var r := Process(p, c, o, l.env, s);
    var parent :| && Balanced(r.env.ckpts, Parents(rest) + Copies(parent, |r.succs|), r.env.leaked)
                  && forall i :: 0 <= i < |r.succs| ==> r.succs[i].parent == parent;
    PushedParents(c, o, r.env.aux, s, r.succs, parent);
    ParentsAppend(rest, Pushed(c, o, r.env.aux, s, r.succs));
  }

  /**
   Conservation at every loop head of every run: each counter is pending states plus open child
   checkpoints plus leaks, whatever the domain, the transfer functions and the pruning do.
   */
  lemma CountersAtEveryHead<A, E>(p: Program, c: Config, o: Oracle<A, E>, aux: E, s: State<A>, n: nat)
    requires s.parent == None
    ensures var l := Turns(p, c, o, Start(aux, s), n); !l.env.failed ==> Accounted(l)
  {
    var l := Start<A, E>(aux, s);
    assert [s][..0] == [];
    assert Parents([s]) == multiset{};
    TurnsKeepAccount(p, c, o, l, n);
  }

  lemma {:induction false} TurnsKeepAccount<A, E>(p: Program, c: Config, o: Oracle<A, E>, l: Loop<A, E>, n: nat)
    requires Accounted(l)
    ensures !Turns(p, c, o, l, n).env.failed ==> Accounted(Turns(p, c, o, l, n))
    decreases n
  {
    hide Accounted, Turn;
    if n > 0 && Live(l) {
      var l' := Turn(p, c, o, l);
      if l'.env.failed {
        assert Turns(p, c, o, l', n - 1) == l';
      } else {
        TurnKeepsAccount(p, c, o, l);
        TurnsKeepAccount(p, c, o, l', n - 1);
      }
    }
  }

  ghost predicate Exact<A>(ckpts: seq<Checkpoint<A>>, pend: multiset<nat>) {
    forall i :: 0 <= i < |ckpts| ==> ckpts[i].branches == pend[i] + OpenKids(ckpts, i)
  }

  /** The counters are exact precisely as long as nothing has leaked. */
  lemma ExactIffNoLeak<A>(ckpts: seq<Checkpoint<A>>, pend: multiset<nat>, leaked: multiset<nat>)
    requires Balanced(ckpts, pend, leaked)
    ensures Exact(ckpts, pend) <==> leaked == multiset{}
  {
    hide OpenKids;
    if Exact(ckpts, pend) {
      forall i: nat ensures leaked[i] == 0 {
        if i < |ckpts| { assert Adds(ckpts, pend, leaked, i); }
      }
      assert forall i :: i in leaked ==> leaked[i] > 0;
    }
    if leaked == multiset{} {
      forall i | 0 <= i < |ckpts| ensures ckpts[i].branches == pend[i] + OpenKids(ckpts, i) {
        assert Adds(ckpts, pend, leaked, i);
      }
    }
  }

  // ---------------------------------------------------------------- zero means finished

  /** `j` is `i` or has it among its ancestors. */
  predicate Under<A>(ckpts: seq<Checkpoint<A>>, j: nat, i: nat)
    requires Backward(ckpts) && j < |ckpts|
    decreases j
  {
    j == i || (ckpts[j].parent.Some? && Under(ckpts, ckpts[j].parent.value, i))
  }

  lemma {:induction false} OpenAbove<A>(ckpts: seq<Checkpoint<A>>, pend: multiset<nat>, leaked: multiset<nat>, j: nat, i: nat)
    requires Balanced(ckpts, pend, leaked) && j < |ckpts| && ckpts[j].branches > 0 && Under(ckpts, j, i)
    ensures i < |ckpts| && ckpts[i].branches > 0
    decreases j
  {
    if j != i {
      var k := ckpts[j].parent.value;
      assert CountsFor(ckpts[j], k);
      OpenKidExists(ckpts, k);
      assert Adds(ckpts, pend, leaked, k);
      OpenAbove(ckpts, pend, leaked, k, i);
    }
  }

  lemma {:induction false} OpenHasCause<A>(ckpts: seq<Checkpoint<A>>, pend: multiset<nat>, leaked: multiset<nat>, i: nat) returns (j: nat)
    requires Balanced(ckpts, pend, leaked) && i < |ckpts| && ckpts[i].branches > 0
    ensures j < |ckpts| && j in pend + leaked && Under(ckpts, j, i)
    decreases |ckpts| - i
  {
    assert Adds(ckpts, pend, leaked, i);
    if pend[i] + leaked[i] > 0 {
      j := i;
    } else {
      OpenKidExists(ckpts, i);
      var k :| 0 <= k < |ckpts| && CountsFor(ckpts[k], i);
      j := OpenHasCause(ckpts, pend, leaked, k);
      UnderTransitive(ckpts, j, k, i);
    }
  }

  lemma {:induction false} UnderTransitive<A>(ckpts: seq<Checkpoint<A>>, j: nat, k: nat, i: nat)
    requires Backward(ckpts) && j < |ckpts| && k < |ckpts| && Under(ckpts, j, k) && Under(ckpts, k, i)
    ensures Under(ckpts, j, i)
    decreases j
  {
    if j != k { UnderTransitive(ckpts, ckpts[j].parent.value, k, i); }
  }

  /** While exact, a counter is zero exactly when no pending state is left in its subtree. */
  lemma ZeroIffSubtreeFinished<A>(ckpts: seq<Checkpoint<A>>, pend: multiset<nat>, i: nat)
    requires Balanced(ckpts, pend, multiset{}) && i < |ckpts|
    ensures ckpts[i].branches == 0 <==> forall j :: j in pend ==> j < |ckpts| && !Under(ckpts, j, i)
  {
    forall j | j in pend ensures j < |ckpts| && ckpts[j].branches > 0 {
      assert pend[j] > 0;
      if j < |ckpts| { assert Adds(ckpts, pend, multiset{}, j); }
    }
    if ckpts[i].branches > 0 {
      var j := OpenHasCause(ckpts, pend, multiset{}, i);
      assert j in pend;
    } else {
      forall j | j in pend ensures !Under(ckpts, j, i) {
        if Under(ckpts, j, i) { OpenAbove(ckpts, pend, multiset{}, j, i); }
      }
    }
  }

  // ---------------------------------------------------------------- when a path death leaks

  /** How many checkpoints a path death has to touch: up to the first that stays open. */
  function WalkLength<A>(ckpts: seq<Checkpoint<A>>, at: Option<nat>): nat
    requires Backward(ckpts) && (at.Some? ==> at.value < |ckpts|)
    decreases if at.Some? then at.value + 1 else 0
  {
    if at.None? then 0
    else if ckpts[at.value].branches > 1 then 1
    else 1 + WalkLength(ckpts, ckpts[at.value].parent)
  }

  lemma {:induction false} WalkLengthBelow<A>(ckpts: seq<Checkpoint<A>>, ckpts': seq<Checkpoint<A>>, at: Option<nat>, k: nat)
    requires Backward(ckpts) && Backward(ckpts') && |ckpts| == |ckpts'| && k <= |ckpts|
    requires (at.Some? ==> at.value < k) && forall i :: 0 <= i < k ==> ckpts[i] == ckpts'[i]
    ensures WalkLength(ckpts, at) == WalkLength(ckpts', at)
    decreases if at.Some? then at.value + 1 else 0
  {
    if at.Some? && ckpts[at.value].branches <= 1 { WalkLengthBelow(ckpts, ckpts', ckpts[at.value].parent, k); }
  }

  /** The 16384-checkpoint budget suffices exactly for walks no longer than that. */
  lemma {:induction false} LeaksIffWalkTooLong<A>(ckpts: seq<Checkpoint<A>>, at: Option<nat>, budget: nat)
    requires Backward(ckpts) && (at.Some? ==> at.value < |ckpts|)
    ensures Complete(ckpts, at, budget).leak.None? <==> WalkLength(ckpts, at) <= budget
    decreases budget
  {
    if at.Some? && budget > 0 {
      var c := Release(ckpts[at.value]);
      var ckpts' := ckpts[at.value := c];
      if c.branches == 0 {
        LeaksIffWalkTooLong(ckpts', c.parent, budget - 1);
        WalkLengthBelow(ckpts, ckpts', c.parent, at.value);
      }
    }
  }

  lemma {:induction false} WalkWithinTable<A>(ckpts: seq<Checkpoint<A>>, at: Option<nat>)
    requires Backward(ckpts) && (at.Some? ==> at.value < |ckpts|)
    ensures WalkLength(ckpts, at) <= if at.Some? then at.value + 1 else 0
    decreases if at.Some? then at.value + 1 else 0
  {
    if at.Some? && ckpts[at.value].branches <= 1 { WalkWithinTable(ckpts, ckpts[at.value].parent); }
  }

  lemma DiedKeepsLeaks<A, E>(e: Env<A, E>, parent: Option<nat>, pend: multiset<nat>)
    requires Balanced(e.ckpts, pend + Owed(parent), e.leaked) && |e.ckpts| <= WALK_BUDGET
    ensures Died(e, parent).leaked == e.leaked
  {
    if parent.Some? { assert (pend + Owed(parent))[parent.value] > 0; }
    hide Complete;
    WalkWithinTable(e.ckpts, parent);
    LeaksIffWalkTooLong(e.ckpts, parent, WALK_BUDGET);
  }

  /** One turn inside the program and within the budget loses no count. */
  lemma ProcessKeepsLeaks<A, E>(
      p: Program, c: Config, o: Oracle<A, E>, e: Env<A, E>, s: State<A>, pend: multiset<nat>)
    requires Balanced(e.ckpts, pend + Owed(s.parent), e.leaked) && !Process(p, c, o, e, s).env.failed
    requires var r := Process(p, c, o, e, s).env; InRange(p, r.visits) && |r.ckpts| <= WALK_BUDGET
    ensures Process(p, c, o, e, s).env.leaked == e.leaked
  {
    hide Balanced, Complete, Records, Arrived, Demoted, Expanded;
    var s1 := Arrived(p, o, s);
    ArrivedParent(p, o, s);
    var e1 := e.(arrivals := e.arrivals + [s1]);
    DemotedParent(p, c, o, e1, s1);
    var k := Looked(p, c, o, e1, s1);
    if k.prune {
      DiedKeepsLeaks(k.env.(pruned := k.env.pruned + 1), k.state.parent, pend);
    } else {
      var r := Checkpointed(p, c, k.env, k.state, k.active);
      if Records(p, c, k.env, k.state, k.active) { RecordKeepsBalance(k.env.ckpts, k.state, pend, k.env.leaked); }
      ExpandedKeepsLeaks(p, c, o, r.env, r.succs[0], pend);
    }
  }

  lemma ExpandedKeepsLeaks<A, E>(
      p: Program, c: Config, o: Oracle<A, E>, e: Env<A, E>, s: State<A>, pend: multiset<nat>)
    requires Balanced(e.ckpts, pend + Owed(s.parent), e.leaked) && !Expanded(p, c, o, e, s).env.failed
    requires var r := Expanded(p, c, o, e, s).env; InRange(p, r.visits) && |r.ckpts| <= WALK_BUDGET
    ensures Expanded(p, c, o, e, s).env.leaked == e.leaked
  {
    hide Balanced, Complete;
    assert Expanded(p, c, o, e, s).env.visits[|e.visits|] == s;
    if Expanded(p, c, o, e, s).succs == [] { DiedKeepsLeaks(e, s.parent, pend); }
  }

  /** What is recorded of a run is never taken back. */
  lemma TurnGrows<A, E>(p: Program, c: Config, o: Oracle<A, E>, l: Loop<A, E>)
    requires Live(l)
    ensures var e := Turn(p, c, o, l).env; l.env.visits <= e.visits && |l.env.ckpts| <= |e.ckpts|
  {
    hide Process, Pushed;
    ProcessGrows(p, c, o, l.env, l.pending[|l.pending| - 1]);
  }

  lemma ProcessGrows<A, E>(p: Program, c: Config, o: Oracle<A, E>, e: Env<A, E>, s: State<A>)
    ensures var r := Process(p, c, o, e, s).env; e.visits <= r.visits && |e.ckpts| <= |r.ckpts|
  {
    hide Arrived, Demoted, Records, Complete, Expanded;
    var s1 := Arrived(p, o, s);
    var k := Looked(p, c, o, e.(arrivals := e.arrivals + [s1]), s1);
    var r := Checkpointed(p, c, k.env, k.state, k.active);
    ExpandedGrows(p, c, o, r.env, r.succs[0]);
  }

  lemma ExpandedGrows<A, E>(p: Program, c: Config, o: Oracle<A, E>, e: Env<A, E>, s: State<A>)
    ensures var r := Expanded(p, c, o, e, s).env; r.visits == e.visits + [s] && |e.ckpts| == |r.ckpts|
  {
    hide Complete;
  }

  lemma {:induction false} TurnsGrow<A, E>(p: Program, c: Config, o: Oracle<A, E>, l: Loop<A, E>, n: nat)
    ensures var e := Turns(p, c, o, l, n).env; l.env.visits <= e.visits && |l.env.ckpts| <= |e.ckpts|
    decreases n
  {
    hide Turn;
    if n > 0 && Live(l) {
      TurnGrows(p, c, o, l);
      TurnsGrow(p, c, o, Turn(p, c, o, l), n - 1);
    }
  }

  lemma {:induction false} TurnsKeepLeaks<A, E>(p: Program, c: Config, o: Oracle<A, E>, l: Loop<A, E>, n: nat)
    requires Accounted(l)
    requires var e := Turns(p, c, o, l, n).env; !e.failed && InRange(p, e.visits) && |e.ckpts| <= WALK_BUDGET
    ensures Turns(p, c, o, l, n).env.leaked == l.env.leaked
    decreases n
  {
    hide Balanced, Process, Pushed, Complete;
    if n > 0 && Live(l) {
      var l' := Turn(p, c, o, l);
      TurnsGrow(p, c, o, l', n - 1);
      var s, rest := l.pending[|l.pending| - 1], l.pending[..|l.pending| - 1];
      ProcessKeepsLeaks(p, c, o, l.env, s, Parents(rest));
      TurnKeepsAccount(p, c, o, l);
      TurnsKeepLeaks(p, c, o, l', n - 1);
    }
  }

  /**
   As long as every visited pc lies in the program and there are no more checkpoints than the
   walk budget, each counter is exactly pending states plus open child checkpoints.
   */
  lemma ExactWhileInRange<A, E>(p: Program, c: Config, o: Oracle<A, E>, aux: E, s: State<A>, n: nat)
    requires s.parent == None
    requires var e := Turns(p, c, o, Start(aux, s), n).env;
             !e.failed && InRange(p, e.visits) && |e.ckpts| <= WALK_BUDGET
    ensures var l := Turns(p, c, o, Start(aux, s), n); Exact(l.env.ckpts, Parents(l.pending))
  {
    hide Turns, Exact;
    var l := Start<A, E>(aux, s);
    assert [s][..0] == [];
    assert Parents([s]) == multiset{};
    CountersAtEveryHead(p, c, o, aux, s, n);
    TurnsKeepLeaks(p, c, o, l, n);
    var l' := Turns(p, c, o, l, n);
    ExactIffNoLeak(l'.env.ckpts, Parents(l'.pending), l'.env.leaked);
  }

  // ---------------------------------------------------------------- exactly when counts are lost

  /** Ending a path under `parent` has to touch more checkpoints than one walk visits. */
  predicate LongWalk<A>(ckpts: seq<Checkpoint<A>>, parent: Option<nat>) {
    Backward(ckpts) && (parent.Some? ==> parent.value < |ckpts|) && WalkLength(ckpts, parent) > WALK_BUDGET
  }

  /** The guard: a fetch past the end under some checkpoint, or a path that ends at the end of a long walk. */
  predicate ExpansionLeaks<A, E>(p: Program, o: Oracle<A, E>, e: Env<A, E>, s: State<A>) {
    if s.pc >= p.len then s.parent.Some?
    else o.transfer(e.aux, e.ckpts, s).succs == [] && LongWalk(e.ckpts, s.parent)
  }

  predicate Leaks<A, E>(p: Program, c: Config, o: Oracle<A, E>, e: Env<A, E>, s: State<A>) {
    var s1 := Arrived(p, o, s);
    var k := Looked(p, c, o, e.(arrivals := e.arrivals + [s1]), s1);
    if k.prune then LongWalk(k.env.ckpts, k.state.parent)
    else
      var r := Checkpointed(p, c, k.env, k.state, k.active);
      ExpansionLeaks(p, o, r.env, r.succs[0])
  }

  lemma OwedIsMore(leaked: multiset<nat>, at: Option<nat>)
    ensures leaked <= leaked + Owed(at) && (leaked + Owed(at) == leaked <==> at.None?)
  {
    if at.Some? { assert (leaked + Owed(at))[at.value] == leaked[at.value] + 1; }
  }

  lemma DiedLeaksIff<A, E>(e: Env<A, E>, parent: Option<nat>, pend: multiset<nat>)
    requires Balanced(e.ckpts, pend + Owed(parent), e.leaked)
    ensures e.leaked <= Died(e, parent).leaked
    ensures Died(e, parent).leaked == e.leaked <==> !LongWalk(e.ckpts, parent)
  {
    hide Complete, WalkLength;
    if parent.Some? { assert (pend + Owed(parent))[parent.value] > 0; }
    LeaksIffWalkTooLong(e.ckpts, parent, WALK_BUDGET);
    OwedIsMore(e.leaked, Complete(e.ckpts, parent, WALK_BUDGET).leak);
  }

  lemma ExpandedLeaksIff<A, E>(
      p: Program, c: Config, o: Oracle<A, E>, e: Env<A, E>, s: State<A>, pend: multiset<nat>)
    requires Balanced(e.ckpts, pend + Owed(s.parent), e.leaked) && !Expanded(p, c, o, e, s).env.failed
    ensures e.leaked <= Expanded(p, c, o, e, s).env.leaked
    ensures Expanded(p, c, o, e, s).env.leaked == e.leaked <==> !ExpansionLeaks(p, o, e, s)
  {
    hide Balanced, Complete, LongWalk;
    OwedIsMore(e.leaked, s.parent);
    DiedLeaksIff(e, s.parent, pend);
  }

  lemma ProcessLeaksIff<A, E>(
      p: Program, c: Config, o: Oracle<A, E>, e: Env<A, E>, s: State<A>, pend: multiset<nat>)
    requires Balanced(e.ckpts, pend + Owed(s.parent), e.leaked) && !Process(p, c, o, e, s).env.failed
    ensures e.leaked <= Process(p, c, o, e, s).env.leaked
    ensures Process(p, c, o, e, s).env.leaked == e.leaked <==> !Leaks(p, c, o, e, s)
  {
    hide Balanced, Complete, Records, Arrived, Demoted, Expanded, ExpansionLeaks, LongWalk;
    var s1 := Arrived(p, o, s);
    ArrivedParent(p, o, s);
    var e1 := e.(arrivals := e.arrivals + [s1]);
    DemotedParent(p, c, o, e1, s1);
    var k := Looked(p, c, o, e1, s1);
    if k.prune {
      DiedLeaksIff(k.env.(pruned := k.env.pruned + 1), k.state.parent, pend);
    } else {
      var r := Checkpointed(p, c, k.env, k.state, k.active);
      if Records(p, c, k.env, k.state, k.active) { RecordKeepsBalance(k.env.ckpts, k.state, pend, k.env.leaked); }
      ExpandedLeaksIff(p, c, o, r.env, r.succs[0], pend);
    }
  }

  /** None of the first `n` turns meets the guard. */
  predicate LeakFree<A, E>(p: Program, c: Config, o: Oracle<A, E>, l: Loop<A, E>, n: nat)
    decreases n
  {
    n == 0 || !Live(l)
    || (!Leaks(p, c, o, l.env, l.pending[|l.pending| - 1]) && LeakFree(p, c, o, Turn(p, c, o, l), n - 1))
  }

  lemma {:induction false} TurnsLeakIff<A, E>(p: Program, c: Config, o: Oracle<A, E>, l: Loop<A, E>, n: nat)
    requires Accounted(l) && !Turns(p, c, o, l, n).env.failed
    ensures l.env.leaked <= Turns(p, c, o, l, n).env.leaked
    ensures Turns(p, c, o, l, n).env.leaked == l.env.leaked <==> LeakFree(p, c, o, l, n)
    decreases n
  {
    hide Balanced, Process, Pushed, Leaks;
    if n > 0 && Live(l) {
      var l' := Turn(p, c, o, l);
      NotFailedYet(p, c, o, l', n - 1);
      var s, rest := l.pending[|l.pending| - 1], l.pending[..|l.pending| - 1];
      ProcessLeaksIff(p, c, o, l.env, s, Parents(rest));
      TurnKeepsAccount(p, c, o, l);
      TurnsLeakIff(p, c, o, l', n - 1);
    }
  }

  lemma NotFailedYet<A, E>(p: Program, c: Config, o: Oracle<A, E>, l: Loop<A, E>, n: nat)
    requires !Turns(p, c, o, l, n).env.failed
    ensures !l.env.failed
  {
    hide Turn;
  }

  /**
   At every loop head of every run the counters are exact if and only if no turn so far dropped a
   path by fetching past the end, nor ended one whose walk is longer than the budget.
   */
  lemma ExactIffNoTurnLeaks<A, E>(p: Program, c: Config, o: Oracle<A, E>, aux: E, s: State<A>, n: nat)
    requires s.parent == None && !Turns(p, c, o, Start(aux, s), n).env.failed
    ensures var l := Turns(p, c, o, Start(aux, s), n);
            Exact(l.env.ckpts, Parents(l.pending)) <==> LeakFree(p, c, o, Start(aux, s), n)
  {
    hide Turns, Exact, LeakFree;
    var l := Start<A, E>(aux, s);
    assert [s][..0] == [];
    assert Parents([s]) == multiset{};
    CountersAtEveryHead(p, c, o, aux, s, n);
    TurnsLeakIff(p, c, o, l, n);
    var l' := Turns(p, c, o, l, n);
    ExactIffNoLeak(l'.env.ckpts, Parents(l'.pending), l'.env.leaked);
  }

  /**
   At every loop head that no leak precedes, a counter is zero exactly when no pending state is left
   in the subtree of its checkpoint.
   */
  lemma ZeroIffFinishedAtEveryHead<A, E>(p: Program, c: Config, o: Oracle<A, E>, aux: E, s: State<A>, n: nat, i: nat)
    requires s.parent == None && !Turns(p, c, o, Start(aux, s), n).env.failed && LeakFree(p, c, o, Start(aux, s), n)
    requires i < |Turns(p, c, o, Start(aux, s), n).env.ckpts|
    ensures var l := Turns(p, c, o, Start(aux, s), n);
            && Backward(l.env.ckpts)
            && (l.env.ckpts[i].branches == 0
                <==> forall j :: j in Parents(l.pending) ==> j < |l.env.ckpts| && !Under(l.env.ckpts, j, i))
  {
    hide Turns, Exact, LeakFree, Parents, OpenKids;
    ExactIffNoTurnLeaks(p, c, o, aux, s, n);
    CountersAtEveryHead(p, c, o, aux, s, n);
    var l := Turns(p, c, o, Start(aux, s), n);
    ExactIffNoLeak(l.env.ckpts, Parents(l.pending), l.env.leaked);
    ZeroIffSubtreeFinished(l.env.ckpts, Parents(l.pending), i);
  }

  // ---------------------------------------------------------------- runs that stay in the program

  /** A path ends in this turn, and ending it takes more than one walk. */
  predicate EndsLong<A, E>(p: Program, c: Config, o: Oracle<A, E>, e: Env<A, E>, s: State<A>) {
    var s1 := Arrived(p, o, s);
    var k := Looked(p, c, o, e.(arrivals := e.arrivals + [s1]), s1);
    if k.prune then LongWalk(k.env.ckpts, k.state.parent)
    else
      var r := Checkpointed(p, c, k.env, k.state, k.active);
      var s' := r.succs[0];
      o.transfer(r.env.aux, r.env.ckpts, s').succs == [] && LongWalk(r.env.ckpts, s'.parent)
  }

  /** None of the first `n` turns ends a path under too long a chain of checkpoints. */
  predicate WalksFit<A, E>(p: Program, c: Config, o: Oracle<A, E>, l: Loop<A, E>, n: nat)
    decreases n
  {
    n == 0 || !Live(l)
    || (!EndsLong(p, c, o, l.env, l.pending[|l.pending| - 1]) && WalksFit(p, c, o, Turn(p, c, o, l), n - 1))
  }

  lemma LeaksIffEndsLong<A, E>(p: Program, c: Config, o: Oracle<A, E>, e: Env<A, E>, s: State<A>)
    requires s.pc < p.len
    ensures Leaks(p, c, o, e, s) <==> EndsLong(p, c, o, e, s)
  {
    hide LongWalk, Records;
  }

  // ---------------------------------------------------------------- a run that leaks

  /** `n` instructions in a row, each its own checkpoint, the last one an exit. */
  function StraightLine(n: nat): Oracle<(), ()> {
    Oracle(
      (s: State<()>) => false,
      (e: (), ck: seq<Checkpoint<()>>, s: State<()>) => (),
      (e: (), ck: seq<Checkpoint<()>>, s: State<()>) => Pruning(false, false, false, (), ()),
      (e: (), ck: seq<Checkpoint<()>>, s: State<()>) =>
        Transfer(if s.pc + 1 < n then [Succ(s.pc + 1, s.history, ())] else [], false, false, ()),
      (e: (), s: State<()>, t: Succ<()>) => false)
  }

  /** `n` slots, all of them instructions, none of them the target of a branch. */
  predicate Line(p: Program, n: nat) {
    p.len == n && p.invalid == {} && p.jmpPoint == {}
  }

  function Above(k: nat): Option<nat> {
    if k == 0 then None else Some(k - 1)
  }

  function Chain(k: nat): (r: seq<Checkpoint<()>>)
    ensures |r| == k && forall i :: 0 <= i < k ==> r[i] == Checkpoint(i, Above(i), 1, ())
  {
    seq(k, i requires 0 <= i < k => Checkpoint(i, Above(i), 1, ()))
  }

  const DENSE := Config(false, false, true, 1_000_000, 4_000_000)

  predicate OnTheLine(l: Loop<(), ()>, k: nat) {
    && l.pending == [State(k, Above(k), 0, ())] && l.env.ckpts == Chain(k)
    && !l.env.failed && !l.env.stop && l.env.insns == k && l.env.leaked == multiset{}
  }

  lemma LineTurn(p: Program, l: Loop<(), ()>, k: nat, n: nat)
    requires k < n <= 1_000_000 && Line(p, n) && OnTheLine(l, k)
    ensures var l' := Turn(p, DENSE, StraightLine(n), l);
            if k + 1 < n then OnTheLine(l', k + 1)
            else l'.pending == [] && l'.env.leaked == Owed(Complete(Chain(n), Some(n - 1), WALK_BUDGET).leak)
                 && !l'.env.failed
  {
    var o, s := StraightLine(n), State(k, Above(k), 0, ());
    assert l.pending[..0] == [];
    LineProcess(p, l.env, k, n);
    hide Complete, Process, StraightLine, Chain, Pushed;
    var r := Process(p, DENSE, o, l.env, s);
    if k + 1 < n { PushedOne(p, DENSE, o, r.env.aux, s, r.succs[0]); }
    else { PushedNone(DENSE, o, r.env.aux, s); }
  }

  lemma LineProcess(p: Program, e: Env<(), ()>, k: nat, n: nat)
    requires k < n <= 1_000_000 && Line(p, n)
    requires e.ckpts == Chain(k) && !e.failed && !e.stop && e.insns == k && e.leaked == multiset{}
    ensures var r := Process(p, DENSE, StraightLine(n), e, State(k, Above(k), 0, ()));
            && !r.env.failed && !r.env.stop && r.env.insns == k + 1
            && (k + 1 < n ==> r.succs == [State(k + 1, Above(k + 1), 0, ())]
                              && r.env.ckpts == Chain(k + 1) && r.env.leaked == multiset{})
            && (k + 1 == n ==> r.succs == []
                               && r.env.leaked == Owed(Complete(Chain(n), Some(n - 1), WALK_BUDGET).leak))
  {
    hide Complete, Looked, Checkpointed, Expanded, Chain, StraightLine;
    var o, s := StraightLine(n), State(k, Above(k), 0, ());
    LineArrives(p, k, n);
    var e1 := e.(arrivals := e.arrivals + [s]);
    var look := Looked(p, DENSE, o, e1, s);
    LineLooks(p, e1, k, n);
    var r := Checkpointed(p, DENSE, look.env, look.state, look.active);
    LineRecords(p, look.env, k, look.active);
    LineExpands(p, r.env, k, n);
  }

  lemma LineArrives(p: Program, k: nat, n: nat)
    requires Line(p, n)
    ensures var s := State(k, Above(k), 0, ()); Arrived(p, StraightLine(n), s) == s && s.pc !in p.invalid
  {
  }

  lemma LineLooks(p: Program, e: Env<(), ()>, k: nat, n: nat)
    ensures var s := State(k, Above(k), 0, ());
            var look := Looked(p, DENSE, StraightLine(n), e, s);
            && look.state == s && !look.prune && look.env.ckpts == e.ckpts && look.env.insns == e.insns + 1
            && look.env.failed == e.failed && look.env.stop == e.stop && look.env.leaked == e.leaked
  {
  }

  lemma LineRecords(p: Program, e: Env<(), ()>, k: nat, active: bool)
    requires e.ckpts == Chain(k)
    ensures var r := Checkpointed(p, DENSE, e, State(k, Above(k), 0, ()), active);
            && r.succs[0] == State(k, Some(k), 0, ()) && r.env.ckpts == Chain(k + 1)
            && r.env.failed == e.failed && r.env.stop == e.stop && r.env.insns == e.insns && r.env.leaked == e.leaked
  {
    var r := Checkpointed(p, DENSE, e, State(k, Above(k), 0, ()), active);
    assert r.env.ckpts == Chain(k + 1);
  }

  lemma LineExpands(p: Program, e: Env<(), ()>, k: nat, n: nat)
    requires k < n <= 1_000_000 && Line(p, n)
    requires e.ckpts == Chain(k + 1) && !e.failed && !e.stop && e.insns == k + 1 && e.leaked == multiset{}
    ensures var r := Expanded(p, DENSE, StraightLine(n), e, State(k, Some(k), 0, ()));
            && !r.env.failed && !r.env.stop && r.env.insns == k + 1
            && (k + 1 < n ==> r.succs == [State(k + 1, Above(k + 1), 0, ())]
                              && r.env.ckpts == Chain(k + 1) && r.env.leaked == multiset{})
            && (k + 1 == n ==> r.succs == []
                               && r.env.leaked == Owed(Complete(Chain(n), Some(n - 1), WALK_BUDGET).leak))
  {
    hide Complete, Chain;
    var done := Expanded(p, DENSE, StraightLine(n), e, State(k, Some(k), 0, ()));
    if k + 1 < n { assert done.succs == [State(k + 1, Above(k + 1), 0, ())]; }
    else { assert done.succs == [] && done.env == Died(done.env.(ckpts := Chain(n), leaked := multiset{}), Some(k)); }
  }

  lemma PushedNone<A, E>(c: Config, o: Oracle<A, E>, aux: E, s: State<A>)
    ensures Pushed(c, o, aux, s, []) == []
  {
  }

  lemma PushedOne<A, E>(p: Program, c: Config, o: Oracle<A, E>, aux: E, s: State<A>, t: State<A>)
    ensures Pushed(c, o, aux, s, [t]) == [t]
  {
    var f, one := BackFlags(c, o, aux, s, [t]), [t];
    hide BackFlags;
    assert one[1..] == [] && f[1..] == [];
    assert Chosen(f[1..], one[1..], true) == [] && Chosen(f[1..], one[1..], false) == [];
    var yes, no := if f[0] then one else [], if f[0] then [] else one;
    assert Chosen(f, one, true) == yes + [] == yes && Chosen(f, one, false) == no + [] == no;
    assert Reversed(no) == no;
  }

  lemma {:induction false} ChainWalk(n: nat, k: nat)
    requires k <= n
    ensures Backward(Chain(n)) && WalkLength(Chain(n), Above(k)) == k
  {
    if k > 0 { ChainWalk(n, k - 1); }
  }

  lemma {:induction false} LineTurns(p: Program, l: Loop<(), ()>, k: nat, n: nat)
    requires k < n <= 1_000_000 && Line(p, n) && OnTheLine(l, k)
    ensures var l' := Turns(p, DENSE, StraightLine(n), l, n - k);
            && l'.pending == [] && !l'.env.failed
            && l'.env.leaked == Owed(Complete(Chain(n), Some(n - 1), WALK_BUDGET).leak)
    decreases n - k
  {
    hide Turn, Complete, StraightLine, Chain;
    LineTurn(p, l, k, n);
    if k + 1 < n { LineTurns(p, Turn(p, DENSE, StraightLine(n), l), k + 1, n); }
  }

  /**
   Exactness fails on a reachable state: in dense mode a straight-line program of `n` instructions
   ends with exact counters if and only if `n` is at most the walk budget.
   */
  lemma StraightLineExactIffShort(p: Program, n: nat)
    requires 1 <= n <= 1_000_000 && Line(p, n)
    ensures var l := Turns(p, DENSE, StraightLine(n), Start((), State(0, None, 0, ())), n);
            && l.pending == [] && !l.env.failed
            && (Exact(l.env.ckpts, Parents(l.pending)) <==> n <= 16_384)
  {
    hide Turns, Complete, StraightLine, Exact;
    var s := State(0, None, 0, ());
    LineTurns(p, Start((), s), 0, n);
    CountersAtEveryHead(p, DENSE, StraightLine(n), (), s, n);
    var l := Turns(p, DENSE, StraightLine(n), Start((), s), n);
    ExactIffNoLeak(l.env.ckpts, Parents(l.pending), l.env.leaked);
    ChainWalk(n, n);
    LeaksIffWalkTooLong(Chain(n), Some(n - 1), WALK_BUDGET);
  }
}
