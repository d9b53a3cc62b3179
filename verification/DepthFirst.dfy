/**
 With the kernel's push order the explicit stack is depth-first search: the loop leaves the same
 environment, with the same arrivals in the same order, as a recursion that visits a state and
 then its successors in transfer order, threading the environment through.
 */
module DepthFirst {
  import opened Worklist

  function Visit<A, E>(p: Program, c: Config, o: Oracle<A, E>, e: Env<A, E>, s: State<A>): (r: Env<A, E>)
    ensures e.insns <= r.insns
    decreases Budget(c, e), 1, 0
  {
    if e.failed || e.stop then e
    else
      var r := Process(p, c, o, e, s);
      InsnsGrow(p, c, o, e, s);
      VisitAll(p, c, o, r.env, r.succs)
  }

  function VisitAll<A, E>(p: Program, c: Config, o: Oracle<A, E>, e: Env<A, E>, ss: seq<State<A>>): (r: Env<A, E>)
    ensures e.insns <= r.insns
    decreases Budget(c, e), |ss|, 1
  {
    if ss == [] then e else VisitAll(p, c, o, Visit(p, c, o, e, ss[0]), ss[1..])
  }

  lemma InsnsGrow<A, E>(p: Program, c: Config, o: Oracle<A, E>, e: Env<A, E>, s: State<A>)
    ensures e.insns <= Process(p, c, o, e, s).env.insns
  {
    hide Complete;
  }

  lemma {:induction false} ChosenAll<A>(flags: seq<bool>, succs: seq<State<A>>)
    requires |flags| == |succs| && forall i :: 0 <= i < |flags| ==> !flags[i]
    ensures Chosen(flags, succs, true) == [] && Chosen(flags, succs, false) == succs
  {
    if succs != [] { ChosenAll(flags[1..], succs[1..]); }
  }

  lemma KernelPushOrder<A, E>(c: Config, o: Oracle<A, E>, aux: E, s: State<A>, succs: seq<State<A>>)
    requires c.bcf
    ensures Pushed(c, o, aux, s, succs) == Reversed(succs)
  {
    ChosenAll(BackFlags(c, o, aux, s, succs), succs);
  }

  lemma {:induction false} NothingMoreToVisit<A, E>(p: Program, c: Config, o: Oracle<A, E>, e: Env<A, E>, ss: seq<State<A>>)
    requires e.failed || e.stop
    ensures VisitAll(p, c, o, e, ss) == e
    decreases |ss|
  {
    if ss != [] { NothingMoreToVisit(p, c, o, e, ss[1..]); }
  }

  /** The loop works off the successors on its stack exactly as the recursion does. */
  lemma {:induction false} StackIsRecursion<A, E>(
      p: Program, c: Config, o: Oracle<A, E>, e: Env<A, E>, stack: seq<State<A>>, ss: seq<State<A>>)
    requires c.bcf
    ensures Run(p, c, o, Loop(e, stack + Reversed(ss))).env == Run(p, c, o, Loop(VisitAll(p, c, o, e, ss), stack)).env
    decreases Budget(c, e), |ss|
  {
    hide Process, Pushed;
    var l := Loop(e, stack + Reversed(ss));
    if ss == [] {
      assert l.pending == stack;
    } else if e.failed || e.stop {
      NothingMoreToVisit(p, c, o, e, ss);
    } else {
      var s, below := ss[0], stack + Reversed(ss[1..]);
      assert l.pending == below + [s];
      assert l.pending[..|l.pending| - 1] == below && l.pending[|l.pending| - 1] == s;
      var r := Process(p, c, o, e, s);
      InsnsGrow(p, c, o, e, s);
      KernelPushOrder(c, o, r.env.aux, s, r.succs);
      assert Turn(p, c, o, l) == Loop(r.env, below + Reversed(r.succs));
      StackIsRecursion(p, c, o, r.env, below, r.succs);
      assert Visit(p, c, o, e, s) == VisitAll(p, c, o, r.env, r.succs);
      StackIsRecursion(p, c, o, Visit(p, c, o, e, s), stack, ss[1..]);
    }
  }

  lemma LoopIsDepthFirst<A, E>(p: Program, c: Config, o: Oracle<A, E>, aux: E, s: State<A>)
    requires c.bcf
    ensures Run(p, c, o, Start(aux, s)).env == Visit(p, c, o, Start<A, E>(aux, s).env, s)
  {
    hide Process, Pushed;
    var e, one := Start<A, E>(aux, s).env, [s];
    assert [] + Reversed(one) == one && one[1..] == [];
    StackIsRecursion(p, c, o, e, [], one);
    assert VisitAll(p, c, o, e, one) == Visit(p, c, o, e, s);
  }
}
