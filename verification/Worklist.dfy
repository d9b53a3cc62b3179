/**
 One iteration of the worklist loop, and the loop as a function of its environment.

 The abstract domain, the transfer functions and the pruning comparison are parameters (`Oracle`):
 any functions of the environment, the recorded checkpoints and the state at hand. `A` is the
 abstract value of a state, `E` everything in the environment that the loop only passes along.
 */
module Worklist {
  import opened Words

  /** A pending state: what the loop reads and writes of it, and its abstract value. */
  datatype State<A> = State(pc: nat, parent: Option<nat>, history: nat, abs: A)

  /** A cached state. Its cache id is its position in the list of checkpoints. */
  datatype Checkpoint<A> = Checkpoint(pc: nat, parent: Option<nat>, branches: nat, abs: A)

  datatype Succ<A> = Succ(pc: nat, history: nat, abs: A)

  datatype Pruning<A, E> = Pruning(prune: bool, active: bool, fail: bool, abs: A, aux: E)

  datatype Transfer<A, E> = Transfer(succs: seq<Succ<A>>, fail: bool, stop: bool, aux: E)

  datatype Oracle<!A, !E> = Oracle(
    spillOrFill: State<A> -> bool,
    demote: (E, seq<Checkpoint<A>>, State<A>) -> A,
    prune: (E, seq<Checkpoint<A>>, State<A>) -> Pruning<A, E>,
    transfer: (E, seq<Checkpoint<A>>, State<A>) -> Transfer<A, E>,
    backEdge: (E, State<A>, Succ<A>) -> bool)

  datatype Program = Program(
    len: nat,
    invalid: set<nat>,
    jmpPoint: set<nat>,
    prunePoint: set<nat>,
    forceCheckpoint: set<nat>,
    jmpClass: set<nat>)

  datatype Config = Config(
    kernelEngine: bool, bcf: bool, kernelAlu: bool, maxInsn: nat, bcfMaxInsn: nat)
  {
    predicate Sparse() { kernelEngine || bcf }
    function Limit(): nat { if bcf then bcfMaxInsn else maxInsn }
  }

  /**
   `arrivals` (every state popped and looked at), `visits` (those not pruned, as they were
   expanded), `stamps` (what the checkpoint rule saw at each of these), `unforced` (checkpoints
   added by the cadence rule) and `leaked` (branch counts that no path will ever give back)
   record the run; the code never reads them.
   */
  datatype Env<A, E> = Env(
    ckpts: seq<Checkpoint<A>>,
    insns: nat, jmps: nat, prevInsns: nat, prevJmps: nat,
    failed: bool, stop: bool, pruned: nat, aux: E,
    arrivals: seq<State<A>>, visits: seq<State<A>>, unforced: nat, leaked: multiset<nat>,
    stamps: seq<Stamp>)

  /** The instruction count, and whether pruning saw an ancestor still open. */
  datatype Stamp = Stamp(insns: nat, active: bool)

  // ---------------------------------------------------------------- branch counters

  const WALK_BUDGET: nat := 16_384

  datatype Completion<A> = Completion(ckpts: seq<Checkpoint<A>>, leak: Option<nat>)

  function Release<A>(c: Checkpoint<A>): Checkpoint<A> {
    c.(branches := if c.branches > 0 then c.branches - 1 else 0)
  }

  /**
   A path through checkpoint `at` has ended: take one branch off it and, whenever a counter
   reaches zero, off its parent, for at most `budget` checkpoints. `leak` is the checkpoint
   that was still owed a decrement when the budget ran out.
   */
  function Complete<A>(ckpts: seq<Checkpoint<A>>, at: Option<nat>, budget: nat): (r: Completion<A>)
    ensures |r.ckpts| == |ckpts|
    decreases budget
  {
    if at.None? then Completion(ckpts, None)
    else if budget == 0 then Completion(ckpts, at)
    else if at.value >= |ckpts| then Completion(ckpts, None)
    else
      var c := Release(ckpts[at.value]);
      var ckpts' := ckpts[at.value := c];
      if c.branches > 0 then Completion(ckpts', None)
      else Complete(ckpts', c.parent, budget - 1)
  }

  function Owed(leak: Option<nat>): multiset<nat> {
    if leak.Some? then multiset{leak.value} else multiset{}
  }

  // ---------------------------------------------------------------- one iteration

  /** A failed environment ends the loop; it comes without successors. */
  datatype Outcome<A, E> = Outcome(env: Env<A, E>, succs: seq<State<A>>)

  /** Bumps the branch-history counter at jump points and at register spills and fills. */
  function Arrived<A, E>(p: Program, o: Oracle<A, E>, s: State<A>): State<A> {
    s.(history := s.history + (if o.spillOrFill(s) then 1 else 0) + (if s.pc in p.jmpPoint then 1 else 0))
  }

  function Demoted<A, E>(p: Program, c: Config, o: Oracle<A, E>, e: Env<A, E>, s: State<A>): State<A> {
    if !c.kernelAlu && s.pc + 1 < p.len then s.(abs := o.demote(e.aux, e.ckpts, s)) else s
  }

  function Died<A, E>(e: Env<A, E>, parent: Option<nat>): Env<A, E> {
    var r := Complete(e.ckpts, parent, WALK_BUDGET);
    e.(ckpts := r.ckpts, leaked := e.leaked + Owed(r.leak))
  }

  predicate Forced<A>(p: Program, s: State<A>) {
    s.pc in p.forceCheckpoint || s.history > 40
  }

  /** Two jumps and eight instructions since the last checkpoint, more inside an open loop. */
  predicate Cadence<A, E>(e: Env<A, E>, active: bool) {
    var dj, di := e.jmps - e.prevJmps, e.insns - e.prevInsns;
    dj >= 2 && di >= 8 && !(active && dj < 20 && di < 100)
  }

  predicate Records<A, E>(p: Program, c: Config, e: Env<A, E>, s: State<A>, active: bool) {
    && (!c.Sparse() || s.pc in p.prunePoint)
    && (!c.Sparse() || Forced(p, s) || Cadence(e, active))
  }

  /** A new checkpoint with one open branch, which `s` continues. */
  function Recorded<A, E>(p: Program, e: Env<A, E>, s: State<A>): Outcome<A, E> {
    var ckpts := e.ckpts + [Checkpoint(s.pc, s.parent, 1, s.abs)];
    Outcome(
      e.(ckpts := ckpts, prevJmps := e.jmps, prevInsns := e.insns,
         unforced := e.unforced + if Forced(p, s) then 0 else 1),
      [s.(parent := Some(|e.ckpts|), history := 0)])
  }

  /** Only the extra alternatives of a fork add branches; the continuing path is already counted. */
  function Forked<A>(ckpts: seq<Checkpoint<A>>, parent: Option<nat>, n: nat): (r: seq<Checkpoint<A>>)
    ensures |r| == |ckpts|
  {
    if n > 1 && parent.Some? && parent.value < |ckpts| then
      var c := ckpts[parent.value];
      ckpts[parent.value := c.(branches := c.branches + n - 1)]
    else ckpts
  }

  function Children<A>(succs: seq<Succ<A>>, parent: Option<nat>): (r: seq<State<A>>)
    ensures |r| == |succs|
    ensures forall i :: 0 <= i < |r| ==> r[i] == State(succs[i].pc, parent, succs[i].history, succs[i].abs)
  {
    seq(|succs|, i requires 0 <= i < |succs| => State(succs[i].pc, parent, succs[i].history, succs[i].abs))
  }

  /** The branch counts after `n` successors of a path under `parent`; none at all ends the path. */
  function Counted<A, E>(e: Env<A, E>, parent: Option<nat>, n: nat): Env<A, E> {
    var e1 := e.(ckpts := Forked(e.ckpts, parent, n));
    if n == 0 then Died(e1, parent) else e1
  }

  /** From the complexity limit on: fetch, transfer, and the branch counts of the successors. */
  function Expanded<A, E>(p: Program, c: Config, o: Oracle<A, E>, e: Env<A, E>, s: State<A>): Outcome<A, E> {
    var e1 := e.(visits := e.visits + [s]);
    if e1.insns > c.Limit() then Outcome(e1.(failed := true), [])
    else if s.pc >= p.len then
      Outcome(e1.(leaked := e1.leaked + Owed(s.parent)), [])
    else
      var e2 := e1.(jmps := e1.jmps + if s.pc in p.jmpClass then 1 else 0);
      var t := o.transfer(e2.aux, e2.ckpts, s);
      var e3 := e2.(aux := t.aux, failed := e2.failed || t.fail, stop := e2.stop || t.stop);
      if e3.failed then Outcome(e3, [])
      else Outcome(Counted(e3, s.parent, |t.succs|), Children(t.succs, s.parent))
  }

  datatype Look<A, E> = Look(env: Env<A, E>, state: State<A>, prune: bool, active: bool)

  /** Demotion, the instruction count, and the pruning check with the widening it may do. */
  function Looked<A, E>(p: Program, c: Config, o: Oracle<A, E>, e: Env<A, E>, s: State<A>): Look<A, E> {
    var s' := Demoted(p, c, o, e, s);
    var v := o.prune(e.aux, e.ckpts, s');
    Look(e.(insns := e.insns + 1, aux := v.aux, failed := e.failed || v.fail), s'.(abs := v.abs), v.prune, v.active)
  }

  /** The continuing state, under a new checkpoint if one is recorded here. */
  function Checkpointed<A, E>(p: Program, c: Config, e: Env<A, E>, s: State<A>, active: bool): (r: Outcome<A, E>)
    ensures |r.succs| == 1
  {
    var e1 := e.(stamps := e.stamps + [Stamp(e.insns, active)]);
    if Records(p, c, e, s, active) then Recorded(p, e1, s) else Outcome(e1, [s])
  }

  /** The body of the loop for one popped state, before its successors are pushed. */
  function Process<A, E>(p: Program, c: Config, o: Oracle<A, E>, e: Env<A, E>, s: State<A>): (r: Outcome<A, E>)
    ensures r.env.failed || r.env.insns == e.insns + 1
    ensures r.env.failed || e.insns >= c.Limit() ==> r.succs == []
  {
    var s1 := Arrived(p, o, s);
    var e1 := e.(arrivals := e.arrivals + [s1]);
    if s1.pc in p.invalid then Outcome(e1.(failed := true), [])
    else
      var k := Looked(p, c, o, e1, s1);
      if k.prune then Outcome(Died(k.env.(pruned := k.env.pruned + 1), k.state.parent), [])
      else
        var r := Checkpointed(p, c, k.env, k.state, k.active);
        Expanded(p, c, o, r.env, r.succs[0])
  }

  // ---------------------------------------------------------------- the loop

  function Reversed<T>(s: seq<T>): (r: seq<T>)
    ensures |r| == |s| && forall i :: 0 <= i < |s| ==> r[i] == s[|s| - 1 - i]
    ensures multiset(r) == multiset(s)
  {
    if s == [] then [] else
      assert s == [s[0]] + s[1..];
      Reversed(s[1..]) + [s[0]]
  }

  /** The successors that close a loop, or the others, in order. */
  function Chosen<A>(flags: seq<bool>, succs: seq<State<A>>, which: bool): (r: seq<State<A>>)
    requires |flags| == |succs|
  {
    if succs == [] then []
    else (if flags[0] == which then [succs[0]] else []) + Chosen(flags[1..], succs[1..], which)
  }

  function BackFlags<A, E>(c: Config, o: Oracle<A, E>, aux: E, s: State<A>, succs: seq<State<A>>): (r: seq<bool>)
    ensures |r| == |succs|
    ensures c.bcf ==> forall i :: 0 <= i < |r| ==> !r[i]
  {
    seq(|succs|, i requires 0 <= i < |succs| =>
      !c.bcf && o.backEdge(aux, s, Succ(succs[i].pc, succs[i].history, succs[i].abs)))
  }

  /** Loop-closing successors go under the others; the first of the others is popped next. */
  function Pushed<A, E>(c: Config, o: Oracle<A, E>, aux: E, s: State<A>, succs: seq<State<A>>): seq<State<A>> {
    var f := BackFlags(c, o, aux, s, succs);
    Chosen(f, succs, true) + Reversed(Chosen(f, succs, false))
  }

  function Budget<A, E>(c: Config, e: Env<A, E>): nat {
    if e.insns <= c.Limit() then c.Limit() + 1 - e.insns else 0
  }

  /** The loop at its head: the environment and the pending states, last one on top. */
  datatype Loop<A, E> = Loop(env: Env<A, E>, pending: seq<State<A>>)

  predicate Live<A, E>(l: Loop<A, E>) {
    l.pending != [] && !l.env.failed && !l.env.stop
  }

  /** One iteration: pop, process, push. */
  function Turn<A, E>(p: Program, c: Config, o: Oracle<A, E>, l: Loop<A, E>): (r: Loop<A, E>)
    requires Live(l)
    ensures r.env.failed || Budget(c, r.env) < Budget(c, l.env)
            || (Budget(c, r.env) == Budget(c, l.env) && |r.pending| < |l.pending|)
  {
    var s, rest := l.pending[|l.pending| - 1], l.pending[..|l.pending| - 1];
    var r := Process(p, c, o, l.env, s);
    Loop(r.env, rest + Pushed(c, o, r.env.aux, s, r.succs))
  }

  /** Turn after turn until nothing is pending or the round has failed or been stopped. */
  function Run<A, E>(p: Program, c: Config, o: Oracle<A, E>, l: Loop<A, E>): (r: Loop<A, E>)
    ensures !Live(r)
    decreases Live(l), Budget(c, l.env), |l.pending|
  {
    if !Live(l) then l else Run(p, c, o, Turn(p, c, o, l))
  }

  /** The loop head after `n` turns, or the last one there is. */
  function Turns<A, E>(p: Program, c: Config, o: Oracle<A, E>, l: Loop<A, E>, n: nat): Loop<A, E>
    decreases n
  {
    if n == 0 || !Live(l) then l else Turns(p, c, o, Turn(p, c, o, l), n - 1)
  }

  /** Whatever the oracles do, the loop ends, and it ends at one of its heads. */
  lemma {:induction false} RunEnds<A, E>(p: Program, c: Config, o: Oracle<A, E>, l: Loop<A, E>) returns (n: nat)
    ensures Run(p, c, o, l) == Turns(p, c, o, l, n)
    decreases Live(l), Budget(c, l.env), |l.pending|
  {
    if Live(l) {
      n := RunEnds(p, c, o, Turn(p, c, o, l));
      n := n + 1;
    } else {
      n := 0;
    }
  }

  function Start<A, E>(aux: E, s: State<A>): Loop<A, E> {
    Loop(Env([], 0, 0, 0, 0, false, false, 0, aux, [], [], 0, multiset{}, []), [s])
  }

  /** Every one of these states is at an instruction of the program. */
  predicate InRange<A>(p: Program, states: seq<State<A>>) {
    forall i :: 0 <= i < |states| ==> states[i].pc < p.len
  }
}
