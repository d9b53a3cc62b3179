/**
 The depth-first pass over the flow graph: refuses successors outside the program and, where the
 program has function calls, unreachable instructions; marks where paths may be cut and counted.
 */
module FlowCheck {
  import opened Words
  import opened Reachability
  import opened ControlFlow

  /**
   What the pass learns about call sites from the registers and the type information: the entry of
   the callback that feeds a call, found by scanning backward, and the calls that advance an iterator.
   */
  datatype Sites = Sites(callback: map<nat, nat>, iterNext: set<nat>)

  datatype Marks = Marks(prune: set<nat>, jmp: set<nat>, force: set<nat>) {
    function And(m: Marks): Marks {
      Marks(prune + m.prune, jmp + m.jmp, force + m.force)
    }
  }

  function Below(n: nat, pcs: set<nat>): set<nat> {
    set pc | pc in pcs && pc < n
  }

  /** Where control goes from `pc`; a callback outside the program is passed over. */
  function Visited(prog: seq<Instr>, sites: Sites, pc: nat): seq<nat> {
    if pc < |prog| && prog[pc].Call? && pc in sites.callback && sites.callback[pc] < |prog| then
      [sites.callback[pc]] + Successors(prog, pc)
    else Successors(prog, pc)
  }

  function VisitGraph(prog: seq<Instr>, sites: Sites): (g: Graph)
    ensures |g| == |prog| && forall pc :: 0 <= pc < |g| ==> g[pc] == Visited(prog, sites, pc)
  {
    seq(|prog|, pc requires 0 <= pc < |prog| => Visited(prog, sites, pc))
  }

  /** The marks a visit of `pc` leaves. */
  function Marking(prog: seq<Instr>, sites: Sites, pc: nat): Marks {
    var n, next := |prog|, pc + 1;
    if pc >= n then Marks({}, {}, {})
    else
    match prog[pc]
    case Jmp(t) => Marks(Below(n, {t, next}), Below(n, {t}), {})
    case If(t) => Marks(Below(n, {pc, t}), Below(n, {t}), {})
    case MayGoto(t) => Marks(Below(n, {pc, next, t}), Below(n, {next, t}), {pc})
    case CallRel(t) => Marks(Below(n, {pc, t, next}), Below(n, {t, next}), {})
    case Call =>
      var entry := if pc in sites.callback then {sites.callback[pc]} else {};
      var iter := if pc in sites.iterNext then {pc} else {};
      var fed := if pc in sites.callback then {pc} else {};
      Marks(Below(n, entry + iter + {next}), Below(n, {next}), fed + iter)
    case _ => Marks({}, {}, {})
  }

  datatype Mark = Unvisited | Discovered | Explored

  datatype Verdict =
    | Accepted(marks: Marks)
    | OutOfBounds(pc: nat)
    | Unreachable(pc: nat)

  // ---------------------------------------------------------------- what the pass decides

  ghost predicate Reached(prog: seq<Instr>, sites: Sites, roots: seq<nat>, pc: nat) {
    exists r :: r in roots && r < |prog| && Reach(VisitGraph(prog, sites), r, pc)
  }

  predicate Stays(prog: seq<Instr>, sites: Sites, pc: nat) {
    forall t :: t in Visited(prog, sites, pc) ==> t < |prog|
  }

  predicate Calls(prog: seq<Instr>) {
    exists c :: 0 <= c < |prog| && prog[c].CallRel?
  }

  /** Nothing reachable leads out, and a program with calls has nothing unreachable. */
  ghost predicate Traversable(prog: seq<Instr>, sites: Sites, roots: seq<nat>) {
    && (forall pc: nat :: pc < |prog| && Reached(prog, sites, roots, pc) ==> Stays(prog, sites, pc))
    && (Calls(prog) ==> forall pc: nat :: pc < |prog| ==> Reached(prog, sites, roots, pc))
  }

  ghost function ReachedPcs(prog: seq<Instr>, sites: Sites, roots: seq<nat>): set<nat> {
    set pc: nat | pc < |prog| && Reached(prog, sites, roots, pc)
  }

  /** The marks of the roots and of visits to each of `pcs`. */
  function Gathered(prog: seq<Instr>, sites: Sites, roots: seq<nat>, pcs: set<nat>): Marks {
    Marks(
      (set r | r in roots && r < |prog|) + (set pc, x | pc in pcs && x in Marking(prog, sites, pc).prune :: x),
      set pc, x | pc in pcs && x in Marking(prog, sites, pc).jmp :: x,
      set pc, x | pc in pcs && x in Marking(prog, sites, pc).force :: x)
  }

  lemma GatherOne(prog: seq<Instr>, sites: Sites, roots: seq<nat>, pcs: set<nat>, pc: nat)
    ensures Gathered(prog, sites, roots, pcs + {pc})
         == Gathered(prog, sites, roots, pcs).And(Marking(prog, sites, pc))
  {
    hide Marking;
    var a, b := Gathered(prog, sites, roots, pcs + {pc}), Gathered(prog, sites, roots, pcs).And(Marking(prog, sites, pc));
    assert a.prune == b.prune && a.jmp == b.jmp && a.force == b.force;
  }

  // ---------------------------------------------------------------- the search

  predicate Through(prog: seq<Instr>, sites: Sites, st: seq<Mark>, pc: nat) {
    forall t :: t in Visited(prog, sites, pc) ==> t < |st| && !st[t].Unvisited?
  }

  /**
   The stack holds the discovered instructions, all of it is reachable, and the successors of what
   is explored have all been found.
   */
  ghost predicate Inv(prog: seq<Instr>, sites: Sites, roots: seq<nat>, st: seq<Mark>, stack: seq<nat>, seen: set<nat>) {
    && |st| == |prog| && Distinct(stack)
    && (forall u :: u in stack ==> u < |st| && st[u].Discovered?)
    && (forall u: nat :: u < |st| && st[u].Discovered? ==> u in stack)
    && (forall u: nat :: u < |st| && !st[u].Unvisited? ==> Reached(prog, sites, roots, u))
    && (forall u: nat :: u < |st| && st[u].Explored? ==> u in seen && Through(prog, sites, st, u))
    && (forall u :: u in seen ==> u < |st| && !st[u].Unvisited?)
  }

  predicate Rooted(roots: seq<nat>, st: seq<Mark>, k: nat)
    requires k <= |roots|
  {
    forall i :: 0 <= i < k && roots[i] < |st| ==> !st[roots[i]].Unvisited?
  }

  lemma ReachedRoot(prog: seq<Instr>, sites: Sites, roots: seq<nat>, r: nat)
    requires r in roots && r < |prog|
    ensures Reached(prog, sites, roots, r)
  {
    ReachSelf(VisitGraph(prog, sites), r);
  }

  lemma ReachedNext(prog: seq<Instr>, sites: Sites, roots: seq<nat>, pc: nat, t: nat)
    requires pc < |prog| && Reached(prog, sites, roots, pc) && t in Visited(prog, sites, pc) && t < |prog|
    ensures Reached(prog, sites, roots, t)
  {
    var g := VisitGraph(prog, sites);
    var r :| r in roots && r < |prog| && Reach(g, r, pc);
    ReachEdge(g, pc, t);
    ReachTrans(g, r, pc, t);
  }

  lemma DiscoverKeeps(
      prog: seq<Instr>, sites: Sites, roots: seq<nat>, st: seq<Mark>, stack: seq<nat>, seen: set<nat>, t: nat)
    requires Inv(prog, sites, roots, st, stack, seen)
    requires t < |st| && st[t].Unvisited? && Reached(prog, sites, roots, t)
    ensures Inv(prog, sites, roots, st[t := Discovered], stack + [t], seen)
  {
    hide Reached, Visited;
    var st' := st[t := Discovered];
    forall u: nat | u < |st'| && st'[u].Explored? ensures Through(prog, sites, st', u) {
      assert Through(prog, sites, st, u);
    }
  }

  lemma ExploreKeeps(prog: seq<Instr>, sites: Sites, roots: seq<nat>, st: seq<Mark>, stack: seq<nat>, seen: set<nat>)
    requires Inv(prog, sites, roots, st, stack, seen) && stack != []
    requires var pc := stack[|stack| - 1]; pc in seen && Through(prog, sites, st, pc)
    ensures Inv(prog, sites, roots, st[stack[|stack| - 1] := Explored], stack[..|stack| - 1], seen)
  {
    hide Reached, Visited;
    var pc, rest := stack[|stack| - 1], stack[..|stack| - 1];
    var st' := st[pc := Explored];
    forall u | u in rest ensures u < |st'| && st'[u].Discovered? {
      var i :| 0 <= i < |rest| && rest[i] == u;
      assert stack[i] == u && u in stack;
    }
    forall u: nat | u < |st'| && st'[u].Discovered? ensures u in rest {
      var i :| 0 <= i < |stack| && stack[i] == u;
      assert rest[i] == u;
    }
    forall u: nat | u < |st'| && st'[u].Explored? ensures Through(prog, sites, st', u) {
      assert Through(prog, sites, st, u);
    }
  }

  /** With an empty stack the explored instructions are the reachable ones. */
  lemma EndsReached(prog: seq<Instr>, sites: Sites, roots: seq<nat>, st: seq<Mark>, seen: set<nat>)
    requires Inv(prog, sites, roots, st, [], seen) && Rooted(roots, st, |roots|)
    ensures forall pc: nat :: pc < |prog| ==> (st[pc].Unvisited? <==> !Reached(prog, sites, roots, pc))
    ensures seen == ReachedPcs(prog, sites, roots)
    ensures forall pc: nat :: pc < |prog| && Reached(prog, sites, roots, pc) ==> Stays(prog, sites, pc)
  {
    hide Visited;
    var g := VisitGraph(prog, sites);
    var done := set u: nat | u < |st| && st[u].Explored?;
    assert Closed(g, done) by {
      forall u, v | u in done && Edge(g, u, v) ensures v in done { assert Through(prog, sites, st, u); }
    }
    forall pc: nat | pc < |prog| && Reached(prog, sites, roots, pc) ensures st[pc].Explored? {
      var r :| r in roots && r < |prog| && Reach(g, r, pc);
      var i :| 0 <= i < |roots| && roots[i] == r;
      ReachStays(g, done, r, pc);
    }
    forall pc: nat | pc < |prog| && Reached(prog, sites, roots, pc) ensures Stays(prog, sites, pc) {
      assert Through(prog, sites, st, pc);
    }
  }

  // ---------------------------------------------------------------- the pass

  class Pass {
    const prog: seq<Instr>
    const sites: Sites
    const roots: seq<nat>
    const state: array<Mark>
    var stack: seq<nat>
    var marks: Marks
    ghost var seen: set<nat>

    ghost predicate Valid()
      reads this, state
    {
      state.Length == |prog| && Inv(prog, sites, roots, state[..], stack, seen)
    }

    ghost function Unseen(): set<nat>
      reads this, state
    {
      set u: nat | u < state.Length && state[u].Unvisited?
    }

    constructor (prog: seq<Instr>, sites: Sites, roots: seq<nat>)
      ensures this.prog == prog && this.sites == sites && this.roots == roots && fresh(state)
      ensures Valid() && stack == [] && seen == {} && marks == Marks({}, {}, {})
      ensures state.Length == |prog| && forall u :: 0 <= u < |prog| ==> state[u].Unvisited?
    {
      this.prog, this.sites, this.roots := prog, sites, roots;
      state := new Mark[|prog|](_ => Unvisited);
      stack, marks, seen := [], Marks({}, {}, {}), {};
      new;
      assert forall u :: 0 <= u < |prog| ==> state[..][u] == Unvisited;
    }

    method Discover(t: nat)
      requires Valid() && t < state.Length && state[t].Unvisited? && Reached(prog, sites, roots, t)
      modifies this`stack, state
      ensures Valid() && stack == old(stack) + [t] && state[..] == old(state[..])[t := Discovered]
      ensures Unseen() < old(Unseen())
    {
      hide Inv, Reached;
      DiscoverKeeps(prog, sites, roots, state[..], stack, seen, t);
      state[t] := Discovered;
      stack := stack + [t];
      assert state[..] == old(state[..])[t := Discovered];
      assert t in old(Unseen()) && t !in Unseen();
    }

    method PushRoots()
      requires Valid() && seen == {} && marks == Marks({}, {}, {})
      requires forall u :: 0 <= u < state.Length ==> state[u].Unvisited?
      modifies this`stack, this`marks, state
      ensures Valid() && Rooted(roots, state[..], |roots|) && marks == Gathered(prog, sites, roots, {})
    {
      hide Inv, Reached, Marking;
      assert Valid();
      for i := 0 to |roots|
        invariant Valid() && Rooted(roots, state[..], i)
        invariant forall u: nat :: u < state.Length && !state[u].Unvisited? ==> u in roots[..i]
        invariant marks == Marks(set r | r in roots[..i] && r < |prog|, {}, {})
      {
        var root := roots[i];
        assert roots[..i + 1] == roots[..i] + [root];
        if root < |prog| && state[root].Unvisited? {
          ReachedRoot(prog, sites, roots, root);
          Discover(root);
          marks := marks.(prune := marks.prune + {root});
        }
      }
      assert roots[..|roots|] == roots;
    }
  
    /** A call that takes a callback also leads into it. */
    method VisitCall(pc: nat) returns (succs: seq<nat>, more: Marks)
      requires pc < |prog| && prog[pc].Call?
      ensures succs == Visited(prog, sites, pc) && more == Marking(prog, sites, pc)
    {
      var n, next := |prog|, pc + 1;
      more := Marks({}, {}, {});
      succs := [];
      if pc in sites.callback {
        var t := sites.callback[pc];
        if t < n {
          succs := [t];
          more := more.(prune := {t});
        }
        more := more.(force := {pc});
      }
      if pc in sites.iterNext { more := more.(prune := more.prune + {pc}, force := more.force + {pc}); }
      if next < n {
        succs := succs + [next];
        more := more.(prune := more.prune + {next}, jmp := {next});
      }
    }

    /** Marks and successors of one instruction. */
    method VisitInsn(pc: nat) returns (succs: seq<nat>)
      requires pc < |prog| && marks == Gathered(prog, sites, roots, seen)
      modifies this`marks, this`seen
      ensures succs == Visited(prog, sites, pc)
      ensures seen == old(seen) + {pc} && marks == Gathered(prog, sites, roots, seen)
    {
      hide Gathered;
      GatherOne(prog, sites, roots, seen, pc);
      seen := seen + {pc};
      var n, next := |prog|, pc + 1;
      var more := Marks({}, {}, {});
      succs := [];
      match prog[pc] {
      case Exit =>
      case Jmp(t) =>
        succs := [t];
        more := Marks(Below(n, {t, next}), Below(n, {t}), {});
      case If(t) =>
        succs := FallThrough(n, pc) + [t];
        more := Marks(Below(n, {pc, t}), Below(n, {t}), {});
      case MayGoto(t) =>
        succs := FallThrough(n, pc) + [t];
        more := Marks(Below(n, {pc, next, t}), Below(n, {next, t}), {pc});
      case CallRel(t) =>
        succs := [t] + FallThrough(n, pc);
        more := Marks(Below(n, {pc, t, next}), Below(n, {t, next}), {});
      case Call =>
        succs, more := VisitCall(pc);
      case _ =>
        succs := FallThrough(n, pc);
      }
      assert more == Marking(prog, sites, pc);
      marks := marks.And(more);
    }

    /** The next unvisited successor of the top of the stack, which is done if there is none. */
    method Step() returns (v: Option<nat>)
      requires Valid() && stack != [] && marks == Gathered(prog, sites, roots, seen)
      modifies this, state
      ensures v.Some? ==> v.value < |prog| && Reached(prog, sites, roots, v.value) && !Stays(prog, sites, v.value)
      ensures v.None? ==> Valid() && marks == Gathered(prog, sites, roots, seen)
      ensures v.None? ==> forall u :: 0 <= u < |prog| && !old(state[u]).Unvisited? ==> !state[u].Unvisited?
      ensures v.None? ==> Unseen() < old(Unseen()) || (Unseen() == old(Unseen()) && |stack| < old(|stack|))
    {
      hide Gathered, Visited, Reached, Stays;
      var pc := stack[|stack| - 1];
      TopReached(prog, sites, roots, state[..], stack, seen);
      var succs := VisitInsn(pc);
      SeeKeeps(prog, sites, roots, state[..], stack, old(seen));
      for i := 0 to |succs|
        invariant forall j :: 0 <= j < i ==> succs[j] < |prog| && !state[succs[j]].Unvisited?
        invariant Valid() && state[..] == old(state[..]) && stack == old(stack)
        invariant seen == old(seen) + {pc} && marks == Gathered(prog, sites, roots, seen)
      {
        if succs[i] >= |prog| {
          LeadsOut(prog, sites, pc, succs[i]);
          return Some(pc);
        }
        if state[succs[i]].Unvisited? {
          ReachedNext(prog, sites, roots, pc, succs[i]);
          Discover(succs[i]);
          return None;
        }
      }
      ExploreKeeps(prog, sites, roots, state[..], stack, seen);
      state[pc] := Explored;
      stack := stack[..|stack| - 1];
      assert state[..] == old(state[..])[pc := Explored];
      assert Unseen() == old(Unseen());
      v := None;
    }
  }

  lemma TopReached(prog: seq<Instr>, sites: Sites, roots: seq<nat>, st: seq<Mark>, stack: seq<nat>, seen: set<nat>)
    requires Inv(prog, sites, roots, st, stack, seen) && stack != []
    ensures var pc := stack[|stack| - 1]; pc < |prog| && st[pc].Discovered? && Reached(prog, sites, roots, pc)
  {
    hide Reached, Through;
    assert stack[|stack| - 1] in stack;
  }

  lemma SeeKeeps(prog: seq<Instr>, sites: Sites, roots: seq<nat>, st: seq<Mark>, stack: seq<nat>, seen: set<nat>)
    requires Inv(prog, sites, roots, st, stack, seen) && stack != []
    ensures Inv(prog, sites, roots, st, stack, seen + {stack[|stack| - 1]})
  {
    hide Reached, Through;
    assert stack[|stack| - 1] in stack;
  }

  lemma LeadsOut(prog: seq<Instr>, sites: Sites, pc: nat, t: nat)
    requires t in Visited(prog, sites, pc) && t >= |prog|
    ensures !Stays(prog, sites, pc)
  {
    hide Visited;
  }

  lemma StuckRefused(prog: seq<Instr>, sites: Sites, roots: seq<nat>, pc: nat)
    requires pc < |prog|
    requires (Reached(prog, sites, roots, pc) && !Stays(prog, sites, pc))
          || (Calls(prog) && !Reached(prog, sites, roots, pc))
    ensures !Traversable(prog, sites, roots)
  {
    hide Reached, Stays, Calls;
  }

  /**
   Accepts exactly the programs in which nothing reachable leads out and, if there are calls, nothing
   is unreachable; the marks are then those of the reachable instructions. The empty program passes.
   */
  method CheckCfg(prog: seq<Instr>, sites: Sites, roots: seq<nat>) returns (v: Verdict)
    ensures v.Accepted? <==> Traversable(prog, sites, roots)
    ensures v.Accepted? ==> v.marks == Gathered(prog, sites, roots, ReachedPcs(prog, sites, roots))
    ensures v.OutOfBounds? ==> v.pc < |prog| && Reached(prog, sites, roots, v.pc) && !Stays(prog, sites, v.pc)
    ensures v.Unreachable? ==> v.pc < |prog| && Calls(prog) && !Reached(prog, sites, roots, v.pc)
    ensures v.Unreachable? ==> forall pc: nat :: pc < v.pc ==> Reached(prog, sites, roots, pc)
  {
    hide Gathered, Reached, Stays, Inv, Rooted;
    if |prog| == 0 {
      EmptyMarks(prog, sites, roots);
      return Accepted(Marks({}, {}, {}));
    }
    var pass := new Pass(prog, sites, roots);
    pass.PushRoots();
    while pass.stack != []
      invariant pass.Valid() && pass.marks == Gathered(prog, sites, roots, pass.seen)
      invariant Rooted(roots, pass.state[..], |roots|)
      decreases pass.Unseen(), |pass.stack|
    {
      label before:
      var out := pass.Step();
      if out.Some? {
        StuckRefused(prog, sites, roots, out.value);
        return OutOfBounds(out.value);
      }
      RootedStays(roots, old@before(pass.state[..]), pass.state[..]);
    }
    EndsReached(prog, sites, roots, pass.state[..], pass.seen);
    var calls := HasCalls(prog);
    if calls {
      for pc := 0 to |prog|
        invariant forall q: nat :: q < pc ==> Reached(prog, sites, roots, q)
      {
        if pass.state[pc].Unvisited? {
          StuckRefused(prog, sites, roots, pc);
          return Unreachable(pc);
        }
      }
    }
    v := Accepted(pass.marks);
  }

  lemma RootedStays(roots: seq<nat>, st: seq<Mark>, st': seq<Mark>)
    requires Rooted(roots, st, |roots|) && |st| == |st'|
    requires forall u :: 0 <= u < |st| && !st[u].Unvisited? ==> !st'[u].Unvisited?
    ensures Rooted(roots, st', |roots|)
  {
  }

  lemma EmptyMarks(prog: seq<Instr>, sites: Sites, roots: seq<nat>)
    requires prog == []
    ensures Gathered(prog, sites, roots, ReachedPcs(prog, sites, roots)) == Marks({}, {}, {})
  {
    assert ReachedPcs(prog, sites, roots) == {};
  }

  method HasCalls(prog: seq<Instr>) returns (r: bool)
    ensures r <==> Calls(prog)
  {
    for i := 0 to |prog|
      invariant forall c :: 0 <= c < i ==> !prog[c].CallRel?
    {
      if prog[i].CallRel? { return true; }
    }
    r := false;
  }
}
