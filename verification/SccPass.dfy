/**
 The pass that writes component ids for the instructions of a program: the iterative search with its
 arrays and two stacks, proved against the state machine of `SccSearch`.
 */
module SccPass {
  import opened Words
  import opened ControlFlow
  import opened Reachability
  import opened SccSearch

  function Listed(p: Option<nat>): seq<nat> {
    if p.Some? then [p.value] else []
  }

  class Pass {
    const prog: seq<Instr>
    const aux: array<nat>
    const pre: array<nat>
    const low: array<nat>
    const iter: array<nat>
    var stack: seq<nat>
    var dfs: seq<nat>
    var nextPre: nat
    var nextScc: nat
    ghost var st: State

    ghost function G(): Graph {
      FlowGraph(prog)
    }

    /** The arrays and stacks are those of the state; ids are kept where there is room for them. */
    ghost predicate Mirrors()
      reads this, aux, pre, low, iter
    {
      && pre != low && pre != iter && low != iter && aux != pre && aux != low && aux != iter
      && Sized(G(), st) && pre[..] == st.pre && low[..] == st.low && iter[..] == st.iter
      && stack == st.stack && dfs == st.gray + Listed(st.pend)
      && nextPre == |st.order| + 1 && nextScc == st.ids
      && (forall x :: 0 <= x < aux.Length && x < |prog| ==> aux[x] == st.scc[x])
      && (forall x :: |prog| <= x < aux.Length ==> aux[x] == 0)
    }

    ghost predicate Valid()
      reads this, aux, pre, low, iter
    {
      Mirrors() && Inv(G(), st)
    }

    constructor (prog: seq<Instr>, aux: array<nat>)
      requires |prog| < NOT_ON_STACK && forall x :: 0 <= x < aux.Length ==> aux[x] == 0
      ensures Valid() && this.prog == prog && this.aux == aux && st == Fresh(|prog|)
      ensures fresh(pre) && fresh(low) && fresh(iter)
    {
      this.prog, this.aux := prog, aux;
      pre := new nat[|prog|](_ => 0);
      low := new nat[|prog|](_ => 0);
      iter := new nat[|prog|](_ => 0);
      stack, dfs, nextPre, nextScc := [], [], 1, 1;
      st := Fresh(|prog|);
      new;
      FreshInv(FlowGraph(prog));
      assert pre[..] == st.pre && low[..] == st.low && iter[..] == st.iter;
    }

    /** Numbers the unvisited top of the search stack. */
    method Enter()
      requires Valid() && st.pend.Some?
      modifies this`stack, this`nextPre, this`st, pre, low, iter
      ensures Valid() && st == Visit(old(st))
    {
      hide Inv;
      PendInside(G(), st);
      VisitKeeps(G(), st);
      var w := dfs[|dfs| - 1];
      pre[w] := nextPre;
      low[w] := nextPre;
      nextPre := nextPre + 1;
      stack := stack + [w];
      iter[w] := 0;
      st := Visit(st);
    }

    /** Looks at successors until one is to be visited, and says whether there is one. */
    method Scan() returns (descend: bool)
      requires Valid() && st.gray != [] && st.pend.None?
      modifies this`dfs, this`st, low, iter
      ensures Valid() && st.gray == old(st.gray) && st.order == old(st.order)
      ensures if descend then st.pend.Some? else Finished(G(), st)
    {
      hide Inv, FlowGraph;
      TopInside(G(), st);
      var w, n := dfs[|dfs| - 1], |prog|;
      var succs := Successors(prog, w);
      while iter[w] < |succs|
        invariant Valid() && st.gray == old(st.gray) && st.order == old(st.order) && st.pend.None?
        invariant dfs == old(dfs)
        decreases |succs| - iter[w]
      {
        LookKeeps(G(), st);
        var s := succs[iter[w]];
        ghost var was := st;
        st := Look(G(), st);
        iter[w] := iter[w] + 1;
        if s < n {
          if pre[s] == 0 {
            dfs := dfs + [s];
            return true;
          }
          if low[s] < low[w] { low[w] := low[s]; }
        }
        assert low[..] == st.low;
      }
      return false;
    }

    /** Leaves a node that is no root; its parent takes over its lowlink. */
    method LeaveInner()
      requires Valid() && Finished(G(), st) && Low(st, Top(st)) < Pre(st, Top(st))
      modifies this`dfs, this`st, low
      ensures Valid() && st == Retreat(old(st))
    {
      hide Inv, FlowGraph;
      TopInside(G(), st);
      RetreatKeeps(G(), st);
      ParentInside(G(), st);
      var w := dfs[|dfs| - 1];
      var childLow := low[w];
      dfs := dfs[..|dfs| - 1];
      if dfs != [] {
        var parent := dfs[|dfs| - 1];
        assert parent in old(st.gray);
        if childLow < low[parent] { low[parent] := childLow; }
      }
      st := Retreat(st);
      assert low[..] == st.low;
    }

    method PopOne(assign: bool) returns (t: nat)
      requires stack != [] && stack[|stack| - 1] < low.Length && aux != low
      modifies this`stack, low, aux
      ensures t == old(stack)[|old(stack)| - 1] && stack == old(stack)[..|old(stack)| - 1]
      ensures forall x :: 0 <= x < low.Length ==> low[x] == if x == t then NOT_ON_STACK else old(low[x])
      ensures forall x :: 0 <= x < aux.Length ==> aux[x] == if x == t && assign then nextScc else old(aux[x])
    {
      t := stack[|stack| - 1];
      stack := stack[..|stack| - 1];
      low[t] := NOT_ON_STACK;
      if assign && t < aux.Length { aux[t] := nextScc; }
    }

    /** Takes the component off its stack, down to its root, marking and labelling its nodes. */
    method PopComponent(w: nat, assign: bool, ghost j: nat)
      requires Mirrors() && Stacked(st) && j < |stack| && stack[j] == w
      modifies this`stack, low, aux
      ensures stack == old(stack)[..j]
      ensures forall x :: 0 <= x < low.Length ==> low[x] == if x in old(stack)[j..] then NOT_ON_STACK else old(low[x])
      ensures forall x :: 0 <= x < aux.Length ==> aux[x] == if x in old(stack)[j..] && assign then nextScc else old(aux[x])
      ensures forall x :: |prog| <= x < aux.Length ==> aux[x] == old(aux[x])
    {
      hide FlowGraph, Rising;
      ghost var was, k := stack, |stack|;
      StackInside(G(), st);
      while true
        invariant j < k <= |was| && stack == was[..k]
        invariant forall x :: 0 <= x < low.Length ==> low[x] == if x in was[k..] then NOT_ON_STACK else old(low[x])
        invariant forall x :: 0 <= x < aux.Length ==> aux[x] == if x in was[k..] && assign then nextScc else old(aux[x])
        invariant forall x :: |prog| <= x < aux.Length ==> aux[x] == old(aux[x])
        decreases k
      {
        assert stack[k - 1] in was;
        var t := PopOne(assign);
        k := k - 1;
        assert was[k..] == [t] + was[k + 1..];
        if t == w {
          OnlyOnce(st, k, j);
          break;
        }
      }
    }

    /** More than one node, or a node that is its own successor. */
    method NeedsId(w: nat) returns (assign: bool)
      requires Mirrors() && Finished(G(), st) && stack != [] && w == Top(st)
      ensures assign == Assigns(G(), st)
    {
      hide FlowGraph, Assigns;
      AssignsIs(G(), st);
      assign := stack[|stack| - 1] != w;
      if !assign { assign := w in Successors(prog, w); }
    }

    /** Leaves the root of a component. */
    method LeaveRoot()
      requires Valid() && Finished(G(), st) && Low(st, Top(st)) == Pre(st, Top(st))
      modifies this`stack, this`dfs, this`nextScc, this`st, low, aux
      ensures Valid() && st.gray == old(st.gray)[..|old(st.gray)| - 1] && st.pend.None? && st.order == old(st.order)
    {
      hide Inv, FlowGraph, Low, Pre, Stacked, Emit, Assigns;
      ghost var j := RootIndex(G(), st);
      EmitIs(G(), st, j);
      var w := dfs[|dfs| - 1];
      var assign := NeedsId(w);
      EmitKeeps(G(), st, j);
      InvStacked(G(), st);
      PopComponent(w, assign, j);
      if assign { nextScc := nextScc + 1; }
      dfs := dfs[..|dfs| - 1];
      st := Emit(G(), st, j);
      assert low[..] == st.low;
    }

    /** Searches everything that can be reached from `root` and has not been visited. */
    method Explore(root: nat)
      requires Valid() && st.gray == [] && st.pend == None && root < |prog| && pre[root] == 0
      modifies this, pre, low, iter, aux
      ensures Valid() && st.gray == [] && st.pend == None
      ensures old(st.order) <= st.order && root in st.order
    {
      hide Inv, FlowGraph, Low, Pre, Stacked, Visit, Retreat;
      BeginKeepsHere(root);
      dfs := dfs + [root];
      st := Begin(st, root);
      while dfs != []
        invariant Valid() && old(st.order) <= st.order
        invariant root in st.order || (st.pend == Some(root) && st.gray == [])
        decreases |prog| - |st.order|, if st.pend.Some? then 0 else 1, |st.gray|
      {
        InvFits(G(), st);
        Turn();
      }
    }

    /** One round of the search: number the top if it is new, go on looking, and leave it when nothing is left. */
    method Turn()
      requires Valid() && dfs != []
      modifies this`stack, this`dfs, this`nextPre, this`nextScc, this`st, pre, low, iter, aux
      ensures Valid() && old(st.order) <= st.order
      ensures old(st.pend).Some? ==> st.order == old(st.order) + [old(st.pend).value]
      ensures old(st.pend).None? ==> st.order == old(st.order) && (st.pend.Some? || |st.gray| < |old(st.gray)|)
    {
      hide Inv, FlowGraph, Low, Pre, Stacked, Visit, Retreat;
      var w := dfs[|dfs| - 1];
      TopOrPend(G(), st);
      if pre[w] == 0 {
        VisitIs(st);
        Enter();
      }
      var descend := Scan();
      if !descend { Leave(); }
    }

    /** Leaves a node all of whose successors were looked at. */
    method Leave()
      requires Valid() && Finished(G(), st)
      modifies this`stack, this`dfs, this`nextScc, this`st, low, aux
      ensures Valid() && st.gray == old(st.gray)[..|old(st.gray)| - 1] && st.pend.None? && st.order == old(st.order)
    {
      hide Inv, FlowGraph, Low, Pre, Stacked, Retreat;
      var w := dfs[|dfs| - 1];
      TopNumbers(G(), st);
      if low[w] < pre[w] {
        RetreatIs(st);
        LeaveInner();
      } else {
        LeaveRoot();
      }
    }

    ghost method BeginKeepsHere(root: nat)
      requires Valid() && st.gray == [] && st.pend == None && root < |prog| && pre[root] == 0
      ensures Inv(G(), Begin(st, root))
    {
      BeginKeeps(G(), st, root);
    }

    /** The whole pass. */
    method Compute()
      requires Valid() && st == Fresh(|prog|)
      modifies this, pre, low, iter, aux
      ensures forall u, v :: 0 <= u < |prog| && 0 <= v < |prog| && u < aux.Length && v < aux.Length ==>
                ((aux[u] != 0 && aux[u] == aux[v]) <==> (OnCycle(G(), u) && Mutual(G(), u, v)))
      ensures forall u :: 0 <= u < |prog| && u < aux.Length ==> (aux[u] == 0 <==> !OnCycle(G(), u))
      ensures forall u :: |prog| <= u < aux.Length ==> aux[u] == 0
    {
      hide Inv, FlowGraph, Low, Pre, OnCycle, Mutual;
      for root := 0 to |prog|
        invariant Valid() && st.gray == [] && st.pend == None
        invariant AllBelow(st.order, root)
      {
        if pre[root] == 0 {
          ghost var before := st.order;
          Explore(root);
          OneMoreBelow(before, st.order, root);
        } else {
          InOrder(G(), st, root);
          OneMoreBelow(st.order, st.order, root);
        }
      }
      forall u, v | 0 <= u < |prog| && 0 <= v < |prog| && u < aux.Length && v < aux.Length
        ensures (aux[u] != 0 && aux[u] == aux[v]) <==> (OnCycle(G(), u) && Mutual(G(), u, v))
        ensures aux[u] == 0 <==> !OnCycle(G(), u)
      {
        VisitedAll(G(), st);
        AllDone(G(), st, u, v);
      }
    }
  }

  lemma InvFits(g: Graph, st: State)
    requires Inv(g, st)
    ensures |st.order| <= |g| && (st.pend.Some? ==> |st.order| < |g|)
  {
    OrderFits(g, st);
  }

  lemma VisitIs(st: State)
    requires st.pend.Some? && st.pend.value < |st.pre| == |st.low| == |st.iter|
    ensures var st' := Visit(st); st'.order == st.order + [st.pend.value] && st'.gray == st.gray + [st.pend.value] && st'.pend == None
  {
  }

  lemma RetreatIs(st: State)
    requires st.gray != []
    ensures var st' := Retreat(st); st'.order == st.order && st'.gray == st.gray[..|st.gray| - 1] && st'.pend == st.pend
  {
  }

  /** The top of the combined search stack is unvisited exactly if it is the pending node. */
  lemma TopOrPend(g: Graph, st: State)
    requires Inv(g, st)
    ensures st.pend.Some? ==> st.pend.value < |st.pre| && st.pre[st.pend.value] == 0
    ensures st.gray != [] ==> Top(st) < |st.pre| && st.pre[Top(st)] != 0
  {
    hide Low, Inv;
    InvStacked(g, st);
    if st.gray != [] { NumbersFit(g, st, Top(st)); }
  }

  lemma TopNumbers(g: Graph, st: State)
    requires Inv(g, st) && st.gray != []
    ensures Top(st) < |st.pre| && Pre(st, Top(st)) == st.pre[Top(st)] && Low(st, Top(st)) == st.low[Top(st)]
    ensures Low(st, Top(st)) <= Pre(st, Top(st))
  {
    hide Inv;
    InvStacked(g, st);
    NumbersFit(g, st, Top(st));
  }

  ghost predicate AllBelow(order: seq<nat>, n: nat) {
    forall x: nat :: x < n ==> x in order
  }

  lemma OneMoreBelow(a: seq<nat>, b: seq<nat>, n: nat)
    requires AllBelow(a, n) && a <= b && n in b
    ensures AllBelow(b, n + 1)
  {
    forall x: nat | x < n ensures x in b {
      assert x in a;
      var i :| 0 <= i < |a| && a[i] == x;
      assert b[i] == x;
    }
  }

  lemma AssignsIs(g: Graph, st: State)
    requires st.stack != [] && st.gray != [] && Top(st) < |g|
    ensures Assigns(g, st) <==> st.stack[|st.stack| - 1] != Top(st) || Top(st) in g[Top(st)]
  {
  }

  lemma EmitIs(g: Graph, st: State, j: nat)
    requires Sized(g, st) && IsRoot(g, st, j)
    ensures var st', comp, assign := Emit(g, st, j), st.stack[j..], Assigns(g, st);
            && st'.stack == st.stack[..j] && st'.gray == st.gray[..|st.gray| - 1] && st'.ids == st.ids + (if assign then 1 else 0)
            && st'.pre == st.pre && st'.iter == st.iter && st'.order == st.order && st'.pend == st.pend
            && |st'.low| == |g| && |st'.scc| == |g|
            && (forall x: nat :: x < |g| ==> st'.low[x] == if x in comp then NOT_ON_STACK else st.low[x])
            && (forall x: nat :: x < |g| ==> st'.scc[x] == if x in comp && assign then st.ids else st.scc[x])
  {
  }

  lemma InOrder(g: Graph, st: State, x: nat)
    requires Inv(g, st) && x < |st.pre| && st.pre[x] != 0
    ensures x in st.order
  {
    assert VisitedAs(st, x);
  }

  lemma VisitedAll(g: Graph, st: State)
    requires Inv(g, st) && AllBelow(st.order, |g|)
    ensures forall x: nat :: x < |g| ==> Pre(st, x) != 0
  {
    forall x: nat | x < |g| ensures Pre(st, x) != 0 {
      assert x in st.order;
      var i :| 0 <= i < |st.order| && st.order[i] == x;
      assert Pre(st, st.order[i]) == i + 1;
    }
  }

  /** The root of a component is somewhere on the component stack. */
  lemma RootIndex(g: Graph, st: State) returns (j: nat)
    requires Inv(g, st) && Finished(g, st) && Low(st, Top(st)) == Pre(st, Top(st))
    ensures IsRoot(g, st, j)
  {
    hide Low, Pre, Inv, Shape;
    InvStacked(g, st);
    NumbersFit(g, st, Top(st));
    assert Top(st) in st.stack;
    j :| 0 <= j < |st.stack| && st.stack[j] == Top(st);
  }

  lemma InvStacked(g: Graph, st: State)
    requires Inv(g, st)
    ensures Stacked(st) && Shape(g, st)
  {
  }

  lemma OnlyOnce(st: State, i: nat, j: nat)
    requires Stacked(st) && i < |st.stack| && j < |st.stack| && st.stack[i] == st.stack[j]
    ensures i == j
  {
    RisesOnce(st, i, j);
    RisesOnce(st, j, i);
  }

  lemma RisesOnce(st: State, i: nat, j: nat)
    requires Stacked(st) && i < |st.stack| && j < |st.stack|
    ensures i < j ==> Pre(st, st.stack[i]) < Pre(st, st.stack[j])
  {
  }

  lemma StackInside(g: Graph, st: State)
    requires Sized(g, st) && Stacked(st)
    ensures forall x :: x in st.stack ==> x < |g|
  {
    forall x | x in st.stack ensures x < |g| { assert OnStack(st, x); }
  }

  lemma ParentInside(g: Graph, st: State)
    requires Inv(g, st) && st.gray != []
    ensures forall a :: a in st.gray ==> a < |g|
  {
    forall a | a in st.gray ensures a < |g| { NumbersFit(g, st, a); }
  }

  lemma PendInside(g: Graph, st: State)
    requires Inv(g, st) && st.pend.Some?
    ensures st.pend.value < |g|
  {
  }

  lemma TopInside(g: Graph, st: State)
    requires Inv(g, st) && st.gray != []
    ensures Top(st) < |g|
  {
    hide Inv;
    InvStacked(g, st);
    NumbersFit(g, st, Top(st));
  }

  /**
   Two instructions get the same nonzero id exactly if they lie on cycles and reach each other along
   the successors; an instruction keeps id 0 exactly if it lies on no cycle. Ids are written where
   the table has room, and nowhere else.
   */
  method ComputeScc(prog: seq<Instr>, aux: array<nat>)
    requires |prog| < NOT_ON_STACK && forall x :: 0 <= x < aux.Length ==> aux[x] == 0
    modifies aux
    ensures forall u, v :: 0 <= u < |prog| && 0 <= v < |prog| && u < aux.Length && v < aux.Length ==>
              ((aux[u] != 0 && aux[u] == aux[v]) <==> (OnCycle(FlowGraph(prog), u) && Mutual(FlowGraph(prog), u, v)))
    ensures forall u :: 0 <= u < |prog| && u < aux.Length ==> (aux[u] == 0 <==> !OnCycle(FlowGraph(prog), u))
    ensures forall u :: |prog| <= u < aux.Length ==> aux[u] == 0
  {
    hide OnCycle, Mutual, FlowGraph, Inv, Fresh;
    if |prog| == 0 { return; }
    var pass := new Pass(prog, aux);
    pass.Compute();
  }
}
