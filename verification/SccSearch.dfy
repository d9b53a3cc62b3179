/**
 The search for strongly connected components as a state machine: one transition per thing the
 iterative code does to its arrays and stacks, and the invariant they keep.
 */
module SccSearch {
  import opened Words
  import opened Reachability

  /** The lowlink of a node that has left the component stack; larger than any preorder number. */
  const NOT_ON_STACK: nat := U32_MAX

  /**
   `gray` is the search stack without its unvisited top, which is `pend`. `order` lists the visited
   nodes, so a preorder number is one more than a position in it; the code keeps only its length.
   */
  datatype State = State(
    pre: seq<nat>, low: seq<nat>, iter: seq<nat>, scc: seq<nat>,
    stack: seq<nat>, gray: seq<nat>, pend: Option<nat>, order: seq<nat>, ids: nat)

  predicate Sized(g: Graph, st: State) {
    |st.pre| == |st.low| == |st.iter| == |st.scc| == |g| < NOT_ON_STACK
  }

  function Pre(st: State, x: nat): nat {
    if x < |st.pre| then st.pre[x] else 0
  }

  function Low(st: State, x: nat): nat {
    if x < |st.low| then st.low[x] else NOT_ON_STACK
  }

  predicate OnStack(st: State, x: nat) {
    Pre(st, x) != 0 && Low(st, x) != NOT_ON_STACK
  }

  predicate Done(st: State, x: nat) {
    Pre(st, x) != 0 && Low(st, x) == NOT_ON_STACK
  }

  // ---------------------------------------------------------------- invariant

  /** Preorder numbers are positions in the order of visits. */
  ghost predicate Ordered(st: State) {
    && (forall i: nat :: i < |st.order| ==> Pre(st, st.order[i]) == i + 1)
    && (forall x: nat :: Pre(st, x) != 0 ==> VisitedAs(st, x))
  }

  predicate VisitedAs(st: State, x: nat)
    requires Pre(st, x) != 0
  {
    Pre(st, x) <= |st.order| && st.order[Pre(st, x) - 1] == x
  }

  /** The nodes of a list, in the order of their visits. */
  predicate Rising(st: State, s: seq<nat>) {
    forall i: nat, j: nat :: i < j < |s| ==> Pre(st, s[i]) < Pre(st, s[j])
  }

  /** The component stack holds the visited nodes without a component. */
  ghost predicate Stacked(st: State) {
    Rising(st, st.stack) && forall x: nat :: x in st.stack <==> OnStack(st, x)
  }

  ghost predicate Bounded(st: State) {
    forall x: nat :: OnStack(st, x) ==> Low(st, x) <= Pre(st, x)
  }

  /** The search stack is part of it. */
  ghost predicate Grays(st: State) {
    Rising(st, st.gray) && forall a: nat :: a in st.gray ==> OnStack(st, a)
  }

  predicate Pending(g: Graph, st: State) {
    st.pend.Some? ==>
      && st.pend.value < |g| && Pre(st, st.pend.value) == 0
      && (st.gray != [] ==> Edge(g, st.gray[|st.gray| - 1], st.pend.value))
  }

  /** A node of the search stack reaches everything above it. */
  ghost predicate Upward(g: Graph, st: State) {
    forall a: nat, y: nat :: UpwardTo(g, st, a, y)
  }

  ghost predicate UpwardTo(g: Graph, st: State, a: nat, y: nat) {
    a in st.gray && OnStack(st, y) && Pre(st, a) <= Pre(st, y) ==> Reach(g, a, y)
  }

  /** Every node of the component stack reaches some node of the search stack at or below it. */
  ghost predicate Downward(g: Graph, st: State) {
    forall x: nat :: OnStack(st, x) ==> ReachesGray(g, st, x)
  }

  ghost predicate ReachesGray(g: Graph, st: State, x: nat) {
    exists a: nat :: a in st.gray && Pre(st, a) <= Pre(st, x) && Reach(g, x, a)
  }

  /** A lowlink is the number of a node that is on the stack and can be reached. */
  ghost predicate Lowlinks(g: Graph, st: State) {
    forall x: nat :: OnStack(st, x) ==> LowlinkOf(g, st, x)
  }

  ghost predicate LowlinkOf(g: Graph, st: State, x: nat) {
    exists y: nat :: OnStack(st, y) && Pre(st, y) == Low(st, x) && Reach(g, x, y)
  }

  /** `gray[i]` is the last node of the search stack that was visited no later than `x`. */
  predicate Owner(st: State, i: nat, x: nat) {
    && i < |st.gray| && Pre(st, st.gray[i]) <= Pre(st, x)
    && (i + 1 < |st.gray| ==> Pre(st, x) < Pre(st, st.gray[i + 1]))
  }

  /** The node `x` has looked at its successor `v`. */
  predicate Saw(g: Graph, st: State, x: nat, v: nat) {
    x < |g| && x < |st.iter| && v < |g| && exists k: nat :: k < st.iter[x] && k < |g[x]| && g[x][k] == v
  }

  /** Whatever the nodes of a segment have seen on the stack is accounted for in its owner's lowlink. */
  ghost predicate Accounted(g: Graph, st: State) {
    forall i: nat, x: nat, v: nat :: AccountedFor(g, st, i, x, v)
  }

  predicate AccountedFor(g: Graph, st: State, i: nat, x: nat, v: nat) {
    Owner(st, i, x) && OnStack(st, x) && OnStack(st, v) && Saw(g, st, x, v) ==> Low(st, st.gray[i]) <= Pre(st, v)
  }

  /** Every successor looked at is visited, but for the one to be visited next. */
  ghost predicate Seen(g: Graph, st: State) {
    forall x: nat, v: nat :: SeenFrom(g, st, x, v)
  }

  predicate SeenFrom(g: Graph, st: State, x: nat, v: nat) {
    Pre(st, x) != 0 && Saw(g, st, x, v) ==> Pre(st, v) != 0 || st.pend == Some(v)
  }

  /** Only nodes of the search stack have successors left to look at. */
  ghost predicate Scanned(g: Graph, st: State) {
    forall x: nat, v: nat :: ScannedFrom(g, st, x, v)
  }

  predicate ScannedFrom(g: Graph, st: State, x: nat, v: nat) {
    Pre(st, x) != 0 && x !in st.gray && Edge(g, x, v) ==> Saw(g, st, x, v)
  }

  ghost predicate DoneClosed(g: Graph, st: State) {
    forall u: nat, v: nat :: Done(st, u) && Edge(g, u, v) ==> Done(st, v)
  }

  /** Components found so far: equal ids for mutually reachable nodes on cycles, and only for those. */
  ghost predicate Labelled(g: Graph, st: State)
    requires |st.scc| == |g|
  {
    && st.ids >= 1
    && (forall x: nat :: x < |g| ==> st.scc[x] < st.ids && (!Done(st, x) ==> st.scc[x] == 0))
    && (forall u: nat, v: nat :: u < |g| && v < |g| && Done(st, u) && Done(st, v) ==> LabelledPair(g, st, u, v))
  }

  ghost predicate LabelledPair(g: Graph, st: State, u: nat, v: nat)
    requires u < |st.scc| && v < |st.scc|
  {
    (st.scc[u] != 0 && st.scc[u] == st.scc[v]) <==> (OnCycle(g, u) && Mutual(g, u, v))
  }

  /** The order of visits and the two stacks. */
  ghost predicate Shape(g: Graph, st: State) {
    Sized(g, st) && Ordered(st) && Stacked(st) && Bounded(st) && Grays(st) && Pending(g, st)
  }

  ghost predicate Inv(g: Graph, st: State) {
    && Shape(g, st) && Upward(g, st) && Downward(g, st) && Lowlinks(g, st) && Accounted(g, st)
    && Seen(g, st) && Scanned(g, st) && DoneClosed(g, st) && Labelled(g, st)
  }

  // ---------------------------------------------------------------- preorder numbers

  /** There is always a preorder number left for an unvisited node, below the marker. */
  lemma OrderFits(g: Graph, st: State)
    requires Sized(g, st) && Ordered(st) && Pending(g, st)
    ensures |st.order| <= |g| && (st.pend.Some? ==> |st.order| < |g|)
  {
    assert Distinct(st.order) by {
      forall i, j | 0 <= i < j < |st.order| ensures st.order[i] != st.order[j] {
        assert Pre(st, st.order[i]) == i + 1 && Pre(st, st.order[j]) == j + 1;
      }
    }
    forall i | 0 <= i < |st.order| ensures st.order[i] < |g| { assert Pre(st, st.order[i]) == i + 1; }
    DistinctBelow(st.order, |g|);
    if st.pend.Some? {
      var w := st.pend.value;
      assert w !in st.order;
      DistinctBelow(st.order + [w], |g|);
    }
  }

  /** Different visited nodes have different numbers. */
  lemma SameNumber(st: State, x: nat, y: nat)
    requires Ordered(st) && Pre(st, x) == Pre(st, y) != 0
    ensures x == y
  {
    assert VisitedAs(st, x) && VisitedAs(st, y);
  }

  lemma NumbersFit(g: Graph, st: State, x: nat)
    requires Shape(g, st)
    ensures Pre(st, x) <= |st.order| < NOT_ON_STACK
    ensures OnStack(st, x) ==> Low(st, x) <= Pre(st, x)
    ensures x in st.gray ==> OnStack(st, x)
  {
    OrderFits(g, st);
    if Pre(st, x) != 0 { assert VisitedAs(st, x); }
  }

  // ---------------------------------------------------------------- visiting a node

  function Visit(st: State): State
    requires st.pend.Some? && st.pend.value < |st.pre| == |st.low| == |st.iter|
  {
    var w, n := st.pend.value, |st.order| + 1;
    st.(pre := st.pre[w := n], low := st.low[w := n], iter := st.iter[w := 0],
        stack := st.stack + [w], gray := st.gray + [w], pend := None, order := st.order + [w])
  }

  /** What the visit of `w` changes of a node. */
  lemma Visited(g: Graph, st: State, x: nat)
    requires Shape(g, st) && st.pend.Some?
    ensures var w, st' := st.pend.value, Visit(st);
            && Pre(st', x) == (if x == w then |st.order| + 1 else Pre(st, x))
            && Low(st', x) == (if x == w then |st.order| + 1 else Low(st, x))
            && (OnStack(st', x) <==> OnStack(st, x) || x == w)
            && (Done(st', x) <==> Done(st, x))
            && Pre(st, x) <= |st.order| < NOT_ON_STACK - 1
  {
    OrderFits(g, st);
    if Pre(st, x) != 0 { assert VisitedAs(st, x); }
  }

  lemma VisitShape(g: Graph, st: State)
    requires Shape(g, st) && st.pend.Some?
    ensures Shape(g, Visit(st))
  {
    var w, st' := st.pend.value, Visit(st);
    VisitOrdered(g, st);
    VisitRises(g, st, st.stack);
    VisitRises(g, st, st.gray);
    forall x: nat ensures x in st'.stack <==> OnStack(st', x) { Visited(g, st, x); }
    forall x: nat | OnStack(st', x) ensures Low(st', x) <= Pre(st', x) { Visited(g, st, x); NumbersFit(g, st, x); }
    forall a: nat | a in st'.gray ensures OnStack(st', a) { Visited(g, st, a); }
  }

  lemma VisitOrdered(g: Graph, st: State)
    requires Shape(g, st) && st.pend.Some?
    ensures Ordered(Visit(st))
  {
    var w, st' := st.pend.value, Visit(st);
    forall i: nat | i < |st'.order| ensures Pre(st', st'.order[i]) == i + 1 {
      Visited(g, st, st'.order[i]);
      if i < |st.order| { assert Pre(st, st.order[i]) == i + 1; }
    }
    forall x: nat | Pre(st', x) != 0 ensures VisitedAs(st', x) {
      Visited(g, st, x);
      if x != w { assert VisitedAs(st, x); }
    }
  }

  lemma VisitRises(g: Graph, st: State, s: seq<nat>)
    requires Shape(g, st) && st.pend.Some? && Rising(st, s) && forall x: nat :: x in s ==> OnStack(st, x)
    ensures Rising(Visit(st), s + [st.pend.value])
  {
    var s', st' := s + [st.pend.value], Visit(st);
    forall i: nat, j: nat | i < j < |s'| ensures Pre(st', s'[i]) < Pre(st', s'[j]) {
      Visited(g, st, s'[i]);
      Visited(g, st, s'[j]);
      assert OnStack(st, s[i]);
      if j < |s| { assert OnStack(st, s[j]); }
    }
  }

  lemma RisingLast(st: State, s: seq<nat>, a: nat)
    requires Rising(st, s) && a in s
    ensures Pre(st, a) <= Pre(st, s[|s| - 1])
  {
    var i :| 0 <= i < |s| && s[i] == a;
    if i < |s| - 1 { assert Pre(st, s[i]) < Pre(st, s[|s| - 1]); }
  }

  lemma VisitUpward(g: Graph, st: State)
    requires Shape(g, st) && Upward(g, st) && st.pend.Some?
    ensures Upward(g, Visit(st))
  {
    hide Reach;
    var w, st' := st.pend.value, Visit(st);
    forall a: nat, y: nat | a in st'.gray && OnStack(st', y) && Pre(st', a) <= Pre(st', y) ensures Reach(g, a, y) {
      assert UpwardTo(g, st, a, y);
      Visited(g, st, a);
      Visited(g, st, y);
      if a == y {
        ReachSelf(g, a);
      } else if y == w {
        var last := st.gray[|st.gray| - 1];
        RisingLast(st, st.gray, a);
        assert UpwardTo(g, st, a, last);
        ReachEdge(g, last, w);
        ReachTrans(g, a, last, w);
      }
    }
  }

  lemma VisitReachesGray(g: Graph, st: State, x: nat)
    requires Shape(g, st) && st.pend.Some? && (x == st.pend.value || ReachesGray(g, st, x))
    ensures ReachesGray(g, Visit(st), x)
  {
    hide Reach, Pre, Low, OnStack, Shape;
    ShapeSized(g, st);
    var w, st' := st.pend.value, Visit(st);
    Visited(g, st, x);
    if x == w {
      ReachSelf(g, w);
      assert w in st'.gray;
    } else {
      var a: nat :| a in st.gray && Pre(st, a) <= Pre(st, x) && Reach(g, x, a);
      Visited(g, st, a);
      PendNotGray(g, st);
      assert a in st'.gray;
    }
  }

  lemma PendNotGray(g: Graph, st: State)
    requires Shape(g, st) && st.pend.Some?
    ensures st.pend.value !in st.gray
  {
  }

  lemma VisitLowlink(g: Graph, st: State, x: nat)
    requires Shape(g, st) && st.pend.Some? && (x == st.pend.value || LowlinkOf(g, st, x))
    ensures LowlinkOf(g, Visit(st), x)
  {
    hide Reach, Pre, Low, Shape;
    ShapeSized(g, st);
    var w, st' := st.pend.value, Visit(st);
    Visited(g, st, x);
    if x == w {
      ReachSelf(g, w);
      assert OnStack(st', w);
    } else {
      var y: nat :| OnStack(st, y) && Pre(st, y) == Low(st, x) && Reach(g, x, y);
      Visited(g, st, y);
      assert OnStack(st', y) && Pre(st', y) == Low(st', x);
    }
  }

  lemma VisitDownward(g: Graph, st: State)
    requires Shape(g, st) && Downward(g, st) && Lowlinks(g, st) && st.pend.Some?
    ensures Downward(g, Visit(st)) && Lowlinks(g, Visit(st))
  {
    hide ReachesGray, LowlinkOf, Pre, Low, OnStack, Shape;
    ShapeSized(g, st);
    var st' := Visit(st);
    forall x: nat | OnStack(st', x) ensures ReachesGray(g, st', x) && LowlinkOf(g, st', x) {
      Visited(g, st, x);
      VisitReachesGray(g, st, x);
      VisitLowlink(g, st, x);
    }
  }

  lemma VisitSaw(g: Graph, st: State, x: nat, v: nat)
    requires Shape(g, st) && st.pend.Some?
    ensures Saw(g, Visit(st), x, v) <==> x != st.pend.value && Saw(g, st, x, v)
  {
  }

  lemma VisitOwner(g: Graph, st: State, i: nat, x: nat)
    requires Shape(g, st) && st.pend.Some? && Owner(Visit(st), i, x) && i < |st.gray| && x != st.pend.value
    ensures Owner(st, i, x)
  {
    hide Pre, Low, OnStack;
    Visited(g, st, x);
    Visited(g, st, st.gray[i]);
    PendNotGray(g, st);
    if i + 1 < |st.gray| { Visited(g, st, st.gray[i + 1]); }
  }

  lemma VisitAccountedFor(g: Graph, st: State, i: nat, x: nat, v: nat)
    requires Shape(g, st) && st.pend.Some?
    requires AccountedFor(g, st, i, x, v)
    ensures AccountedFor(g, Visit(st), i, x, v)
  {
    hide Reach, Saw, Pre, Low;
    var w, st' := st.pend.value, Visit(st);
    if Owner(st', i, x) && OnStack(st', x) && OnStack(st', v) && Saw(g, st', x, v) {
      VisitSaw(g, st, x, v);
      Visited(g, st, x);
      Visited(g, st, v);
      Visited(g, st, st'.gray[i]);
      if i < |st.gray| {
        PendNotGray(g, st);
        NumbersFit(g, st, st.gray[i]);
        VisitOwner(g, st, i, x);
      }
    }
  }

  lemma VisitAccounted(g: Graph, st: State)
    requires Shape(g, st) && Accounted(g, st) && st.pend.Some?
    ensures Accounted(g, Visit(st))
  {
    hide AccountedFor, OnStack;
    forall i: nat, x: nat, v: nat ensures AccountedFor(g, Visit(st), i, x, v) {
      assert AccountedFor(g, st, i, x, v);
      VisitAccountedFor(g, st, i, x, v);
    }
  }

  lemma VisitSeen(g: Graph, st: State)
    requires Shape(g, st) && Seen(g, st) && Scanned(g, st) && st.pend.Some?
    ensures Seen(g, Visit(st)) && Scanned(g, Visit(st))
  {
    hide Saw, Pre, Low;
    var w, st' := st.pend.value, Visit(st);
    forall x: nat, v: nat ensures SeenFrom(g, st', x, v) && ScannedFrom(g, st', x, v) {
      assert SeenFrom(g, st, x, v) && ScannedFrom(g, st, x, v);
      VisitSaw(g, st, x, v);
      Visited(g, st, x);
      Visited(g, st, v);
      assert w in st'.gray && (x in st.gray ==> x in st'.gray);
    }
  }

  lemma VisitDone(g: Graph, st: State)
    requires Shape(g, st) && DoneClosed(g, st) && Labelled(g, st) && st.pend.Some?
    ensures DoneClosed(g, Visit(st)) && Labelled(g, Visit(st))
  {
    hide Reach, OnCycle, Mutual;
    var st' := Visit(st);
    forall x: nat ensures Done(st', x) <==> Done(st, x) { Visited(g, st, x); }
    forall u: nat, v: nat | u < |g| && v < |g| && Done(st', u) && Done(st', v) ensures LabelledPair(g, st', u, v) {
      assert LabelledPair(g, st, u, v);
    }
  }

  lemma VisitKeeps(g: Graph, st: State)
    requires Inv(g, st) && st.pend.Some?
    ensures Inv(g, Visit(st))
  {
    hide Upward, Downward, Lowlinks, Accounted, Seen, Scanned, DoneClosed, Labelled, Shape;
    ShapeSized(g, st);
    VisitShape(g, st);
    VisitUpward(g, st);
    VisitDownward(g, st);
    VisitAccounted(g, st);
    VisitSeen(g, st);
    VisitDone(g, st);
  }

  lemma ShapeSized(g: Graph, st: State)
    requires Shape(g, st)
    ensures Sized(g, st) && Pending(g, st)
  {
  }

  // ---------------------------------------------------------------- looking at the next successor

  function Top(st: State): nat
    requires st.gray != []
  {
    st.gray[|st.gray| - 1]
  }

  /** The top of the search stack is visited and has a successor left. */
  predicate CanLook(g: Graph, st: State) {
    st.gray != [] && st.pend.None? && Top(st) < |g| && Top(st) < |st.iter| && st.iter[Top(st)] < |g[Top(st)]|
  }

  function NextSucc(g: Graph, st: State): nat
    requires CanLook(g, st)
  {
    g[Top(st)][st.iter[Top(st)]]
  }

  function Look(g: Graph, st: State): State
    requires CanLook(g, st) && Sized(g, st)
  {
    var w, s := Top(st), NextSucc(g, st);
    var st1 := st.(iter := st.iter[w := st.iter[w] + 1]);
    if s >= |g| then st1
    else if st.pre[s] == 0 then st1.(pend := Some(s))
    else st1.(low := st.low[w := Min(st.low[w], st.low[s])])
  }

  lemma Looked(g: Graph, st: State, x: nat)
    requires Shape(g, st) && CanLook(g, st)
    ensures var st' := Look(g, st);
            && Pre(st', x) == Pre(st, x) && (OnStack(st', x) <==> OnStack(st, x)) && (Done(st', x) <==> Done(st, x))
            && Low(st', x) <= Low(st, x) && (x != Top(st) ==> Low(st', x) == Low(st, x))
  {
    NumbersFit(g, st, Top(st));
  }

  lemma LookedAtTop(g: Graph, st: State)
    requires Shape(g, st) && CanLook(g, st)
    ensures var w, s := Top(st), NextSucc(g, st);
            && OnStack(st, w) && (s < |g| ==> Edge(g, w, s))
            && Low(Look(g, st), w) == (if s < |g| && OnStack(st, s) then Min(Low(st, w), Low(st, s)) else Low(st, w))
  {
    NumbersFit(g, st, Top(st));
  }

  lemma LookSaw(g: Graph, st: State, x: nat, v: nat)
    requires Shape(g, st) && CanLook(g, st)
    ensures Saw(g, Look(g, st), x, v) <==> Saw(g, st, x, v) || (x == Top(st) && v == NextSucc(g, st) && v < |g|)
  {
    var w, st' := Top(st), Look(g, st);
    if x == w && v == NextSucc(g, st) && v < |g| {
      var k := st.iter[w];
      assert k < st'.iter[x] && k < |g[x]| && g[x][k] == v;
    }
    if Saw(g, st', x, v) {
      var k: nat :| k < st'.iter[x] && k < |g[x]| && g[x][k] == v;
    }
  }

  /** A transition that visits nothing and finishes nothing: numbers and stack membership stay. */
  ghost predicate Calm(st: State, st': State) {
    && st'.order == st.order && st'.stack == st.stack
    && forall x: nat :: CalmAt(st, st', x)
  }

  predicate CalmAt(st: State, st': State, x: nat) {
    && Pre(st', x) == Pre(st, x) && Low(st', x) <= Low(st, x)
    && (OnStack(st', x) <==> OnStack(st, x)) && (Done(st', x) <==> Done(st, x))
  }

  lemma CalmRises(st: State, st': State, s: seq<nat>)
    requires Calm(st, st') && Rising(st, s)
    ensures Rising(st', s)
  {
    hide Pre, Low, OnStack, Done;
    forall i: nat, j: nat | i < j < |s| ensures Pre(st', s[i]) < Pre(st', s[j]) {
      assert CalmAt(st, st', s[i]) && CalmAt(st, st', s[j]);
    }
  }

  lemma CalmOrder(st: State, st': State)
    requires Calm(st, st') && Ordered(st)
    ensures Ordered(st')
  {
    hide Pre, Low, OnStack, Done;
    forall i: nat | i < |st'.order| ensures Pre(st', st'.order[i]) == i + 1 { assert CalmAt(st, st', st.order[i]); }
    forall x: nat | Pre(st', x) != 0 ensures VisitedAs(st', x) { assert CalmAt(st, st', x) && VisitedAs(st, x); }
  }

  lemma CalmStacks(st: State, st': State)
    requires Calm(st, st') && Stacked(st) && Bounded(st)
    ensures Stacked(st') && Bounded(st')
  {
    hide Pre, Low, OnStack, Done, Rising;
    CalmRises(st, st', st.stack);
    forall x: nat ensures x in st'.stack <==> OnStack(st', x) { assert CalmAt(st, st', x); }
    forall x: nat | OnStack(st', x) ensures Low(st', x) <= Pre(st', x) { assert CalmAt(st, st', x); }
  }

  lemma CalmLabels(g: Graph, st: State, st': State)
    requires Calm(st, st') && DoneClosed(g, st) && |st.scc| == |g| && Labelled(g, st) && st'.scc == st.scc && st'.ids == st.ids
    ensures DoneClosed(g, st') && Labelled(g, st')
  {
    hide Pre, Low, OnStack, Done, OnCycle, Mutual;
    forall x: nat ensures Done(st', x) <==> Done(st, x) { assert CalmAt(st, st', x); }
    forall u: nat, v: nat | u < |g| && v < |g| && Done(st', u) && Done(st', v) ensures LabelledPair(g, st', u, v) {
      assert LabelledPair(g, st, u, v);
    }
  }

  lemma LookIsCalm(g: Graph, st: State)
    requires Shape(g, st) && CanLook(g, st)
    ensures Calm(st, Look(g, st))
  {
    hide Pre, Low, OnStack, Done, Shape;
    ShapeSized(g, st);
    forall x: nat ensures CalmAt(st, Look(g, st), x) { Looked(g, st, x); }
  }

  lemma LookShape(g: Graph, st: State)
    requires Shape(g, st) && CanLook(g, st)
    ensures Shape(g, Look(g, st))
  {
    hide Calm, Ordered, Stacked, Bounded, Rising;
    var st' := Look(g, st);
    LookIsCalm(g, st);
    CalmOrder(st, st');
    CalmStacks(st, st');
    CalmRises(st, st', st.gray);
    LookedAtTop(g, st);
    forall a: nat | a in st'.gray ensures OnStack(st', a) { Looked(g, st, a); }
    Looked(g, st, NextSucc(g, st));
  }

  lemma LookReaches(g: Graph, st: State)
    requires Shape(g, st) && CanLook(g, st) && Upward(g, st) && Downward(g, st)
    ensures Upward(g, Look(g, st)) && Downward(g, Look(g, st))
  {
    hide Reach, Pre, Low, OnStack, Shape;
    ShapeSized(g, st);
    var st' := Look(g, st);
    forall a: nat, y: nat ensures UpwardTo(g, st', a, y) {
      assert UpwardTo(g, st, a, y);
      Looked(g, st, a);
      Looked(g, st, y);
    }
    forall x: nat | OnStack(st', x) ensures ReachesGray(g, st', x) {
      Looked(g, st, x);
      assert ReachesGray(g, st, x);
      var a: nat :| a in st.gray && Pre(st, a) <= Pre(st, x) && Reach(g, x, a);
      Looked(g, st, a);
      assert a in st'.gray;
    }
  }

  lemma LowWitness(g: Graph, st: State, x: nat) returns (y: nat)
    requires Lowlinks(g, st) && OnStack(st, x)
    ensures OnStack(st, y) && Pre(st, y) == Low(st, x) && Reach(g, x, y)
  {
    hide Reach, Pre, Low, OnStack;
    assert LowlinkOf(g, st, x);
    y :| OnStack(st, y) && Pre(st, y) == Low(st, x) && Reach(g, x, y);
  }

  lemma GrayWitness(g: Graph, st: State, x: nat) returns (a: nat)
    requires Downward(g, st) && OnStack(st, x)
    ensures a in st.gray && Pre(st, a) <= Pre(st, x) && Reach(g, x, a)
  {
    hide Reach, Pre, Low, OnStack;
    assert ReachesGray(g, st, x);
    a :| a in st.gray && Pre(st, a) <= Pre(st, x) && Reach(g, x, a);
  }

  lemma LookLowlink(g: Graph, st: State, x: nat)
    requires Shape(g, st) && CanLook(g, st) && Lowlinks(g, st) && OnStack(st, x)
    ensures LowlinkOf(g, Look(g, st), x)
  {
    hide Reach, Pre, Low, OnStack, Done, Look, Shape, Lowlinks;
    ShapeSized(g, st);
    var w, s, st' := Top(st), NextSucc(g, st), Look(g, st);
    Looked(g, st, x);
    LookedAtTop(g, st);
    var from := if x == w && Low(st', w) != Low(st, w) then s else x;
    var y := LowWitness(g, st, from);
    Looked(g, st, y);
    if from != x {
      ReachEdge(g, w, s);
      ReachTrans(g, w, s, y);
    }
    assert OnStack(st', y) && Pre(st', y) == Low(st', x);
  }

  /** The top of the search stack owns itself, and nothing below it does. */
  lemma TopOwner(g: Graph, st: State, i: nat)
    requires Shape(g, st) && st.gray != [] && Owner(st, i, Top(st))
    ensures i == |st.gray| - 1
  {
    assert i + 1 < |st.gray| ==> st.gray[i + 1] in st.gray;
    if i + 1 < |st.gray| { RisingLast(st, st.gray, st.gray[i + 1]); }
  }

  lemma LookOwner(g: Graph, st: State, i: nat, x: nat)
    requires Shape(g, st) && CanLook(g, st) && Owner(Look(g, st), i, x)
    ensures i < |st.gray| && Owner(st, i, x)
  {
    hide Pre, Low, OnStack, Shape;
    ShapeSized(g, st);
    Looked(g, st, x);
    Looked(g, st, st.gray[i]);
    if i + 1 < |st.gray| { Looked(g, st, st.gray[i + 1]); }
  }

  lemma LookAccountedFor(g: Graph, st: State, i: nat, x: nat, v: nat)
    requires Shape(g, st) && CanLook(g, st) && AccountedFor(g, st, i, x, v)
    ensures AccountedFor(g, Look(g, st), i, x, v)
  {
    hide Reach, Saw, Pre, Low, Shape, Owner, OnStack;
    ShapeSized(g, st);
    var w, st' := Top(st), Look(g, st);
    if Owner(st', i, x) && OnStack(st', x) && OnStack(st', v) && Saw(g, st', x, v) {
      LookSaw(g, st, x, v);
      LookOwner(g, st, i, x);
      Looked(g, st, x);
      Looked(g, st, v);
      Looked(g, st, st.gray[i]);
      if !Saw(g, st, x, v) {
        TopOwner(g, st, i);
        LookedAtTop(g, st);
        NumbersFit(g, st, v);
      }
    }
  }

  lemma LookRest(g: Graph, st: State)
    requires Shape(g, st) && CanLook(g, st) && Seen(g, st) && Scanned(g, st)
    ensures Seen(g, Look(g, st)) && Scanned(g, Look(g, st))
  {
    hide Saw, Low;
    var st' := Look(g, st);
    forall x: nat, v: nat ensures SeenFrom(g, st', x, v) && ScannedFrom(g, st', x, v) {
      assert SeenFrom(g, st, x, v) && ScannedFrom(g, st, x, v);
      LookSaw(g, st, x, v);
      Looked(g, st, x);
      Looked(g, st, v);
    }
  }

  lemma LookLabels(g: Graph, st: State)
    requires Sized(g, st) && CanLook(g, st)
    ensures Look(g, st).scc == st.scc && Look(g, st).ids == st.ids
  {
  }

  lemma LookKeeps(g: Graph, st: State)
    requires Inv(g, st) && CanLook(g, st)
    ensures Inv(g, Look(g, st))
  {
    hide Upward, Downward, LowlinkOf, AccountedFor, OnStack, Seen, Scanned, DoneClosed, Labelled, Shape, Look;
    ShapeSized(g, st);
    LookShape(g, st);
    LookReaches(g, st);
    forall x: nat | OnStack(Look(g, st), x) ensures LowlinkOf(g, Look(g, st), x) {
      Looked(g, st, x);
      LookLowlink(g, st, x);
    }
    forall i: nat, x: nat, v: nat ensures AccountedFor(g, Look(g, st), i, x, v) {
      assert AccountedFor(g, st, i, x, v);
      LookAccountedFor(g, st, i, x, v);
    }
    LookRest(g, st);
    LookIsCalm(g, st);
    LookLabels(g, st);
    CalmLabels(g, st, Look(g, st));
  }

  // ---------------------------------------------------------------- leaving a node that is no root

  /** The top of the search stack has looked at all its successors. */
  predicate Finished(g: Graph, st: State) {
    st.gray != [] && st.pend.None? && Top(st) < |g| && Top(st) < |st.iter| && st.iter[Top(st)] >= |g[Top(st)]|
  }

  function Retreat(st: State): State
    requires st.gray != []
  {
    var w, gray := Top(st), st.gray[..|st.gray| - 1];
    if gray == [] then st.(gray := gray)
    else
      var parent := gray[|gray| - 1];
      if parent < |st.low| then st.(gray := gray, low := st.low[parent := Min(Low(st, parent), Low(st, w))])
      else st.(gray := gray)
  }

  lemma Retreated(g: Graph, st: State, x: nat)
    requires Shape(g, st) && st.gray != []
    ensures var st' := Retreat(st);
            && Pre(st', x) == Pre(st, x) && (OnStack(st', x) <==> OnStack(st, x)) && (Done(st', x) <==> Done(st, x))
            && Low(st', x) == (if |st.gray| > 1 && x == st.gray[|st.gray| - 2] then Min(Low(st, x), Low(st, Top(st))) else Low(st, x))
  {
    NumbersFit(g, st, Top(st));
    if |st.gray| > 1 { NumbersFit(g, st, st.gray[|st.gray| - 2]); }
  }

  lemma RetreatIsCalm(g: Graph, st: State)
    requires Shape(g, st) && st.gray != []
    ensures Calm(st, Retreat(st)) && Retreat(st).scc == st.scc && Retreat(st).ids == st.ids
  {
    hide Pre, Low, OnStack, Done, Shape;
    forall x: nat ensures CalmAt(st, Retreat(st), x) { Retreated(g, st, x); }
  }

  lemma RetreatShape(g: Graph, st: State)
    requires Shape(g, st) && Finished(g, st)
    ensures Shape(g, Retreat(st))
  {
    hide Calm, Ordered, Stacked, Bounded, Rising;
    var st' := Retreat(st);
    RetreatIsCalm(g, st);
    CalmOrder(st, st');
    CalmStacks(st, st');
    CalmRises(st, st', st.gray);
    RisingPrefix(st', st.gray, |st.gray| - 1);
    forall a: nat | a in st'.gray ensures OnStack(st', a) { Retreated(g, st, a); }
  }

  lemma RisingPrefix(st: State, s: seq<nat>, n: nat)
    requires Rising(st, s) && n <= |s|
    ensures Rising(st, s[..n])
  {
    hide Pre;
  }

  /** All but the top of the search stack were visited before it. */
  lemma BelowTop(g: Graph, st: State, a: nat)
    requires Shape(g, st) && st.gray != [] && a in st.gray
    ensures a in st.gray[..|st.gray| - 1] <==> Pre(st, a) < Pre(st, Top(st))
    ensures a == Top(st) || Pre(st, a) < Pre(st, Top(st))
  {
    var m := |st.gray| - 1;
    var i :| 0 <= i <= m && st.gray[i] == a;
    if i < m { assert st.gray[..m][i] == a; }
    if a in st.gray[..m] {
      var j :| 0 <= j < m && st.gray[..m][j] == a;
      assert Pre(st, st.gray[j]) < Pre(st, st.gray[m]);
    }
  }

  lemma RetreatUpward(g: Graph, st: State)
    requires Shape(g, st) && st.gray != [] && Upward(g, st)
    ensures Upward(g, Retreat(st))
  {
    hide Reach, Pre, Low, OnStack, Done, Shape;
    var st' := Retreat(st);
    forall a: nat, y: nat ensures UpwardTo(g, st', a, y) {
      assert UpwardTo(g, st, a, y);
      Retreated(g, st, a);
      Retreated(g, st, y);
    }
  }

  /** A node that is no root reaches something lower, and through it the rest of the search stack. */
  lemma TopReachesLower(g: Graph, st: State) returns (a: nat)
    requires Shape(g, st) && st.gray != [] && Downward(g, st) && Lowlinks(g, st) && Low(st, Top(st)) < Pre(st, Top(st))
    ensures a in st.gray && Pre(st, a) < Pre(st, Top(st)) && Reach(g, Top(st), a)
  {
    hide Reach, Pre, Low, OnStack, Done, Shape, Lowlinks, Downward;
    var w := Top(st);
    NumbersFit(g, st, w);
    var y := LowWitness(g, st, w);
    a := GrayWitness(g, st, y);
    ReachTrans(g, w, y, a);
  }

  lemma RetreatReachesGray(g: Graph, st: State, x: nat)
    requires Shape(g, st) && st.gray != [] && Downward(g, st) && Lowlinks(g, st) && Low(st, Top(st)) < Pre(st, Top(st))
    requires OnStack(st, x)
    ensures ReachesGray(g, Retreat(st), x)
  {
    hide Reach, Pre, Low, OnStack, Done, Shape, Lowlinks, Downward;
    var w, st' := Top(st), Retreat(st);
    var low := TopReachesLower(g, st);
    var a := GrayWitness(g, st, x);
    BelowTop(g, st, a);
    BelowTop(g, st, low);
    Retreated(g, st, x);
    Retreated(g, st, a);
    Retreated(g, st, low);
    if a == w {
      ReachTrans(g, x, w, low);
      assert low in st'.gray;
    } else {
      assert a in st'.gray;
    }
  }

  lemma RetreatLowlink(g: Graph, st: State, x: nat)
    requires Shape(g, st) && st.gray != [] && Upward(g, st) && Lowlinks(g, st) && OnStack(st, x)
    ensures LowlinkOf(g, Retreat(st), x)
  {
    hide Reach, Pre, Low, OnStack, Done, Shape, Retreat, Lowlinks;
    var w, st' := Top(st), Retreat(st);
    Retreated(g, st, x);
    NumbersFit(g, st, w);
    var from := if Low(st', x) != Low(st, x) then w else x;
    var y := LowWitness(g, st, from);
    Retreated(g, st, y);
    if from != x {
      BelowTop(g, st, x);
      assert UpwardTo(g, st, x, w);
      ReachTrans(g, x, w, y);
    }
    assert OnStack(st', y) && Pre(st', y) == Low(st', x);
  }

  lemma RetreatAccountedFor(g: Graph, st: State, i: nat, x: nat, v: nat)
    requires Shape(g, st) && st.gray != [] && AccountedFor(g, st, i, x, v) && AccountedFor(g, st, |st.gray| - 1, x, v)
    ensures AccountedFor(g, Retreat(st), i, x, v)
  {
    hide Pre, Low, OnStack, Done, Shape, Saw;
    var w, st' := Top(st), Retreat(st);
    if Owner(st', i, x) && OnStack(st', x) && OnStack(st', v) && Saw(g, st', x, v) {
      RetreatSaw(g, st, x, v);
      Retreated(g, st, x);
      Retreated(g, st, v);
      Retreated(g, st, st.gray[i]);
      Retreated(g, st, st.gray[i + 1]);
      assert Owner(st, i, x) || (i + 2 == |st.gray| && Owner(st, i + 1, x));
    }
  }

  lemma RetreatSaw(g: Graph, st: State, x: nat, v: nat)
    requires st.gray != []
    ensures Saw(g, Retreat(st), x, v) <==> Saw(g, st, x, v)
  {
  }

  lemma FinishedSaw(g: Graph, st: State, v: nat)
    requires Finished(g, st) && Edge(g, Top(st), v)
    ensures Saw(g, st, Top(st), v)
  {
    var w := Top(st);
    var k :| 0 <= k < |g[w]| && g[w][k] == v;
  }

  lemma RetreatRest(g: Graph, st: State)
    requires Shape(g, st) && Finished(g, st) && Seen(g, st) && Scanned(g, st)
    ensures Seen(g, Retreat(st)) && Scanned(g, Retreat(st))
  {
    hide Pre, Low, OnStack, Done, Shape, Saw;
    var st' := Retreat(st);
    forall x: nat, v: nat ensures SeenFrom(g, st', x, v) && ScannedFrom(g, st', x, v) {
      assert SeenFrom(g, st, x, v) && ScannedFrom(g, st, x, v);
      RetreatSaw(g, st, x, v);
      Retreated(g, st, x);
      Retreated(g, st, v);
      if x in st.gray { BelowTop(g, st, x); }
      if x == Top(st) && Edge(g, x, v) { FinishedSaw(g, st, v); }
    }
  }

  lemma RetreatKeeps(g: Graph, st: State)
    requires Inv(g, st) && Finished(g, st) && Low(st, Top(st)) < Pre(st, Top(st))
    ensures Inv(g, Retreat(st)) && |st.gray| > 1
  {
    hide Upward, Downward, Lowlinks, LowlinkOf, ReachesGray, AccountedFor, OnStack, Done, Seen, Scanned, DoneClosed, Labelled, Shape;
    var a := TopReachesLower(g, st);
    BelowTop(g, st, a);
    RetreatShape(g, st);
    RetreatUpward(g, st);
    RetreatRest(g, st);
    RetreatIsCalm(g, st);
    ShapeSized(g, st);
    CalmLabels(g, st, Retreat(st));
    RetreatStacks(g, st);
    forall i: nat, x: nat, v: nat ensures AccountedFor(g, Retreat(st), i, x, v) {
      assert AccountedFor(g, st, i, x, v) && AccountedFor(g, st, |st.gray| - 1, x, v);
      RetreatAccountedFor(g, st, i, x, v);
    }
  }

  lemma RetreatStacks(g: Graph, st: State)
    requires Shape(g, st) && st.gray != [] && Upward(g, st) && Downward(g, st) && Lowlinks(g, st)
    requires Low(st, Top(st)) < Pre(st, Top(st))
    ensures Downward(g, Retreat(st)) && Lowlinks(g, Retreat(st))
  {
    hide Upward, ReachesGray, LowlinkOf, OnStack, Done, Shape, Retreat;
    forall x: nat | OnStack(Retreat(st), x) ensures ReachesGray(g, Retreat(st), x) && LowlinkOf(g, Retreat(st), x) {
      Retreated(g, st, x);
      RetreatReachesGray(g, st, x);
      RetreatLowlink(g, st, x);
    }
  }

  // ---------------------------------------------------------------- leaving the root of a component

  /** `stack[j]` is the top of the search stack, and its lowlink is its own number. */
  predicate IsRoot(g: Graph, st: State, j: nat) {
    Finished(g, st) && j < |st.stack| && st.stack[j] == Top(st) && Low(st, Top(st)) == Pre(st, Top(st))
  }

  /** A component gets an id if it has more than one node or its node is its own successor. */
  predicate Assigns(g: Graph, st: State)
    requires st.stack != [] && st.gray != [] && Top(st) < |g|
  {
    st.stack[|st.stack| - 1] != Top(st) || Top(st) in g[Top(st)]
  }

  function Emit(g: Graph, st: State, j: nat): State
    requires IsRoot(g, st, j)
  {
    var comp, assign := st.stack[j..], Assigns(g, st);
    st.(low := seq(|st.low|, x requires 0 <= x < |st.low| => if x in comp then NOT_ON_STACK else st.low[x]),
        scc := seq(|st.scc|, x requires 0 <= x < |st.scc| => if x in comp && assign then st.ids else st.scc[x]),
        stack := st.stack[..j], gray := st.gray[..|st.gray| - 1],
        ids := st.ids + if assign then 1 else 0)
  }

  /** The component: what is on the stack from the root on. */
  predicate InComp(st: State, x: nat)
    requires st.gray != []
  {
    OnStack(st, x) && Pre(st, Top(st)) <= Pre(st, x)
  }

  lemma CompIsSuffix(g: Graph, st: State, j: nat, x: nat)
    requires Shape(g, st) && IsRoot(g, st, j)
    ensures x in st.stack[j..] <==> InComp(st, x)
    ensures x in st.stack[..j] <==> OnStack(st, x) && Pre(st, x) < Pre(st, Top(st))
  {
    hide Pre, Low, OnStack, Done;
    if x in st.stack {
      var i :| 0 <= i < |st.stack| && st.stack[i] == x;
      if i < j { assert Pre(st, st.stack[i]) < Pre(st, st.stack[j]); assert st.stack[..j][i] == x; }
      if i > j { assert Pre(st, st.stack[j]) < Pre(st, st.stack[i]); }
      if i >= j { assert st.stack[j..][i - j] == x; }
    }
    if x in st.stack[..j] {
      var i :| 0 <= i < j && st.stack[..j][i] == x;
      assert st.stack[i] == x && Pre(st, st.stack[i]) < Pre(st, st.stack[j]);
    }
    if x in st.stack[j..] {
      var i :| 0 <= i < |st.stack| - j && st.stack[j..][i] == x;
      assert st.stack[j + i] == x;
      if i > 0 { assert Pre(st, st.stack[j]) < Pre(st, st.stack[j + i]); }
    }
  }

  lemma Emitted(g: Graph, st: State, j: nat, x: nat)
    requires Shape(g, st) && IsRoot(g, st, j)
    ensures var st' := Emit(g, st, j);
            && Pre(st', x) == Pre(st, x) && Low(st', x) == (if InComp(st, x) then NOT_ON_STACK else Low(st, x))
            && (OnStack(st', x) <==> OnStack(st, x) && !InComp(st, x))
            && (Done(st', x) <==> Done(st, x) || InComp(st, x))
  {
    CompIsSuffix(g, st, j, x);
  }

  lemma EmitSaw(g: Graph, st: State, j: nat, x: nat, v: nat)
    requires IsRoot(g, st, j)
    ensures Saw(g, Emit(g, st, j), x, v) <==> Saw(g, st, x, v)
  {
  }

  lemma EmitRises(g: Graph, st: State, j: nat, s: seq<nat>)
    requires Shape(g, st) && IsRoot(g, st, j) && Rising(st, s)
    ensures Rising(Emit(g, st, j), s)
  {
    hide Pre, Low, OnStack, Done, Shape, InComp, Emit;
    forall i: nat, k: nat | i < k < |s| ensures Pre(Emit(g, st, j), s[i]) < Pre(Emit(g, st, j), s[k]) {
      Emitted(g, st, j, s[i]);
      Emitted(g, st, j, s[k]);
    }
  }

  lemma EmitOrdered(g: Graph, st: State, j: nat)
    requires Shape(g, st) && IsRoot(g, st, j)
    ensures Ordered(Emit(g, st, j))
  {
    hide Pre, Low, OnStack, Done, InComp;
    var st' := Emit(g, st, j);
    forall i: nat | i < |st'.order| ensures Pre(st', st'.order[i]) == i + 1 { Emitted(g, st, j, st.order[i]); }
    forall x: nat | Pre(st', x) != 0 ensures VisitedAs(st', x) {
      Emitted(g, st, j, x);
      assert VisitedAs(st, x);
    }
  }

  lemma EmitShape(g: Graph, st: State, j: nat)
    requires Shape(g, st) && IsRoot(g, st, j)
    ensures Shape(g, Emit(g, st, j))
  {
    hide Pre, Low, OnStack, Done, InComp, Ordered, Rising;
    var st' := Emit(g, st, j);
    EmitOrdered(g, st, j);
    RisingPrefix(st, st.stack, j);
    EmitRises(g, st, j, st.stack[..j]);
    RisingPrefix(st, st.gray, |st.gray| - 1);
    EmitRises(g, st, j, st.gray[..|st.gray| - 1]);
    forall x: nat ensures x in st'.stack <==> OnStack(st', x) { CompIsSuffix(g, st, j, x); Emitted(g, st, j, x); CompIs(st, x); }
    forall x: nat | OnStack(st', x) ensures Low(st', x) <= Pre(st', x) { Emitted(g, st, j, x); NumbersFit(g, st, x); }
    forall a: nat | a in st'.gray ensures OnStack(st', a) { BelowTop(g, st, a); Emitted(g, st, j, a); CompIs(st, a); }
  }

  lemma CompIs(st: State, x: nat)
    requires st.gray != []
    ensures InComp(st, x) <==> OnStack(st, x) && Pre(st, Top(st)) <= Pre(st, x)
  {
  }

  lemma EmitUpward(g: Graph, st: State, j: nat)
    requires Shape(g, st) && IsRoot(g, st, j) && Upward(g, st)
    ensures Upward(g, Emit(g, st, j))
  {
    hide Reach, Pre, Low, OnStack, Done, Shape, InComp;
    var st' := Emit(g, st, j);
    forall a: nat, y: nat ensures UpwardTo(g, st', a, y) {
      assert UpwardTo(g, st, a, y);
      Emitted(g, st, j, a);
      Emitted(g, st, j, y);
    }
  }

  lemma EmitStackAt(g: Graph, st: State, j: nat, x: nat)
    requires Shape(g, st) && IsRoot(g, st, j) && Downward(g, st) && Lowlinks(g, st) && OnStack(Emit(g, st, j), x)
    ensures ReachesGray(g, Emit(g, st, j), x) && LowlinkOf(g, Emit(g, st, j), x)
  {
    hide Reach, Pre, Low, OnStack, Done, Shape, InComp, Downward, Lowlinks;
    var st' := Emit(g, st, j);
    Emitted(g, st, j, x);
    CompIs(st, x);
    var a := GrayWitness(g, st, x);
    Emitted(g, st, j, a);
    BelowTop(g, st, a);
    assert a in st'.gray;
    var y := LowWitness(g, st, x);
    NumbersFit(g, st, x);
    Emitted(g, st, j, y);
    CompIs(st, y);
    assert OnStack(st', y) && Pre(st', y) == Low(st', x);
  }

  lemma EmitStacks(g: Graph, st: State, j: nat)
    requires Shape(g, st) && IsRoot(g, st, j) && Downward(g, st) && Lowlinks(g, st)
    ensures Downward(g, Emit(g, st, j)) && Lowlinks(g, Emit(g, st, j))
  {
    hide ReachesGray, LowlinkOf, OnStack, Done, Shape, Emit;
    forall x: nat | OnStack(Emit(g, st, j), x)
      ensures ReachesGray(g, Emit(g, st, j), x) && LowlinkOf(g, Emit(g, st, j), x)
    {
      EmitStackAt(g, st, j, x);
    }
  }

  lemma EmitAccountedFor(g: Graph, st: State, j: nat, i: nat, x: nat, v: nat)
    requires Shape(g, st) && IsRoot(g, st, j) && AccountedFor(g, st, i, x, v)
    ensures AccountedFor(g, Emit(g, st, j), i, x, v)
  {
    hide Pre, Low, OnStack, Done, Shape, Saw, InComp;
    var st' := Emit(g, st, j);
    if Owner(st', i, x) && OnStack(st', x) && OnStack(st', v) && Saw(g, st', x, v) {
      EmitSaw(g, st, j, x, v);
      Emitted(g, st, j, x);
      CompIs(st, x);
      Emitted(g, st, j, v);
      Emitted(g, st, j, st.gray[i]);
      Emitted(g, st, j, st.gray[i + 1]);
      assert st.gray[i] in st'.gray;
      BelowTop(g, st, st.gray[i]);
      CompIs(st, st.gray[i]);
      assert Owner(st, i, x);
    }
  }

  lemma EmitRest(g: Graph, st: State, j: nat)
    requires Shape(g, st) && IsRoot(g, st, j) && Seen(g, st) && Scanned(g, st)
    ensures Seen(g, Emit(g, st, j)) && Scanned(g, Emit(g, st, j))
  {
    hide Pre, Low, OnStack, Done, Shape, Saw, InComp;
    var st' := Emit(g, st, j);
    forall x: nat, v: nat ensures SeenFrom(g, st', x, v) && ScannedFrom(g, st', x, v) {
      assert SeenFrom(g, st, x, v) && ScannedFrom(g, st, x, v);
      EmitSaw(g, st, j, x, v);
      Emitted(g, st, j, x);
      Emitted(g, st, j, v);
      if x in st.gray { BelowTop(g, st, x); }
      if x == Top(st) && Edge(g, x, v) { FinishedSaw(g, st, v); }
    }
  }

  /** No edge leads from the component to anything lower on the stack. */
  lemma CompClosed(g: Graph, st: State, j: nat, u: nat, v: nat)
    requires Shape(g, st) && IsRoot(g, st, j) && Accounted(g, st) && Seen(g, st) && Scanned(g, st)
    requires InComp(st, u) && Edge(g, u, v)
    ensures InComp(st, v) || Done(st, v)
  {
    hide Pre, Low, Shape, Saw;
    var w, m := Top(st), |st.gray| - 1;
    if u == w {
      FinishedSaw(g, st, v);
    } else {
      if u in st.gray { BelowTop(g, st, u); }
      assert ScannedFrom(g, st, u, v);
    }
    assert SeenFrom(g, st, u, v) && AccountedFor(g, st, m, u, v);
    assert Owner(st, m, u);
  }

  lemma EmitDoneClosed(g: Graph, st: State, j: nat)
    requires Shape(g, st) && IsRoot(g, st, j) && Accounted(g, st) && Seen(g, st) && Scanned(g, st) && DoneClosed(g, st)
    ensures DoneClosed(g, Emit(g, st, j))
  {
    hide Pre, Low, OnStack, Done, Shape, InComp, Accounted, Seen, Scanned;
    var st' := Emit(g, st, j);
    forall u: nat, v: nat | Done(st', u) && Edge(g, u, v) ensures Done(st', v) {
      Emitted(g, st, j, u);
      Emitted(g, st, j, v);
      if InComp(st, u) { CompClosed(g, st, j, u, v); }
    }
  }

  // ---------------------------------------------------------------- the component is a component

  lemma CompMutual(g: Graph, st: State, u: nat)
    requires Shape(g, st) && st.gray != [] && Upward(g, st) && Downward(g, st) && InComp(st, u)
    ensures Mutual(g, u, Top(st))
  {
    hide Reach, Pre, Low, OnStack, Done, Shape, Downward;
    var w := Top(st);
    NumbersFit(g, st, w);
    assert UpwardTo(g, st, w, u);
    var a := GrayWitness(g, st, u);
    BelowTop(g, st, a);
    assert UpwardTo(g, st, a, w);
    if a == w { ReachSelf(g, w); }
    ReachTrans(g, u, a, w);
  }

  lemma CompMutualPair(g: Graph, st: State, u: nat, v: nat)
    requires Shape(g, st) && st.gray != [] && Upward(g, st) && Downward(g, st) && InComp(st, u) && InComp(st, v)
    ensures Mutual(g, u, v)
  {
    hide Reach, Pre, Low, OnStack, Done, Shape, Downward, Upward, InComp;
    var w := Top(st);
    CompMutual(g, st, u);
    CompMutual(g, st, v);
    ReachTrans(g, u, w, v);
    ReachTrans(g, v, w, u);
  }

  /** A finished component reaches only finished ones. */
  lemma DoneStays(g: Graph, st: State, u: nat, v: nat)
    requires Sized(g, st) && DoneClosed(g, st) && Done(st, u) && Reach(g, u, v)
    ensures Done(st, v)
  {
    hide Reach, Low;
    var s := set x: nat | x < |g| && Done(st, x);
    assert u in s && Closed(g, s);
    ReachStays(g, s, u, v);
  }

  lemma SingletonComp(g: Graph, st: State, j: nat, u: nat)
    requires Shape(g, st) && IsRoot(g, st, j) && InComp(st, u)
    ensures st.stack != []
    ensures st.stack[|st.stack| - 1] == Top(st) ==> u == Top(st)
    ensures InComp(st, Top(st)) && InComp(st, st.stack[|st.stack| - 1])
  {
    hide Pre, Low;
    var last := st.stack[|st.stack| - 1];
    NumbersFit(g, st, Top(st));
    assert last in st.stack && u in st.stack;
    assert Top(st) in st.stack;
    RisingLast(st, st.stack, u);
    RisingLast(st, st.stack, Top(st));
    if Pre(st, u) == Pre(st, Top(st)) { SameNumber(st, u, Top(st)); }
  }

  lemma CompCycle(g: Graph, st: State, j: nat, u: nat)
    requires Shape(g, st) && IsRoot(g, st, j) && InComp(st, u) && st.stack != []
    requires Upward(g, st) && Downward(g, st) && Accounted(g, st) && Seen(g, st) && Scanned(g, st) && DoneClosed(g, st)
    ensures OnCycle(g, u) <==> Assigns(g, st)
  {
    hide Reach, Mutual, Pre, Low, OnStack, Shape, InComp, Upward, Downward, Accounted, Seen, Scanned, DoneClosed;
    var w, last := Top(st), st.stack[|st.stack| - 1];
    SingletonComp(g, st, j, u);
    if last != w {
      var other := if u == w then last else w;
      CompMutualPair(g, st, u, other);
      MutualOnCycle(g, u, other);
    } else if w in g[w] {
      ReachSelf(g, w);
      assert Edge(g, w, w);
    } else if OnCycle(g, w) {
      CycleLeaves(g, st, j);
      assert false;
    }
  }

  /** A root alone in its component that is not its own successor lies on no cycle. */
  lemma CycleLeaves(g: Graph, st: State, j: nat)
    requires Shape(g, st) && IsRoot(g, st, j) && st.stack != [] && st.stack[|st.stack| - 1] == Top(st)
    requires Accounted(g, st) && Seen(g, st) && Scanned(g, st) && DoneClosed(g, st)
    ensures OnCycle(g, Top(st)) ==> Top(st) in g[Top(st)]
  {
    hide Reach, Pre, Low, Shape, InComp, Accounted, Seen, Scanned, DoneClosed;
    var w := Top(st);
    ShapeSized(g, st);
    if OnCycle(g, w) {
      var v :| Edge(g, w, v) && Reach(g, v, w);
      NumbersFit(g, st, w);
      CompIs(st, w);
      CompClosed(g, st, j, w, v);
      if Done(st, v) {
        DoneStays(g, st, v, w);
      } else {
        SingletonComp(g, st, j, v);
      }
    }
  }

  lemma EmitLabel(g: Graph, st: State, j: nat, x: nat)
    requires Shape(g, st) && IsRoot(g, st, j) && x < |g|
    ensures |Emit(g, st, j).scc| == |g| && st.stack != []
    ensures Emit(g, st, j).scc[x] == if InComp(st, x) && Assigns(g, st) then st.ids else st.scc[x]
  {
    CompIsSuffix(g, st, j, x);
  }

  lemma EmitPair(g: Graph, st: State, j: nat, u: nat, v: nat)
    requires Inv(g, st) && IsRoot(g, st, j) && u < |g| && v < |g|
    requires Done(Emit(g, st, j), u) && Done(Emit(g, st, j), v)
    ensures |Emit(g, st, j).scc| == |g| && LabelledPair(g, Emit(g, st, j), u, v)
  {
    hide Reach, OnCycle, Pre, Low, Shape, InComp, Upward, Downward, Lowlinks, Accounted, Seen, Scanned, DoneClosed, Emit, Assigns;
    ShapeSized(g, st);
    EmitLabel(g, st, j, u);
    EmitLabel(g, st, j, v);
    Emitted(g, st, j, u);
    Emitted(g, st, j, v);
    CompIs(st, u);
    CompIs(st, v);
    if InComp(st, u) {
      CompCycle(g, st, j, u);
      if InComp(st, v) {
        CompMutualPair(g, st, u, v);
      } else if Reach(g, v, u) {
        DoneStays(g, st, v, u);
      }
    } else if InComp(st, v) {
      CompCycle(g, st, j, v);
      if Reach(g, u, v) { DoneStays(g, st, u, v); }
    } else {
      assert LabelledPair(g, st, u, v);
    }
  }

  lemma EmitLabelled(g: Graph, st: State, j: nat)
    requires Inv(g, st) && IsRoot(g, st, j)
    ensures |Emit(g, st, j).scc| == |g| && Labelled(g, Emit(g, st, j))
  {
    hide Reach, OnCycle, Mutual, Pre, Low, OnStack, Done, Shape, InComp, Upward, Downward, Lowlinks, Accounted, Seen, Scanned, DoneClosed, LabelledPair;
    ShapeSized(g, st);
    var st' := Emit(g, st, j);
    forall x: nat | x < |g| ensures st'.scc[x] < st'.ids && (!Done(st', x) ==> st'.scc[x] == 0) {
      EmitLabel(g, st, j, x);
      Emitted(g, st, j, x);
    }
    forall u: nat, v: nat | u < |g| && v < |g| && Done(st', u) && Done(st', v) ensures LabelledPair(g, st', u, v) {
      EmitPair(g, st, j, u, v);
    }
  }

  lemma EmitKeeps(g: Graph, st: State, j: nat)
    requires Inv(g, st) && IsRoot(g, st, j)
    ensures Inv(g, Emit(g, st, j))
  {
    hide Upward, Downward, Lowlinks, AccountedFor, Seen, Scanned, DoneClosed, Labelled, Shape, Emit, Low, Pre;
    EmitShape(g, st, j);
    EmitUpward(g, st, j);
    EmitStacks(g, st, j);
    forall i: nat, x: nat, v: nat ensures AccountedFor(g, Emit(g, st, j), i, x, v) {
      assert AccountedFor(g, st, i, x, v);
      EmitAccountedFor(g, st, j, i, x, v);
    }
    EmitRest(g, st, j);
    EmitDoneClosed(g, st, j);
    EmitLabelled(g, st, j);
  }

  // ---------------------------------------------------------------- beginning and end

  /** A new tree starts at an unvisited node once the search stack is empty. */
  function Begin(st: State, root: nat): State {
    st.(pend := Some(root))
  }

  lemma BeginKeeps(g: Graph, st: State, root: nat)
    requires Inv(g, st) && st.gray == [] && st.pend.None? && root < |g| && Pre(st, root) == 0
    ensures Inv(g, Begin(st, root))
  {
    hide Reach, OnCycle, Mutual, Saw, Low, Labelled;
    var st' := Begin(st, root);
    forall x: nat ensures Pre(st', x) == Pre(st, x) && (OnStack(st', x) <==> OnStack(st, x)) && Low(st', x) == Low(st, x) {
      BeginLow(st, root, x);
    }
    forall x: nat | Pre(st', x) != 0 ensures VisitedAs(st', x) { assert VisitedAs(st, x); }
    forall a: nat, y: nat ensures UpwardTo(g, st', a, y) { assert UpwardTo(g, st, a, y); }
    forall x: nat ensures !OnStack(st', x) { EmptyStack(g, st, x); }
    forall i: nat, x: nat, v: nat ensures AccountedFor(g, st', i, x, v) { assert AccountedFor(g, st, i, x, v); }
    forall x: nat, v: nat ensures SeenFrom(g, st', x, v) && ScannedFrom(g, st', x, v) {
      assert SeenFrom(g, st, x, v) && ScannedFrom(g, st, x, v);
      BeginSaw(g, st, root, x, v);
    }
    BeginLabels(g, st, root);
  }

  /** Between trees nothing is on the stack. */
  lemma EmptyStack(g: Graph, st: State, x: nat)
    requires Downward(g, st) && st.gray == []
    ensures !OnStack(st, x)
  {
    hide Reach, Pre, Low, OnStack, Downward;
    if OnStack(st, x) { var a := GrayWitness(g, st, x); }
  }

  lemma BeginLow(st: State, root: nat, x: nat)
    ensures Low(Begin(st, root), x) == Low(st, x)
  {
  }

  lemma BeginSaw(g: Graph, st: State, root: nat, x: nat, v: nat)
    ensures Saw(g, Begin(st, root), x, v) <==> Saw(g, st, x, v)
  {
  }

  lemma BeginLabels(g: Graph, st: State, root: nat)
    requires |st.scc| == |g| && Labelled(g, st)
    ensures Labelled(g, Begin(st, root))
  {
    hide Reach, OnCycle, Mutual;
    var st' := Begin(st, root);
    forall u: nat, v: nat | u < |g| && v < |g| && Done(st', u) && Done(st', v) ensures LabelledPair(g, st', u, v) {
      assert LabelledPair(g, st, u, v);
    }
  }

  function Fresh(n: nat): State {
    State(Repeated(0, n), Repeated(0, n), Repeated(0, n), Repeated(0, n), [], [], None, [], 1)
  }

  lemma FreshInv(g: Graph)
    requires |g| < NOT_ON_STACK
    ensures Inv(g, Fresh(|g|))
  {
  }

  /** With nothing left on the stacks and every node visited, the labels are the components. */
  lemma AllDone(g: Graph, st: State, u: nat, v: nat)
    requires Inv(g, st) && st.gray == [] && (forall x: nat :: x < |g| ==> Pre(st, x) != 0) && u < |g| && v < |g|
    ensures (st.scc[u] != 0 && st.scc[u] == st.scc[v]) <==> (OnCycle(g, u) && Mutual(g, u, v))
    ensures st.scc[u] == 0 <==> !OnCycle(g, u)
  {
    hide Reach, Pre, Low, Accounted, Seen, Scanned, Upward, Lowlinks, Shape;
    ShapeSized(g, st);
    assert Pre(st, u) != 0 && Pre(st, v) != 0;
    EmptyStack(g, st, u);
    EmptyStack(g, st, v);
    assert LabelledPair(g, st, u, v) && LabelledPair(g, st, u, u);
    ReachSelf(g, u);
  }
}
