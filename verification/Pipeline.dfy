/**
 The pipelined build-and-load driver as a state machine: the main thread collects finished builds
 in any order, a consumer thread drains the ready list and loads what it finds, and at the end the
 main thread writes a row for whatever has none. A run is any interleaving of their atomic steps.
 */
module Pipeline {
  import opened Words

  type Obj = nat
  type Verdict = int

  datatype Row = Row(obj: Obj, load: Option<Verdict>)

  datatype Main =
    | Collecting
    | Appending(obj: Obj)          // build recorded, bundle not yet in the ready list
    | Joining                      // builds_done is set
    | Flushing(next: nat)
    | Finished

  datatype Consumer =
    | Idle
    | Checking                     // drained nothing, about to test builds_done
    | Draining(batch: seq<Obj>)    // drained something, about to load it
    | Writing(batch: seq<Obj>, next: nat, res: map<Obj, Verdict>)
    | Exited

  /** The fields from `finished` on record the run; the program never reads them. */
  datatype State = State(
    left: seq<Obj>, builds: set<Obj>, ready: seq<Obj>, done: bool, kresults: map<Obj, Verdict>,
    written: set<Obj>, rows: seq<Row>, main: Main, consumer: Consumer,
    finished: seq<Obj>, appended: seq<Obj>, loads: seq<Obj>, lost: seq<Obj>, consumed: seq<Obj>,
    verdicts: set<(Obj, Verdict)>)

  datatype Step =
    | FinishBuild(i: nat, ok: bool)
    | Append
    | SetDone
    | Drain
    | Check
    | Load(res: map<Obj, Verdict>)
    | LoadRaises
    | WriteRow
    | Join
    | Flush

  predicate Enabled(objs: seq<Obj>, s: State, step: Step) {
    match step
    case FinishBuild(i, _) => s.main.Collecting? && i < |s.left|
    case Append => s.main.Appending?
    case SetDone => s.main.Collecting? && s.left == []
    case Drain => s.consumer.Idle?
    case Check => s.consumer.Checking?
    case Load(res) => s.consumer.Draining? && forall o :: o in res ==> o in s.consumer.batch
    case LoadRaises => s.consumer.Draining?
    case WriteRow => s.consumer.Writing?
    case Join => s.main.Joining? && s.consumer.Exited?
    case Flush => s.main.Flushing?
  }

  function Lookup(m: map<Obj, Verdict>, o: Obj): Option<Verdict> {
    if o in m then Some(m[o]) else None
  }

  function Apply(objs: seq<Obj>, s: State, step: Step): State
    requires Enabled(objs, s, step)
  {
    match step
    case FinishBuild(i, ok) =>
      var o := s.left[i];
      s.(left := s.left[..i] + s.left[i + 1..], builds := s.builds + {o}, finished := s.finished + [o],
         main := if ok then Appending(o) else Collecting)
    case Append =>
      s.(ready := s.ready + [s.main.obj], appended := s.appended + [s.main.obj], main := Collecting)
    case SetDone => s.(done := true, main := Joining)
    case Drain =>
      s.(ready := [], consumer := if s.ready == [] then Checking else Draining(s.ready))
    case Check => s.(consumer := if s.done then Exited else Idle)
    case Load(res) =>
      s.(kresults := s.kresults + res, consumer := Writing(s.consumer.batch, 0, res),
         loads := s.loads + s.consumer.batch, verdicts := s.verdicts + set o | o in res :: (o, res[o]))
    case LoadRaises =>
      s.(consumer := Exited, loads := s.loads + s.consumer.batch, lost := s.lost + s.consumer.batch)
    case WriteRow =>
      var w := s.consumer;
      if w.next >= |w.batch| then s.(consumer := Idle)
      else
        var o := w.batch[w.next];
        s.(rows := s.rows + [Row(o, Lookup(w.res, o))], written := s.written + {o}, consumer := w.(next := w.next + 1),
           consumed := s.consumed + [o])
    case Join => s.(main := Flushing(0))
    case Flush =>
      var i := s.main.next;
      if i >= |objs| then s.(main := Finished)
      else if objs[i] in s.written then s.(main := Flushing(i + 1))
      else s.(rows := s.rows + [Row(objs[i], Lookup(s.kresults, objs[i]))], main := Flushing(i + 1))
  }

  function Start(objs: seq<Obj>): State {
    State(objs, {}, [], false, map[], {}, [], Collecting, Idle,
          [], [], [], [], [], {})
  }

  /** Every step is enabled when its turn comes. */
  predicate Schedule(objs: seq<Obj>, s: State, steps: seq<Step>)
    decreases steps
  {
    steps == [] || (Enabled(objs, s, steps[0]) && Schedule(objs, Apply(objs, s, steps[0]), steps[1..]))
  }

  function Outcome(objs: seq<Obj>, s: State, steps: seq<Step>): State
    requires Schedule(objs, s, steps)
    decreases steps
  {
    if steps == [] then s else Outcome(objs, Apply(objs, s, steps[0]), steps[1..])
  }

  // ---------------------------------------------------------------- invariant

  function Count(s: seq<Obj>, o: Obj): nat {
    if s == [] then 0 else Count(s[..|s| - 1], o) + if s[|s| - 1] == o then 1 else 0
  }

  lemma {:induction false} CountAppend(a: seq<Obj>, b: seq<Obj>, o: Obj)
    ensures Count(a + b, o) == Count(a, o) + Count(b, o)
  {
    if b == [] {
      assert a + b == a;
    } else {
      var ab := a + b;
      assert ab[..|ab| - 1] == a + b[..|b| - 1];
      CountAppend(a, b[..|b| - 1], o);
    }
  }

  lemma CountOne(a: seq<Obj>, x: Obj, o: Obj)
    ensures Count(a + [x], o) == Count(a, o) + if x == o then 1 else 0
  {
    var ax := a + [x];
    assert ax[..|ax| - 1] == a;
  }

  lemma {:induction false} CountPositive(a: seq<Obj>, o: Obj)
    ensures Count(a, o) > 0 <==> o in a
  {
    if a != [] {
      CountPositive(a[..|a| - 1], o);
      assert a == a[..|a| - 1] + [a[|a| - 1]];
    }
  }

  lemma CountTail(s: seq<Obj>, i: nat, o: Obj)
    requires i < |s|
    ensures Count(s[i..], o) == Count(s[i + 1..], o) + if s[i] == o then 1 else 0
  {
    assert s[i..] == [s[i]] + s[i + 1..];
    CountAppend([s[i]], s[i + 1..], o);
    CountOne([], s[i], o);
    assert [] + [s[i]] == [s[i]];
  }

  lemma CountWithout(s: seq<Obj>, i: nat, o: Obj)
    requires i < |s|
    ensures Count(s[..i] + s[i + 1..], o) + (if s[i] == o then 1 else 0) == Count(s, o)
  {
    assert s == s[..i] + s[i..];
    CountAppend(s[..i], s[i..], o);
    CountTail(s, i, o);
    CountAppend(s[..i], s[i + 1..], o);
  }

  function Objects(rows: seq<Row>): (r: seq<Obj>)
    ensures |r| == |rows| && forall i :: 0 <= i < |r| ==> r[i] == rows[i].obj
  {
    seq(|rows|, i requires 0 <= i < |rows| => rows[i].obj)
  }

  /** Recorded, its bundle about to enter the ready list. */
  function InHand(m: Main): seq<Obj> {
    if m.Appending? then [m.obj] else []
  }

  /** Drained but not yet loaded. */
  function Unloaded(c: Consumer): seq<Obj> {
    if c.Draining? then c.batch else []
  }

  /** Loaded but not yet written. */
  function Unwritten(c: Consumer): seq<Obj> {
    if c.Writing? && c.next <= |c.batch| then c.batch[c.next..] else []
  }

  /** What the flush has written so far: the objects without a row, among those it has passed. */
  function Flushed(objs: seq<Obj>, s: State): seq<Obj> {
    match s.main
    case Flushing(i) => Missing(objs, s.written, i)
    case Finished => Missing(objs, s.written, |objs|)
    case _ => []
  }

  function Missing(objs: seq<Obj>, written: set<Obj>, i: nat): seq<Obj> {
    if i == 0 || i > |objs| then []
    else Missing(objs, written, i - 1) + if objs[i - 1] in written then [] else [objs[i - 1]]
  }

  // counts of one object `o`: not finished, in hand, in the list, drained, loaded, written or lost

  predicate BuildsConserved(objs: seq<Obj>, s: State, o: Obj) {
    && Count(s.left, o) + Count(s.finished, o) == Count(objs, o)
    && (Count(s.finished, o) > 0 ==> o in s.builds)
    && Count(s.appended, o) + Count(InHand(s.main), o) <= Count(s.finished, o)
  }

  predicate BundlesConserved(s: State, o: Obj) {
    Count(s.appended, o) == Count(s.loads, o) + Count(s.ready, o) + Count(Unloaded(s.consumer), o)
  }

  predicate LoadsConserved(s: State, o: Obj) {
    && Count(s.loads, o) == Count(s.consumed, o) + Count(Unwritten(s.consumer), o) + Count(s.lost, o)
    && (o in s.written <==> Count(s.consumed, o) > 0)
  }

  predicate RowsConserved(objs: seq<Obj>, s: State, o: Obj) {
    Count(Objects(s.rows), o) == Count(s.consumed, o) + Count(Flushed(objs, s), o)
  }

  /** Load results that are shown or kept for `o` were returned by a load of it. */
  ghost predicate Honest(s: State, o: Obj) {
    && (forall k :: 0 <= k < |s.rows| && s.rows[k].obj == o && s.rows[k].load.Some? ==> (o, s.rows[k].load.value) in s.verdicts)
    && (o in s.kresults ==> (o, s.kresults[o]) in s.verdicts)
    && (s.consumer.Writing? && o in s.consumer.res ==> (o, s.consumer.res[o]) in s.verdicts)
    && (forall v :: v in s.verdicts && v.0 == o ==> o in s.loads)
  }

  /** What the two threads know of each other. */
  predicate Phases(objs: seq<Obj>, s: State) {
    && (s.done <==> s.main.Joining? || s.main.Flushing? || s.main.Finished?)
    && (s.done ==> s.left == [])
    && (s.main.Flushing? || s.main.Finished? ==> s.consumer.Exited?)
    && (s.main.Flushing? ==> s.main.next <= |objs|)
    && (s.consumer.Writing? ==> s.consumer.next <= |s.consumer.batch|)
    && (s.consumer.Draining? ==> s.consumer.batch != [])
  }

  ghost predicate Inv(objs: seq<Obj>, s: State, o: Obj) {
    && BuildsConserved(objs, s, o) && BundlesConserved(s, o) && LoadsConserved(s, o)
    && RowsConserved(objs, s, o) && Honest(s, o) && Phases(objs, s)
  }

  lemma CountNone(o: Obj)
    ensures Count([], o) == 0
  {
  }

  lemma KeepsBuilds(objs: seq<Obj>, s: State, step: Step, o: Obj)
    requires BuildsConserved(objs, s, o) && Enabled(objs, s, step)
    ensures BuildsConserved(objs, Apply(objs, s, step), o)
  {
    hide Count;
    CountNone(o);
    match step {
      case FinishBuild(i, _) =>
        CountWithout(s.left, i, o);
        CountOne(s.finished, s.left[i], o);
        CountOne([], s.left[i], o);
        assert [] + [s.left[i]] == [s.left[i]];
      case Append =>
        CountOne(s.appended, s.main.obj, o);
        CountOne([], s.main.obj, o);
        assert [] + [s.main.obj] == [s.main.obj];
      case _ =>
    }
  }

  lemma KeepsBundles(objs: seq<Obj>, s: State, step: Step, o: Obj)
    requires BundlesConserved(s, o) && Enabled(objs, s, step)
    ensures BundlesConserved(Apply(objs, s, step), o)
  {
    hide Count;
    CountNone(o);
    match step {
      case Append =>
        CountOne(s.appended, s.main.obj, o);
        CountOne(s.ready, s.main.obj, o);
      case Load(_) => CountAppend(s.loads, s.consumer.batch, o);
      case LoadRaises => CountAppend(s.loads, s.consumer.batch, o);
      case _ =>
    }
  }

  lemma KeepsLoads(objs: seq<Obj>, s: State, step: Step, o: Obj)
    requires LoadsConserved(s, o) && Phases(objs, s) && Enabled(objs, s, step)
    ensures LoadsConserved(Apply(objs, s, step), o)
  {
    hide Count;
    CountNone(o);
    match step {
      case Load(_) =>
        CountAppend(s.loads, s.consumer.batch, o);
        assert s.consumer.batch[0..] == s.consumer.batch;
      case LoadRaises =>
        CountAppend(s.loads, s.consumer.batch, o);
        CountAppend(s.lost, s.consumer.batch, o);
      case WriteRow =>
        var w := s.consumer;
        if w.next < |w.batch| {
          CountTail(w.batch, w.next, o);
          CountOne(s.consumed, w.batch[w.next], o);
        } else {
          assert w.batch[w.next..] == [];
        }
      case _ =>
    }
  }

  lemma KeepsRows(objs: seq<Obj>, s: State, step: Step, o: Obj)
    requires RowsConserved(objs, s, o) && Phases(objs, s) && Enabled(objs, s, step)
    ensures RowsConserved(objs, Apply(objs, s, step), o)
  {
    hide Count;
    CountNone(o);
    var s' := Apply(objs, s, step);
    if |s'.rows| > |s.rows| {
      var x := s'.rows[|s.rows|].obj;
      assert Objects(s'.rows) == Objects(s.rows) + [x];
      CountOne(Objects(s.rows), x, o);
      CountOne(s.consumed, x, o);
      CountOne(Flushed(objs, s), x, o);
    } else if step.Flush? && s.main.next < |objs| {
      assert Flushed(objs, s) + [] == Flushed(objs, s);
    }
  }

  lemma KeepsHonest(objs: seq<Obj>, s: State, step: Step, o: Obj)
    requires Honest(s, o) && Enabled(objs, s, step)
    ensures Honest(Apply(objs, s, step), o)
  {
  }

  lemma KeepsPhases(objs: seq<Obj>, s: State, step: Step)
    requires Phases(objs, s) && Enabled(objs, s, step)
    ensures Phases(objs, Apply(objs, s, step))
  {
    match step {
      case FinishBuild(_, _) =>
      case Append =>
      case SetDone =>
      case Join =>
      case Flush =>
      case _ =>
        assert Apply(objs, s, step).main == s.main;
    }
  }

  lemma StepKeepsInv(objs: seq<Obj>, s: State, step: Step, o: Obj)
    requires Inv(objs, s, o) && Enabled(objs, s, step)
    ensures Inv(objs, Apply(objs, s, step), o)
  {
    hide Apply, BuildsConserved, BundlesConserved, LoadsConserved, RowsConserved, Honest, Phases;
    KeepsBuilds(objs, s, step, o);
    KeepsBundles(objs, s, step, o);
    KeepsLoads(objs, s, step, o);
    KeepsRows(objs, s, step, o);
    KeepsHonest(objs, s, step, o);
    KeepsPhases(objs, s, step);
  }

  lemma {:induction false} OutcomeKeepsInv(objs: seq<Obj>, s: State, steps: seq<Step>, o: Obj)
    requires Inv(objs, s, o) && Schedule(objs, s, steps)
    ensures Inv(objs, Outcome(objs, s, steps), o)
    decreases steps
  {
    hide Inv, Apply, Enabled;
    if steps != [] {
      StepKeepsInv(objs, s, steps[0], o);
      OutcomeKeepsInv(objs, Apply(objs, s, steps[0]), steps[1..], o);
    }
  }

  lemma InvAlways(objs: seq<Obj>, steps: seq<Step>, o: Obj)
    requires Schedule(objs, Start(objs), steps)
    ensures Inv(objs, Outcome(objs, Start(objs), steps), o)
  {
    OutcomeKeepsInv(objs, Start(objs), steps, o);
  }

  // ---------------------------------------------------------------- what every run guarantees

  lemma {:induction false} MissingCount(objs: seq<Obj>, written: set<Obj>, i: nat, o: Obj)
    requires i <= |objs|
    ensures Count(Missing(objs, written, i), o) == if o in written then 0 else Count(objs[..i], o)
  {
    hide Count;
    CountNone(o);
    if i > 0 {
      MissingCount(objs, written, i - 1, o);
      assert objs[..i] == objs[..i - 1] + [objs[i - 1]];
      CountOne(objs[..i - 1], objs[i - 1], o);
      CountOne(Missing(objs, written, i - 1), objs[i - 1], o);
      assert Missing(objs, written, i - 1) + [] == Missing(objs, written, i - 1);
    }
  }

  /** No object is loaded more often than it was asked for; distinct objects at most once. */
  lemma LoadedAtMostOnce(objs: seq<Obj>, steps: seq<Step>, o: Obj)
    requires Schedule(objs, Start(objs), steps)
    ensures Count(Outcome(objs, Start(objs), steps).loads, o) <= Count(objs, o)
  {
    InvAlways(objs, steps, o);
  }

  /**
   When the driver is finished every object has a row, and no more rows than occurrences in the
   list: exactly one row if the objects are distinct, in every interleaving, even if a load raises.
   */
  lemma OneRowPerObject(objs: seq<Obj>, steps: seq<Step>, o: Obj)
    requires Schedule(objs, Start(objs), steps) && Outcome(objs, Start(objs), steps).main.Finished?
    ensures var n := Count(Objects(Outcome(objs, Start(objs), steps).rows), o);
            && n <= Count(objs, o)
            && (o in objs ==> 1 <= n)
            && (Count(objs, o) == 1 ==> n == 1)
  {
    hide Count, Schedule;
    var s := Outcome(objs, Start(objs), steps);
    InvAlways(objs, steps, o);
    MissingCount(objs, s.written, |objs|, o);
    assert objs[..|objs|] == objs;
    CountPositive(objs, o);
    CountNone(o);
  }

  /** The consumer never writes a row for an object whose build is not recorded. */
  lemma BuildRecordIsThere(objs: seq<Obj>, steps: seq<Step>)
    requires Schedule(objs, Start(objs), steps)
    ensures var s := Outcome(objs, Start(objs), steps);
            s.consumer.Writing? && s.consumer.next < |s.consumer.batch| ==> s.consumer.batch[s.consumer.next] in s.builds
  {
    hide Count, Schedule;
    var s := Outcome(objs, Start(objs), steps);
    if s.consumer.Writing? && s.consumer.next < |s.consumer.batch| {
      var o := s.consumer.batch[s.consumer.next];
      InvAlways(objs, steps, o);
      CountPositive(s.consumer.batch[s.consumer.next..], o);
    }
  }

  /** A row shows a load result only if a load of that object returned it. */
  lemma RowsAreHonest(objs: seq<Obj>, steps: seq<Step>, k: nat)
    requires Schedule(objs, Start(objs), steps) && k < |Outcome(objs, Start(objs), steps).rows|
    ensures var s := Outcome(objs, Start(objs), steps);
            var r := s.rows[k];
            r.load.Some? ==> (r.obj, r.load.value) in s.verdicts && r.obj in s.loads
  {
    hide Schedule;
    var s := Outcome(objs, Start(objs), steps);
    var r := s.rows[k];
    InvAlways(objs, steps, r.obj);
    if r.load.Some? { assert (r.obj, r.load.value) in s.verdicts; }
  }

  /** A returned verdict is in a row, or its row is still to be written from the batch in hand. */
  ghost predicate Shown(s: State, o: Obj) {
    forall v: Verdict :: (o, v) in s.verdicts ==> Row(o, Some(v)) in s.rows || InBatch(s.consumer, o, v)
  }

  predicate InBatch(c: Consumer, o: Obj, v: Verdict) {
    c.Writing? && o in c.res && c.res[o] == v && o in Unwritten(c)
  }

  lemma KeepsShown(objs: seq<Obj>, s: State, step: Step, o: Obj)
    requires Shown(s, o) && Phases(objs, s) && Enabled(objs, s, step)
    ensures Shown(Apply(objs, s, step), o)
  {
    var s' := Apply(objs, s, step);
    forall v: Verdict | (o, v) in s'.verdicts ensures Row(o, Some(v)) in s'.rows || InBatch(s'.consumer, o, v) {
      if (o, v) in s.verdicts {
        assert Row(o, Some(v)) in s.rows || InBatch(s.consumer, o, v);
        if Row(o, Some(v)) !in s.rows && step.WriteRow? { WritesOrKeeps(s, o, v); }
      } else {
        assert s.consumer.batch[0..] == s.consumer.batch;
      }
    }
  }

  lemma WritesOrKeeps(s: State, o: Obj, v: Verdict)
    requires InBatch(s.consumer, o, v) && s.consumer.next <= |s.consumer.batch|
    ensures var w := s.consumer;
            && w.next < |w.batch|
            && (w.batch[w.next] == o || InBatch(w.(next := w.next + 1), o, v))
  {
    var w := s.consumer;
    var rest := w.batch[w.next..];
    var k :| 0 <= k < |rest| && rest[k] == o;
    if k > 0 { assert w.batch[w.next + 1..][k - 1] == o; }
  }

  lemma {:induction false} OutcomeKeepsShown(objs: seq<Obj>, s: State, steps: seq<Step>, o: Obj)
    requires Shown(s, o) && Phases(objs, s) && Schedule(objs, s, steps)
    ensures Shown(Outcome(objs, s, steps), o)
    decreases steps
  {
    hide Shown, Phases, Apply, Enabled;
    if steps != [] {
      KeepsShown(objs, s, steps[0], o);
      KeepsPhases(objs, s, steps[0]);
      OutcomeKeepsShown(objs, Apply(objs, s, steps[0]), steps[1..], o);
    }
  }

  /** When the driver is finished, the rows of an object show exactly the verdicts its loads returned. */
  lemma RowsShowVerdicts(objs: seq<Obj>, steps: seq<Step>, o: Obj, v: Verdict)
    requires Schedule(objs, Start(objs), steps) && Outcome(objs, Start(objs), steps).main.Finished?
    ensures var s := Outcome(objs, Start(objs), steps); Row(o, Some(v)) in s.rows <==> (o, v) in s.verdicts
  {
    hide Schedule, Outcome;
    var s := Outcome(objs, Start(objs), steps);
    OutcomeKeepsShown(objs, Start(objs), steps, o);
    InvAlways(objs, steps, o);
    if Row(o, Some(v)) in s.rows {
      var k :| 0 <= k < |s.rows| && s.rows[k] == Row(o, Some(v));
      RowsAreHonest(objs, steps, k);
    }
  }

  /** For an object listed once: its one row shows `v` if and only if its load returned `v`. */
  lemma RowShowsLoad(objs: seq<Obj>, steps: seq<Step>, k: nat)
    requires Schedule(objs, Start(objs), steps) && Outcome(objs, Start(objs), steps).main.Finished?
    requires k < |Outcome(objs, Start(objs), steps).rows|
    requires Count(objs, Outcome(objs, Start(objs), steps).rows[k].obj) == 1
    ensures var s := Outcome(objs, Start(objs), steps);
            var r := s.rows[k];
            forall v: Verdict :: r.load == Some(v) <==> (r.obj, v) in s.verdicts
  {
    hide Schedule, Outcome, Count;
    var s := Outcome(objs, Start(objs), steps);
    var r := s.rows[k];
    OneRowPerObject(objs, steps, r.obj);
    forall v: Verdict ensures r.load == Some(v) <==> (r.obj, v) in s.verdicts {
      RowsShowVerdicts(objs, steps, r.obj, v);
      if Row(r.obj, Some(v)) in s.rows {
        var j :| 0 <= j < |s.rows| && s.rows[j] == Row(r.obj, Some(v));
        OnlyPlace(Objects(s.rows), k, j);
      }
    }
  }

  /** Whatever a load returned for an object, the results kept have some entry for it. */
  ghost predicate Kept(s: State, o: Obj) {
    forall v: Verdict :: (o, v) in s.verdicts ==> o in s.kresults
  }

  lemma KeepsKept(objs: seq<Obj>, s: State, step: Step, o: Obj)
    requires Kept(s, o) && Enabled(objs, s, step)
    ensures Kept(Apply(objs, s, step), o)
  {
    var s' := Apply(objs, s, step);
    forall v: Verdict | (o, v) in s'.verdicts ensures o in s'.kresults {
      if (o, v) in s.verdicts { assert o in s.kresults; }
    }
  }

  lemma {:induction false} OutcomeKeepsKept(objs: seq<Obj>, s: State, steps: seq<Step>, o: Obj)
    requires Kept(s, o) && Schedule(objs, s, steps)
    ensures Kept(Outcome(objs, s, steps), o)
    decreases steps
  {
    hide Kept, Apply, Enabled;
    if steps != [] {
      KeepsKept(objs, s, steps[0], o);
      OutcomeKeepsKept(objs, Apply(objs, s, steps[0]), steps[1..], o);
    }
  }

  /** The results that the driver hands back are exactly what the loads returned, for objects listed once. */
  lemma ResultsAreReturned(objs: seq<Obj>, steps: seq<Step>, o: Obj, v: Verdict)
    requires Schedule(objs, Start(objs), steps) && Outcome(objs, Start(objs), steps).main.Finished? && Count(objs, o) == 1
    ensures var s := Outcome(objs, Start(objs), steps);
            (o in s.kresults && s.kresults[o] == v) <==> (o, v) in s.verdicts
  {
    hide Schedule, Outcome, Count;
    var s := Outcome(objs, Start(objs), steps);
    OutcomeKeepsKept(objs, Start(objs), steps, o);
    InvAlways(objs, steps, o);
    if (o, v) in s.verdicts {
      var w := s.kresults[o];
      RowsShowVerdicts(objs, steps, o, v);
      RowsShowVerdicts(objs, steps, o, w);
      OneRowPerObject(objs, steps, o);
      var j :| 0 <= j < |s.rows| && s.rows[j] == Row(o, Some(v));
      var k :| 0 <= k < |s.rows| && s.rows[k] == Row(o, Some(w));
      OnlyPlace(Objects(s.rows), j, k);
    }
  }

  lemma OnlyPlace(a: seq<Obj>, i: nat, j: nat)
    requires i < |a| && j < |a| && a[i] == a[j] && Count(a, a[i]) == 1
    ensures i == j
  {
    if i != j {
      var lo, hi := if i < j then i else j, if i < j then j else i;
      var pre, post := a[..lo + 1], a[lo + 1..];
      assert a == pre + post && pre[lo] == a[i] && post[hi - lo - 1] == a[i];
      CountAppend(pre, post, a[i]);
      CountPositive(pre, a[i]);
      CountPositive(post, a[i]);
      assert false;
    }
  }

  /** A result that is kept belongs to an object that is written, or about to be. */
  predicate KeptIsWritten(s: State, o: Obj) {
    o in s.kresults ==> o in s.written || o in Unwritten(s.consumer)
  }

  lemma KeepsKeptWritten(objs: seq<Obj>, s: State, step: Step, o: Obj)
    requires KeptIsWritten(s, o) && Phases(objs, s) && Enabled(objs, s, step)
    ensures KeptIsWritten(Apply(objs, s, step), o)
  {
    match step {
      case Load(res) => assert s.consumer.batch[0..] == s.consumer.batch;
      case WriteRow =>
        var w := s.consumer;
        if w.next < |w.batch| { assert w.batch[w.next..] == [w.batch[w.next]] + w.batch[w.next + 1..]; }
      case _ =>
    }
  }

  lemma {:induction false} OutcomeKeptWritten(objs: seq<Obj>, s: State, steps: seq<Step>, o: Obj)
    requires KeptIsWritten(s, o) && Phases(objs, s) && Schedule(objs, s, steps)
    ensures KeptIsWritten(Outcome(objs, s, steps), o)
    decreases steps
  {
    hide KeptIsWritten, Phases, Apply, Enabled;
    if steps != [] {
      KeepsKeptWritten(objs, s, steps[0], o);
      KeepsPhases(objs, s, steps[0]);
      OutcomeKeptWritten(objs, Apply(objs, s, steps[0]), steps[1..], o);
    }
  }

  /** When the last rows are written, no object without a row has a result: the lookup there never finds one. */
  lemma FlushFindsNothing(objs: seq<Obj>, steps: seq<Step>, o: Obj)
    requires Schedule(objs, Start(objs), steps)
    ensures var s := Outcome(objs, Start(objs), steps);
            s.main.Flushing? && o !in s.written ==> Lookup(s.kresults, o) == None
  {
    hide Schedule, Outcome;
    OutcomeKeptWritten(objs, Start(objs), steps, o);
    InvAlways(objs, steps, o);
  }

  // ---------------------------------------------------------------- bundles that are never loaded

  predicate AppendAfterDrain(steps: seq<Step>) {
    exists i :: 0 <= i < |steps| && steps[i].Append? && forall j :: i < j < |steps| ==> !steps[j].Drain?
  }

  predicate Drains(steps: seq<Step>) {
    exists i :: 0 <= i < |steps| && steps[i].Drain?
  }

  lemma {:induction false} ReadyAtEnd(objs: seq<Obj>, s: State, steps: seq<Step>)
    requires Schedule(objs, s, steps)
    ensures Outcome(objs, s, steps).ready != [] <==> AppendAfterDrain(steps) || (s.ready != [] && !Drains(steps))
    decreases steps
  {
    if steps != [] {
      var s' := Apply(objs, s, steps[0]);
      ReadyAtEnd(objs, s', steps[1..]);
      StepsSplit(steps);
      hide AppendAfterDrain, Drains;
      assert s'.ready == match steps[0] case Append => s.ready + [s.main.obj] case Drain => [] case _ => s.ready;
    }
  }

  lemma StepsSplit(steps: seq<Step>)
    requires steps != []
    ensures Drains(steps) <==> steps[0].Drain? || Drains(steps[1..])
    ensures AppendAfterDrain(steps) <==> AppendAfterDrain(steps[1..]) || (steps[0].Append? && !Drains(steps[1..]))
  {
    var t := steps[1..];
    if Drains(t) { var i :| 0 <= i < |t| && t[i].Drain?; assert steps[i + 1].Drain?; }
    if Drains(steps) { var i :| 0 <= i < |steps| && steps[i].Drain?; if i > 0 { assert t[i - 1].Drain?; } }
    if AppendAfterDrain(t) {
      var i :| 0 <= i < |t| && t[i].Append? && forall j :: i < j < |t| ==> !t[j].Drain?;
      assert steps[i + 1].Append? && forall j :: i + 1 < j < |steps| ==> !steps[j].Drain? by {
        forall j | i + 1 < j < |steps| ensures !steps[j].Drain? { assert steps[j] == t[j - 1]; }
      }
    }
    if steps[0].Append? && !Drains(t) {
      forall j | 0 < j < |steps| ensures !steps[j].Drain? { assert steps[j] == t[j - 1]; }
      assert AppendAfterDrain(steps);
    }
    if AppendAfterDrain(steps) {
      var i :| 0 <= i < |steps| && steps[i].Append? && forall j :: i < j < |steps| ==> !steps[j].Drain?;
      forall j | i - 1 < j < |t| ensures !t[j].Drain? { assert t[j] == steps[j + 1]; }
      if i > 0 { assert t[i - 1].Append?; }
    }
  }

  /** What is left when the driver has finished: appended bundles are consumed, lost to a raised load, or still listed. */
  lemma FinishedAccount(objs: seq<Obj>, steps: seq<Step>, o: Obj)
    requires Schedule(objs, Start(objs), steps) && Outcome(objs, Start(objs), steps).main.Finished?
    ensures var s := Outcome(objs, Start(objs), steps);
            && Count(s.appended, o) == Count(s.loads, o) + Count(s.ready, o)
            && Count(s.loads, o) == Count(s.consumed, o) + Count(s.lost, o)
  {
    hide Count, Schedule, Outcome;
    InvAlways(objs, steps, o);
    CountNone(o);
  }

  lemma SomeLeft(s: seq<Obj>) returns (o: Obj)
    requires s != []
    ensures Count(s, o) > 0
  {
    o := s[0];
    CountPositive(s, o);
  }

  /**
   A load is attempted for every bundle that was built exactly if no bundle is announced after the
   consumer's last look at the ready list; a bundle announced later is flushed without an attempt.
   */
  lemma AllTriedIffNoLateAppend(objs: seq<Obj>, steps: seq<Step>)
    requires Schedule(objs, Start(objs), steps) && Outcome(objs, Start(objs), steps).main.Finished?
    ensures var s := Outcome(objs, Start(objs), steps);
            (forall o :: Count(s.loads, o) == Count(s.appended, o)) <==> !AppendAfterDrain(steps)
  {
    hide Count, Schedule, AppendAfterDrain, Drains;
    var s := Outcome(objs, Start(objs), steps);
    ReadyAtEnd(objs, Start(objs), steps);
    if s.ready != [] {
      var o := SomeLeft(s.ready);
      FinishedAccount(objs, steps, o);
      assert Count(s.loads, o) != Count(s.appended, o);
    } else {
      forall o: Obj ensures Count(s.loads, o) == Count(s.appended, o) { FinishedAccount(objs, steps, o); CountNone(o); }
    }
  }

  predicate Raises(steps: seq<Step>) {
    exists i :: 0 <= i < |steps| && steps[i].LoadRaises?
  }

  lemma {:induction false} LostAtEnd(objs: seq<Obj>, s: State, steps: seq<Step>)
    requires Schedule(objs, s, steps) && Phases(objs, s)
    ensures Outcome(objs, s, steps).lost != [] <==> s.lost != [] || Raises(steps)
    decreases steps
  {
    if steps != [] {
      KeepsPhases(objs, s, steps[0]);
      LostAtEnd(objs, Apply(objs, s, steps[0]), steps[1..]);
      RaisesSplit(steps);
      hide Raises, Phases;
    }
  }

  lemma RaisesSplit(steps: seq<Step>)
    requires steps != []
    ensures Raises(steps) <==> steps[0].LoadRaises? || Raises(steps[1..])
  {
    var t := steps[1..];
    if Raises(t) { var i :| 0 <= i < |t| && t[i].LoadRaises?; assert steps[i + 1].LoadRaises?; }
    if Raises(steps) { var i :| 0 <= i < |steps| && steps[i].LoadRaises?; if i > 0 { assert t[i - 1].LoadRaises?; } }
  }

  /**
   Every bundle that was built is loaded, and its load returns, exactly if none is announced after
   the consumer's last look and no load raises.
   */
  lemma AllLoadedIffNoneLateOrRaised(objs: seq<Obj>, steps: seq<Step>)
    requires Schedule(objs, Start(objs), steps) && Outcome(objs, Start(objs), steps).main.Finished?
    ensures var s := Outcome(objs, Start(objs), steps);
            (forall o :: Count(s.consumed, o) == Count(s.appended, o)) <==> !AppendAfterDrain(steps) && !Raises(steps)
  {
    hide Count, Schedule, AppendAfterDrain, Drains, Raises;
    var s := Outcome(objs, Start(objs), steps);
    ReadyAtEnd(objs, Start(objs), steps);
    LostAtEnd(objs, Start(objs), steps);
    if s.ready != [] || s.lost != [] {
      var o := SomeLeft(if s.ready != [] then s.ready else s.lost);
      FinishedAccount(objs, steps, o);
      assert Count(s.consumed, o) != Count(s.appended, o);
    } else {
      forall o: Obj ensures Count(s.consumed, o) == Count(s.appended, o) { FinishedAccount(objs, steps, o); CountNone(o); }
    }
  }

  /** The object is announced, and the consumer is between its look at the list and its test of `done`. */
  const ANNOUNCED := State([], {7}, [7], true, map[], {}, [], Joining, Checking, [7], [7], [], [], [], {})

  lemma Announce(rest: seq<Step>)
    requires Schedule([7], ANNOUNCED, rest)
    ensures var steps := [Drain] + ([FinishBuild(0, true)] + ([Append] + ([SetDone] + rest)));
            Schedule([7], Start([7]), steps) && Outcome([7], Start([7]), steps) == Outcome([7], ANNOUNCED, rest)
  {
    hide Schedule, Outcome;
    var objs := [7];
    var s0 := Start(objs);
    var s1 := Apply(objs, s0, Drain);
    var s2 := Apply(objs, s1, FinishBuild(0, true));
    assert s2.left == [];
    var s3 := Apply(objs, s2, Append);
    assert Apply(objs, s3, SetDone) == ANNOUNCED;
    Unroll(objs, s3, SetDone, rest);
    Unroll(objs, s2, Append, [SetDone] + rest);
    Unroll(objs, s1, FinishBuild(0, true), [Append] + ([SetDone] + rest));
    Unroll(objs, s0, Drain, [FinishBuild(0, true)] + ([Append] + ([SetDone] + rest)));
  }

  lemma GiveUp()
    ensures var steps := [Check] + ([Join] + ([Flush] + ([Flush] + [])));
            && Schedule([7], ANNOUNCED, steps)
            && var s := Outcome([7], ANNOUNCED, steps);
               s.main.Finished? && s.appended == [7] && s.loads == [] && s.rows == [Row(7, None)]
  {
    hide Schedule, Outcome;
    var objs := [7];
    var s5 := Apply(objs, ANNOUNCED, Check);
    var s6 := Apply(objs, s5, Join);
    var s7 := Apply(objs, s6, Flush);
    var s8 := Apply(objs, s7, Flush);
    Over(objs, s8);
    Unroll(objs, s7, Flush, []);
    Unroll(objs, s6, Flush, [Flush] + []);
    Unroll(objs, s5, Join, [Flush] + ([Flush] + []));
    Unroll(objs, ANNOUNCED, Check, [Join] + ([Flush] + ([Flush] + [])));
  }

  /** One object, built in time, and never loaded: the consumer looks just before it is announced. */
  lemma LateBundleIsNeverLoaded()
    ensures var steps := [Drain, FinishBuild(0, true), Append, SetDone, Check, Join, Flush, Flush];
            && Schedule([7], Start([7]), steps)
            && var s := Outcome([7], Start([7]), steps);
               s.main.Finished? && s.appended == [7] && s.loads == [] && s.rows == [Row(7, None)]
  {
    hide Schedule, Outcome, Start;
    GiveUp();
    var rest := [Check] + ([Join] + ([Flush] + ([Flush] + [])));
    Announce(rest);
    assert [Drain] + ([FinishBuild(0, true)] + ([Append] + ([SetDone] + rest)))
        == [Drain, FinishBuild(0, true), Append, SetDone, Check, Join, Flush, Flush];
  }

  /** The object is drained, and its load has raised. */
  const RAISED := State([], {7}, [], true, map[], {}, [], Joining, Exited, [7], [7], [7], [7], [], {})

  lemma Raise(rest: seq<Step>)
    requires Schedule([7], RAISED, rest)
    ensures var steps := [FinishBuild(0, true)] + ([Append] + ([Drain] + ([LoadRaises] + ([SetDone] + rest))));
            Schedule([7], Start([7]), steps) && Outcome([7], Start([7]), steps) == Outcome([7], RAISED, rest)
  {
    hide Schedule, Outcome;
    var objs := [7];
    var s0 := Start(objs);
    var s1 := Apply(objs, s0, FinishBuild(0, true));
    assert s1.left == [];
    var s2 := Apply(objs, s1, Append);
    var s3 := Apply(objs, s2, Drain);
    var s4 := Apply(objs, s3, LoadRaises);
    assert Apply(objs, s4, SetDone) == RAISED;
    Unroll(objs, s4, SetDone, rest);
    Unroll(objs, s3, LoadRaises, [SetDone] + rest);
    Unroll(objs, s2, Drain, [LoadRaises] + ([SetDone] + rest));
    Unroll(objs, s1, Append, [Drain] + ([LoadRaises] + ([SetDone] + rest)));
    Unroll(objs, s0, FinishBuild(0, true), [Append] + ([Drain] + ([LoadRaises] + ([SetDone] + rest))));
  }

  lemma FlushAfterRaise()
    ensures var steps := [Join] + ([Flush] + ([Flush] + []));
            && Schedule([7], RAISED, steps)
            && var s := Outcome([7], RAISED, steps);
               s.main.Finished? && s.appended == [7] && s.consumed == [] && s.verdicts == {} && s.rows == [Row(7, None)]
  {
    hide Schedule, Outcome;
    var objs := [7];
    var s6 := Apply(objs, RAISED, Join);
    var s7 := Apply(objs, s6, Flush);
    var s8 := Apply(objs, s7, Flush);
    Over(objs, s8);
    Unroll(objs, s7, Flush, []);
    Unroll(objs, s6, Flush, [Flush] + []);
    Unroll(objs, RAISED, Join, [Flush] + ([Flush] + []));
  }

  /** One object whose load raises: the consumer is gone, no load returned, and the row shows none. */
  lemma RaisedLoadIsLost()
    ensures var steps := [FinishBuild(0, true), Append, Drain, LoadRaises, SetDone, Join, Flush, Flush];
            && Schedule([7], Start([7]), steps) && !AppendAfterDrain(steps)
            && var s := Outcome([7], Start([7]), steps);
               s.main.Finished? && s.appended == [7] && s.consumed == [] && s.verdicts == {} && s.rows == [Row(7, None)]
  {
    hide Schedule, Outcome, Start;
    FlushAfterRaise();
    var rest := [Join] + ([Flush] + ([Flush] + []));
    Raise(rest);
    var steps := [FinishBuild(0, true), Append, Drain, LoadRaises, SetDone, Join, Flush, Flush];
    assert [FinishBuild(0, true)] + ([Append] + ([Drain] + ([LoadRaises] + ([SetDone] + rest)))) == steps;
    assert steps[2].Drain?;
  }

  lemma Over(objs: seq<Obj>, s: State)
    ensures Schedule(objs, s, []) && Outcome(objs, s, []) == s
  {
  }

  lemma Unroll(objs: seq<Obj>, s: State, step: Step, rest: seq<Step>)
    requires Enabled(objs, s, step) && Schedule(objs, Apply(objs, s, step), rest)
    ensures Schedule(objs, s, [step] + rest)
    ensures Outcome(objs, s, [step] + rest) == Outcome(objs, Apply(objs, s, step), rest)
  {
    assert ([step] + rest)[1..] == rest;
  }

  // ---------------------------------------------------------------- which bundles enter the list

  /** The objects whose builds succeed in these steps, in that order. */
  function Built(objs: seq<Obj>, s: State, steps: seq<Step>): seq<Obj>
    requires Schedule(objs, s, steps)
    decreases steps
  {
    if steps == [] then []
    else
      BuiltNow(s, steps[0]) + Built(objs, Apply(objs, s, steps[0]), steps[1..])
  }

  function BuiltNow(s: State, step: Step): seq<Obj> {
    if step.FinishBuild? && step.ok && step.i < |s.left| then [s.left[step.i]] else []
  }

  lemma AppendsNow(objs: seq<Obj>, s: State, step: Step)
    requires Enabled(objs, s, step)
    ensures var s' := Apply(objs, s, step); s'.appended + InHand(s'.main) == s.appended + InHand(s.main) + BuiltNow(s, step)
  {
    match step {
      case FinishBuild(_, _) =>
      case Append => assert s.appended + [s.main.obj] + [] == s.appended + [s.main.obj];
      case _ => assert Apply(objs, s, step).appended == s.appended && InHand(Apply(objs, s, step).main) == InHand(s.main);
    }
  }

  lemma {:induction false} AppendsWhatIsBuilt(objs: seq<Obj>, s: State, steps: seq<Step>)
    requires Schedule(objs, s, steps)
    ensures var s' := Outcome(objs, s, steps);
            s'.appended + InHand(s'.main) == s.appended + InHand(s.main) + Built(objs, s, steps)
    decreases steps
  {
    hide Apply, Enabled, InHand;
    if steps == [] {
      assert s.appended + InHand(s.main) + [] == s.appended + InHand(s.main);
    } else {
      var s1 := Apply(objs, s, steps[0]);
      AppendsWhatIsBuilt(objs, s1, steps[1..]);
      AppendsNow(objs, s, steps[0]);
      Assoc(s.appended + InHand(s.main), BuiltNow(s, steps[0]), Built(objs, s1, steps[1..]));
    }
  }

  lemma Assoc(a: seq<Obj>, b: seq<Obj>, c: seq<Obj>)
    ensures a + b + c == a + (b + c)
  {
  }

  /** Exactly the successful builds enter the ready list, each once and in order; when the driver is finished, all have. */
  lemma ListedIffBuilt(objs: seq<Obj>, steps: seq<Step>)
    requires Schedule(objs, Start(objs), steps)
    ensures var s := Outcome(objs, Start(objs), steps);
            && s.appended + InHand(s.main) == Built(objs, Start(objs), steps)
            && (s.main.Finished? ==> s.appended == Built(objs, Start(objs), steps))
  {
    hide Schedule, Outcome, Built;
    AppendsWhatIsBuilt(objs, Start(objs), steps);
    var s, b := Outcome(objs, Start(objs), steps), Built(objs, Start(objs), steps);
    assert [] + b == b && s.appended + [] == s.appended;
  }

  // ---------------------------------------------------------------- the driver can always finish

  /** A step that brings the end nearer. */
  function Forward(objs: seq<Obj>, s: State): Step {
    match s.main
    case Appending(_) => Append
    case Collecting => if s.left == [] then SetDone else FinishBuild(0, false)
    case Joining =>
      (match s.consumer
       case Exited => Join
       case Idle => Drain
       case Checking => Check
       case Draining(_) => LoadRaises
       case Writing(_, _, _) => WriteRow)
    case _ => Flush
  }

  /** What is left to do: for the main thread, and while it waits for the consumer. */
  function Stage(m: Main): nat {
    match m case Collecting => 3 case Appending(_) => 3 case Joining => 2 case Flushing(_) => 1 case Finished => 0
  }

  function MainLeft(objs: seq<Obj>, s: State): nat {
    match s.main
    case Collecting => 2 * |s.left|
    case Appending(_) => 2 * |s.left| + 1
    case Flushing(i) => if i <= |objs| then |objs| - i else 0
    case _ => 0
  }

  function ConsumerLeft(c: Consumer): nat {
    match c
    case Exited => 0
    case Checking => 1
    case Draining(_) => 1
    case Idle => 2
    case Writing(batch, next, _) => 3 + if next <= |batch| then |batch| - next else 0
  }

  lemma ForwardIsProgress(objs: seq<Obj>, s: State)
    requires Phases(objs, s) && !s.main.Finished?
    ensures Enabled(objs, s, Forward(objs, s))
    ensures var s' := Apply(objs, s, Forward(objs, s));
            || Stage(s'.main) < Stage(s.main)
            || (Stage(s'.main) == Stage(s.main) && MainLeft(objs, s') < MainLeft(objs, s))
            || (Stage(s'.main) == Stage(s.main) && MainLeft(objs, s') == MainLeft(objs, s)
                && ConsumerLeft(s'.consumer) < ConsumerLeft(s.consumer))
  {
  }

  lemma {:induction false} CanFinish(objs: seq<Obj>, s: State) returns (steps: seq<Step>)
    requires Phases(objs, s)
    ensures Schedule(objs, s, steps) && Outcome(objs, s, steps).main.Finished?
    decreases Stage(s.main), MainLeft(objs, s), ConsumerLeft(s.consumer)
  {
    hide Phases, Enabled, Apply, Forward, Stage, MainLeft, ConsumerLeft;
    steps := [];
    if !s.main.Finished? {
      ForwardIsProgress(objs, s);
      KeepsPhases(objs, s, Forward(objs, s));
      var rest := CanFinish(objs, Apply(objs, s, Forward(objs, s)));
      steps := [Forward(objs, s)] + rest;
      assert steps[1..] == rest;
    }
  }

  lemma {:induction false} Continues(objs: seq<Obj>, s: State, a: seq<Step>, b: seq<Step>)
    requires Schedule(objs, s, a) && Schedule(objs, Outcome(objs, s, a), b)
    ensures Schedule(objs, s, a + b) && Outcome(objs, s, a + b) == Outcome(objs, Outcome(objs, s, a), b)
    decreases a
  {
    hide Enabled, Apply;
    if a == [] {
      assert a + b == b;
    } else {
      Continues(objs, Apply(objs, s, a[0]), a[1..], b);
      assert (a + b)[1..] == a[1..] + b;
    }
  }

  /** However the threads have interleaved so far, the driver is not stuck: some continuation finishes it. */
  lemma NeverStuck(objs: seq<Obj>, steps: seq<Step>) returns (more: seq<Step>)
    requires Schedule(objs, Start(objs), steps)
    ensures Schedule(objs, Start(objs), steps + more) && Outcome(objs, Start(objs), steps + more).main.Finished?
  {
    hide Schedule, Outcome;
    InvAlways(objs, steps, 0);
    more := CanFinish(objs, Outcome(objs, Start(objs), steps));
    Continues(objs, Start(objs), steps, more);
  }
}
