/** The threads of the heat kernel and their synchronisers: an alternating bit, a counter, or a step
    promise per iteration between each thread and its right neighbour. */
module Wavefront {
  import opened Heat
  import StepPromise

  datatype Kind = AltBit | Counter | Promises(step: nat)

  /** The bits and counters go with blocks of rows, the promises with blocks of columns. Thread t has
      the rows or columns from bounds[t] up to bounds[t + 1]. */
  datatype Setup = Setup(kind: Kind, box: Box, bounds: seq<nat>) {
    ghost predicate Proper() {
      && |bounds| >= 2 && bounds[0] == 1 && bounds[|bounds| - 1] == (if kind.Promises? then box.x else box.y)
      && (forall t, u :: 0 <= t < u < |bounds| ==> bounds[t] <= bounds[u])
      && box.w >= 1 && box.x >= 1 && box.y >= 1
    }

    function Threads(): (n: nat)
      requires |bounds| >= 2
      ensures n >= 1
    {
      |bounds| - 1
    }

    function FirstRow(t: nat): (j: nat)
      requires t < |bounds| - 1
    {
      if kind.Promises? then 1 else bounds[t]
    }

    function RowEnd(t: nat): (j: nat)
      requires t < |bounds| - 1
    {
      if kind.Promises? then box.y else bounds[t + 1]
    }

    function FirstColumn(t: nat): (i: nat)
      requires t < |bounds| - 1
    {
      if kind.Promises? then bounds[t] else 1
    }

    function ColumnEnd(t: nat): (i: nat)
      requires t < |bounds| - 1
    {
      if kind.Promises? then bounds[t + 1] else box.x
    }

    function Owner(c: Cell): (t: nat)
      requires Proper() && Inner(box, c)
      ensures t < Threads() && FirstRow(t) <= c.j < RowEnd(t) && FirstColumn(t) <= c.i < ColumnEnd(t)
    {
      Block(bounds, if kind.Promises? then c.i else c.j)
    }
  }

  function Block(bounds: seq<nat>, v: nat): (t: nat)
    requires |bounds| >= 2 && bounds[0] <= v < bounds[|bounds| - 1]
    ensures t < |bounds| - 1 && bounds[t] <= v < bounds[t + 1]
  {
    if bounds[|bounds| - 2] <= v then |bounds| - 2 else Block(bounds[..|bounds| - 1], v)
  }

  lemma OwnerIs(setup: Setup, c: Cell, t: nat)
    requires setup.Proper() && Inner(setup.box, c) && t < setup.Threads()
    requires setup.FirstRow(t) <= c.j < setup.RowEnd(t) && setup.FirstColumn(t) <= c.i < setup.ColumnEnd(t)
    ensures setup.Owner(c) == t
  {
    var u := setup.Owner(c);
  }

  // ---------- threads and steps ----------

  /** The loop variables of a thread, and whether it has passed the wait on its left neighbour. */
  datatype Thread = Thread(m: nat, j: nat, i: nat, k: nat, go: bool)

  datatype State = State(threads: seq<Thread>, bits: seq<bool>, counts: seq<nat>, published: map<(nat, nat), int>,
                         log: seq<Cell>)

  function Published(s: State, m: nat, t: nat): (p: int) {
    if (m, t) in s.published then s.published[(m, t)] else -1
  }

  datatype Step = Pass(t: nat) | Update(t: nat) | NextColumn(t: nat) | NextRow(t: nat) | NextIteration(t: nat)

  function Start(setup: Setup, t: nat, m: nat): (th: Thread)
    requires t < |setup.bounds| - 1
  {
    Thread(m, setup.FirstRow(t), setup.FirstColumn(t), 0, false)
  }

  function Init(setup: Setup): (s: State)
    requires |setup.bounds| >= 2
  {
    var n := setup.Threads();
    State(seq(n, t requires 0 <= t < n => Start(setup, t, 1)), seq(n, _ => false), seq(n, _ => 1), map[], [])
  }

  ghost predicate Shape(setup: Setup, s: State) {
    |setup.bounds| >= 2 && |s.threads| == |s.bits| == |s.counts| == setup.Threads()
  }

  // The wait on the left neighbour.
  predicate MayPass(setup: Setup, s: State, t: nat)
    requires |s.threads| == |s.bits| == |s.counts| && t < |s.threads|
  {
    t > 0 ==>
      match setup.kind
      case AltBit => s.bits[t - 1]
      case Counter => s.counts[t - 1] > s.threads[t].m
      case Promises(_) => Published(s, s.threads[t].m, t) >= s.threads[t].j
  }

  ghost predicate Enabled(setup: Setup, s: State, step: Step)
    requires Shape(setup, s)
  {
    && step.t < setup.Threads()
    && var t := step.t;
       var th := s.threads[t];
       var inRow := th.go && th.j < setup.RowEnd(t);
       && th.m < setup.box.w
       && match step
          case Pass(_) => !th.go && (setup.kind.Promises? ==> th.j < setup.RowEnd(t)) && MayPass(setup, s, t)
          case Update(_) => inRow && th.i < setup.ColumnEnd(t) && th.k < setup.box.z
          case NextColumn(_) => inRow && th.i < setup.ColumnEnd(t) && th.k >= setup.box.z
          case NextRow(_) => inRow && th.i >= setup.ColumnEnd(t)
          case NextIteration(_) =>
            && th.j >= setup.RowEnd(t) && (!setup.kind.Promises? ==> th.go)
            && (setup.kind.AltBit? && t < setup.Threads() - 1 ==> !s.bits[t])
  }

  function Next(setup: Setup, s: State, step: Step): (r: State)
    requires Shape(setup, s) && Enabled(setup, s, step)
  {
    var t := step.t;
    var th := s.threads[t];
    var last := t == setup.Threads() - 1;
    match step
    case Pass(_) =>
      s.(threads := s.threads[t := th.(go := true)],
         bits := if setup.kind.AltBit? && t > 0 then s.bits[t - 1 := false] else s.bits)
    case Update(_) =>
      s.(threads := s.threads[t := th.(k := th.k + 1)], log := s.log + [Cell(th.m, th.i, th.j, th.k)])
    case NextColumn(_) =>
      s.(threads := s.threads[t := th.(i := th.i + 1, k := 0)])
    case NextRow(_) =>
      s.(threads := s.threads[t := Thread(th.m, th.j + 1, setup.FirstColumn(t), 0, !setup.kind.Promises?)],
         published := if setup.kind.Promises? && !last
                      then s.published[(th.m, t + 1) :=
                        StepPromise.AfterSet(Published(s, th.m, t + 1), th.j, setup.kind.step)]
                      else s.published)
    case NextIteration(_) =>
      s.(threads := s.threads[t := Start(setup, t, th.m + 1)],
         bits := if setup.kind.AltBit? && !last then s.bits[t := true] else s.bits,
         counts := if setup.kind.Counter? && !last then s.counts[t := s.counts[t] + 1] else s.counts,
         published := if setup.kind.Promises? && !last then s.published[(th.m, t + 1) := setup.box.y] else s.published)
  }

  // ---------- invariants ----------

  ghost predicate InLoops(setup: Setup, t: nat, th: Thread)
    requires t < |setup.bounds| - 1
  {
    && 1 <= th.m <= setup.box.w && setup.FirstRow(t) <= th.j && setup.FirstColumn(t) <= th.i
    && (!th.go ==> th.i == setup.FirstColumn(t) && th.k == 0 && (!setup.kind.Promises? ==> th.j == setup.FirstRow(t)))
    && (th.go ==> th.m < setup.box.w)
  }

  // A thread visits its cells in this order.
  predicate Passed(c: Cell, th: Thread) {
    c.m < th.m || (c.m == th.m && (c.j < th.j || (c.j == th.j && (c.i < th.i || (c.i == th.i && c.k < th.k)))))
  }

  ghost predicate Logged(setup: Setup, s: State)
    requires Shape(setup, s) && setup.Proper()
  {
    forall c :: c in s.log <==> Inner(setup.box, c) && Passed(c, s.threads[setup.Owner(c)])
  }

  // A unit of work between two waits: an iteration, or a row of one.
  predicate UnitDone(kind: Kind, th: Thread, m: nat, j: nat) {
    m < th.m || (kind.Promises? && m == th.m && j < th.j)
  }

  predicate UnitBegun(kind: Kind, th: Thread, m: nat, j: nat) {
    UnitDone(kind, th, m, j) || (th.go && m == th.m && (kind.Promises? ==> j == th.j))
  }

  // A unit is begun only when the left neighbour is done with it.
  ghost predicate Follows(setup: Setup, left: Thread, right: Thread) {
    forall m: nat, j: nat :: (setup.kind.Promises? ==> 1 <= j < setup.box.y) && UnitBegun(setup.kind, right, m, j) ==>
      UnitDone(setup.kind, left, m, j)
  }

  function Num(b: bool): (n: nat) { if b then 1 else 0 }

  // What the variables of the synchroniser say about thread t and its right neighbour.
  ghost predicate Synced(setup: Setup, s: State, t: nat)
    requires Shape(setup, s) && t < setup.Threads() - 1
  {
    match setup.kind
    case AltBit => s.threads[t].m == s.threads[t + 1].m + Num(s.threads[t + 1].go) + Num(s.bits[t])
    case Counter => s.counts[t] == s.threads[t].m
    case Promises(_) => PublishedBy(setup, s, s.threads[t], t + 1)
  }

  // The promises a thread sets: closed for the iterations behind it; in this one not ahead of the rows
  // done and less than a step behind them.
  ghost predicate PublishedBy(setup: Setup, s: State, th: Thread, right: nat) {
    forall m: nat :: PublishedFor(setup, th, m, Published(s, m, right))
  }

  predicate PublishedFor(setup: Setup, th: Thread, m: nat, p: int) {
    if m < th.m && m > 0 then p == setup.box.y
    else if m == th.m then -1 <= p < th.j && (th.j == 1 ==> p == -1)
                           && (th.j > 1 && StepsFit(setup) ==> LagsLess(setup, th, p))
    else p == -1
  }

  // The step is one that promises take, and rows are indices.
  predicate StepsFit(setup: Setup) {
    setup.kind.Promises? && StepPromise.Step(setup.kind.step) && setup.box.y <= StepPromise.MAX_INDEX
  }

  predicate LagsLess(setup: Setup, th: Thread, p: int)
    requires setup.kind.Promises?
  {
    th.j - 1 - p < setup.kind.step
  }

  ghost predicate Inv(setup: Setup, s: State) {
    && setup.Proper() && Shape(setup, s)
    && (forall t :: 0 <= t < setup.Threads() ==> InLoops(setup, t, s.threads[t]))
    && (forall t :: 0 <= t < setup.Threads() - 1 ==>
         Synced(setup, s, t) && Follows(setup, s.threads[t], s.threads[t + 1]))
    && Logged(setup, s) && Respectful(setup.box, s.log)
  }

  lemma InitInv(setup: Setup)
    requires setup.Proper()
    ensures Inv(setup, Init(setup))
  {
    var s := Init(setup);
    forall c | Inner(setup.box, c) ensures !Passed(c, s.threads[setup.Owner(c)]) {
    }
  }

  // ---------- what the waits give ----------

  lemma {:induction false} AllToTheLeftAreDone(setup: Setup, s: State, t: nat, u: nat, m: nat, j: nat)
    requires Inv(setup, s) && u < t < setup.Threads()
    requires setup.kind.Promises? ==> 1 <= j < setup.box.y
    requires UnitBegun(setup.kind, s.threads[t], m, j)
    ensures UnitDone(setup.kind, s.threads[u], m, j)
  {
    assert Follows(setup, s.threads[t - 1], s.threads[t]);
    if u < t - 1 {
      AllToTheLeftAreDone(setup, s, t - 1, u, m, j);
    }
  }

  // The cell a thread is about to update is not done, and what it reads is.
  lemma ReadsAreLogged(setup: Setup, s: State, t: nat)
    requires Inv(setup, s) && Enabled(setup, s, Update(t))
    ensures var th := s.threads[t];
            var c := Cell(th.m, th.i, th.j, th.k);
            Inner(setup.box, c) && c !in s.log && ReadsDone(setup.box, Elements(s.log), c)
  {
    hide Setup.Proper, Synced, Follows, Respectful;
    var th := s.threads[t];
    var c := Cell(th.m, th.i, th.j, th.k);
    BoundsInside(setup, t);
    OwnerIs(setup, c, t);
    if Inner(setup.box, c.(m := c.m - 1)) {
      ReadIsLogged(setup, s, t, c, c.(m := c.m - 1));
    }
    if Inner(setup.box, c.(i := c.i - 1)) {
      ReadIsLogged(setup, s, t, c, c.(i := c.i - 1));
    }
    if Inner(setup.box, c.(j := c.j - 1)) {
      ReadIsLogged(setup, s, t, c, c.(j := c.j - 1));
    }
  }

  lemma BoundsInside(setup: Setup, t: nat)
    requires setup.Proper() && t < setup.Threads()
    ensures 1 <= setup.FirstRow(t) && setup.RowEnd(t) <= setup.box.y
    ensures 1 <= setup.FirstColumn(t) && setup.ColumnEnd(t) <= setup.box.x
  {
  }

  lemma ReadIsLogged(setup: Setup, s: State, t: nat, c: Cell, d: Cell)
    requires Inv(setup, s) && t < setup.Threads() && s.threads[t].go && Inner(setup.box, c) && Inner(setup.box, d)
    requires var th := s.threads[t]; c == Cell(th.m, th.i, th.j, th.k)
    requires setup.Owner(c) == t
    requires d == c.(m := c.m - 1) || d == c.(i := c.i - 1) || d == c.(j := c.j - 1)
    ensures d in s.log
  {
    var u := setup.Owner(d);
    if u < t {
      AllToTheLeftAreDone(setup, s, t, u, c.m, c.j);
    }
  }

  // ---------- what every step keeps ----------

  lemma StepKeepsLoops(setup: Setup, s: State, step: Step)
    requires Inv(setup, s) && Enabled(setup, s, step)
    ensures var r := Next(setup, s, step);
            forall t :: 0 <= t < setup.Threads() ==> InLoops(setup, t, r.threads[t])
  {
  }

  lemma StepKeepsFollows(setup: Setup, s: State, step: Step, t: nat)
    requires Inv(setup, s) && Enabled(setup, s, step) && t < setup.Threads() - 1
    ensures var r := Next(setup, s, step); Follows(setup, r.threads[t], r.threads[t + 1])
  {
    assert Synced(setup, s, t) && Follows(setup, s.threads[t], s.threads[t + 1]);
  }

  lemma StepKeepsSynced(setup: Setup, s: State, step: Step, t: nat)
    requires Inv(setup, s) && Enabled(setup, s, step) && t < setup.Threads() - 1
    ensures Synced(setup, Next(setup, s, step), t)
  {
    hide Setup.Proper, Logged, Follows, Respectful, StepPromise.AfterSet, StepPromise.Step;
    assert Synced(setup, s, t) && InLoops(setup, t, s.threads[t]);
    if setup.kind.Promises? {
      var r, right := Next(setup, s, step), t + 1;
      var th, p := s.threads[t], Published(s, s.threads[t].m, right);
      assert PublishedFor(setup, th, th.m, p);
      PublishedAfterRow(setup, p, th.j);
      forall m: nat ensures PublishedFor(setup, r.threads[t], m, Published(r, m, right)) {
        assert PublishedFor(setup, s.threads[t], m, Published(s, m, right));
        assert Published(r, m, right) == Published(s, m, right) || step.t == t;
      }
    }
  }

  lemma PublishedAfterRow(setup: Setup, p: int, j: nat)
    requires setup.kind.Promises? && -1 <= p < j
    ensures var q := StepPromise.AfterSet(p, j, setup.kind.step);
            -1 <= q <= j && (StepsFit(setup) && j <= setup.box.y ==> j - q < setup.kind.step)
  {
    if StepsFit(setup) && j <= setup.box.y {
      StepPromise.LagIsBelowStep(p, j, setup.kind.step);
    }
  }

  lemma PassedStays(setup: Setup, s: State, step: Step, c: Cell)
    requires Inv(setup, s) && Enabled(setup, s, step) && Inner(setup.box, c)
    ensures var r, t, th := Next(setup, s, step), setup.Owner(c), s.threads[step.t];
            Passed(c, r.threads[t]) <==> Passed(c, s.threads[t]) || (step.Update? && c == Cell(th.m, th.i, th.j, th.k))
  {
    assert InLoops(setup, step.t, s.threads[step.t]);
    if step.Update? {
      var th := s.threads[step.t];
      BoundsInside(setup, step.t);
      OwnerIs(setup, Cell(th.m, th.i, th.j, th.k), step.t);
    }
  }

  lemma StepKeepsLogged(setup: Setup, s: State, step: Step)
    requires Inv(setup, s) && Enabled(setup, s, step)
    ensures Shape(setup, Next(setup, s, step)) && Logged(setup, Next(setup, s, step))
  {
    var th, r := s.threads[step.t], Next(setup, s, step);
    forall c ensures c in r.log <==> Inner(setup.box, c) && Passed(c, r.threads[setup.Owner(c)]) {
      if step.Update? {
        ReadsAreLogged(setup, s, step.t);
      }
      if Inner(setup.box, c) {
        PassedStays(setup, s, step, c);
      }
    }
  }

  lemma StepKeepsRespectful(setup: Setup, s: State, step: Step)
    requires Inv(setup, s) && Enabled(setup, s, step)
    ensures Respectful(setup.box, Next(setup, s, step).log)
  {
    if step.Update? {
      ReadsAreLogged(setup, s, step.t);
      var log := Next(setup, s, step).log;
      assert log[..|s.log|] == s.log;
      assert forall p :: 0 <= p < |s.log| ==> log[..p] == s.log[..p];
    }
  }

  lemma StepKeepsInv(setup: Setup, s: State, step: Step)
    requires Inv(setup, s) && Enabled(setup, s, step)
    ensures Inv(setup, Next(setup, s, step))
  {
    StepKeepsLoops(setup, s, step);
    StepKeepsLogged(setup, s, step);
    StepKeepsRespectful(setup, s, step);
    forall t | 0 <= t < setup.Threads() - 1
      ensures Synced(setup, Next(setup, s, step), t)
      ensures Follows(setup, Next(setup, s, step).threads[t], Next(setup, s, step).threads[t + 1])
    {
      StepKeepsSynced(setup, s, step, t);
      StepKeepsFollows(setup, s, step, t);
    }
  }

  // ---------- main results ----------

  ghost predicate Run(setup: Setup, states: seq<State>, steps: seq<Step>) {
    && setup.Proper() && |states| == |steps| + 1 && states[0] == Init(setup)
    && forall i :: 0 <= i < |steps| ==>
         Shape(setup, states[i]) && Enabled(setup, states[i], steps[i])
         && states[i + 1] == Next(setup, states[i], steps[i])
  }

  lemma {:induction false} RunKeepsInv(setup: Setup, states: seq<State>, steps: seq<Step>, k: nat)
    requires Run(setup, states, steps) && k < |states|
    ensures Inv(setup, states[k])
  {
    if k == 0 {
      InitInv(setup);
    } else {
      RunKeepsInv(setup, states, steps, k - 1);
      StepKeepsInv(setup, states[k - 1], steps[k - 1]);
    }
  }

  ghost predicate Finished(setup: Setup, s: State) {
    forall t :: 0 <= t < |s.threads| ==> s.threads[t].m >= setup.box.w
  }

  /** Whatever the synchroniser and the interleaving, cells are updated once and after the cells they
      read, and when all threads are through, every inner cell has been updated: the schedule is one
      that gives the sequential matrix. */
  lemma RunsAreRespectful(setup: Setup, states: seq<State>, steps: seq<Step>, k: nat)
    requires Run(setup, states, steps) && k < |states|
    ensures Respectful(setup.box, states[k].log)
    ensures Finished(setup, states[k]) ==> Covers(setup.box, states[k].log)
  {
    RunKeepsInv(setup, states, steps, k);
  }

  /** What the right neighbour can see of a thread under step promises, in every run: nothing before the
      first row of an iteration is done, afterwards a row that is done and less than a step behind the
      last one done, and the closing value for the iterations that are over. */
  lemma PublishedRowsLag(setup: Setup, states: seq<State>, steps: seq<Step>, k: nat, t: nat, m: nat)
    requires Run(setup, states, steps) && k < |states| && t < setup.Threads() - 1
    requires setup.kind.Promises? && StepPromise.Step(setup.kind.step) && setup.box.y <= StepPromise.MAX_INDEX
    ensures t + 1 < |states[k].threads|
    ensures var s, th := states[k], states[k].threads[t];
            var p := Published(s, th.m, t + 1);
            && (if th.j == 1 then p == -1 else p < th.j && th.j - 1 - p < setup.kind.step)
            && (0 < m < th.m ==> Published(s, m, t + 1) == setup.box.y)
  {
    hide Logged, Follows, Respectful, StepPromise.AfterSet, StepPromise.Step;
    RunKeepsInv(setup, states, steps, k);
    var s, th := states[k], states[k].threads[t];
    assert Synced(setup, s, t) && InLoops(setup, t, th);
    assert PublishedFor(setup, th, th.m, Published(s, th.m, t + 1));
    assert PublishedFor(setup, th, m, Published(s, m, t + 1));
  }

  /** Nobody waits longer than it has to. In every run a thread that waits may pass once its left
      neighbour is an iteration ahead; under step promises already when it is a step of rows ahead. */
  lemma WaitsAreTight(setup: Setup, states: seq<State>, steps: seq<Step>, k: nat, t: nat)
    requires Run(setup, states, steps) && k < |states| && 0 < t < setup.Threads()
    ensures t < |states[k].threads|
    ensures var s, left, th := states[k], states[k].threads[t - 1], states[k].threads[t];
            && Shape(setup, s)
            && (!th.go && left.m > th.m && (setup.kind.Promises? ==> th.j < setup.box.y) ==> MayPass(setup, s, t))
            && (StepsFit(setup) && left.m == th.m && left.j >= th.j + setup.kind.step ==> MayPass(setup, s, t))
  {
    hide Logged, Follows, Respectful, StepPromise.AfterSet;
    RunKeepsInv(setup, states, steps, k);
    var s, left, th := states[k], states[k].threads[t - 1], states[k].threads[t];
    assert Synced(setup, s, t - 1) && InLoops(setup, t, th) && InLoops(setup, t - 1, left);
    if setup.kind.Promises? {
      assert PublishedFor(setup, left, th.m, Published(s, th.m, t));
    }
  }

  // The first of the threads that are furthest behind.
  lemma {:induction false} Laggard(threads: seq<Thread>) returns (t: nat)
    requires |threads| > 0
    ensures t < |threads| && (forall u :: 0 <= u < |threads| ==> threads[t].m <= threads[u].m)
    ensures t > 0 ==> threads[t - 1].m > threads[t].m
  {
    t := 0;
    for n := 1 to |threads|
      invariant t < n && (forall u :: 0 <= u < n ==> threads[t].m <= threads[u].m)
      invariant t > 0 ==> threads[t - 1].m > threads[t].m
    {
      if threads[n].m < threads[t].m {
        t := n;
      }
    }
  }

  /** The waits never block all threads: as long as one is not through, some step is possible. */
  lemma NoDeadlock(setup: Setup, states: seq<State>, steps: seq<Step>, k: nat) returns (step: Step)
    requires Run(setup, states, steps) && k < |states| && !Finished(setup, states[k])
    ensures Shape(setup, states[k]) && Enabled(setup, states[k], step)
  {
    RunKeepsInv(setup, states, steps, k);
    var s := states[k];
    var t := Laggard(s.threads);
    var th := s.threads[t];
    assert InLoops(setup, t, th);
    BoundsInside(setup, t);
    assert t > 0 ==> Synced(setup, s, t - 1);
    assert t < setup.Threads() - 1 ==> Synced(setup, s, t);
    if th.j >= setup.RowEnd(t) && (setup.kind.Promises? || th.go) {
      step := NextIteration(t);
    } else if !th.go {
      step := Pass(t);
    } else if th.i >= setup.ColumnEnd(t) {
      step := NextRow(t);
    } else {
      step := if th.k < setup.box.z then Update(t) else NextColumn(t);
    }
  }

  // ---------- every run ends ----------

  // The cost of the turns from b up to a.
  function Turns(a: nat, b: nat, cost: nat): (n: nat) {
    if a > b then (a - b) * cost else 0
  }

  // Upper bounds on the steps of a thread in a column, a row and an iteration.
  function ColumnCost(setup: Setup): (n: nat) { setup.box.z + 1 }

  function RowCost(setup: Setup, t: nat): (n: nat)
    requires t < |setup.bounds| - 1
  {
    Turns(setup.ColumnEnd(t), setup.FirstColumn(t), ColumnCost(setup)) + setup.box.z + 2
  }

  function IterationCost(setup: Setup, t: nat): (n: nat)
    requires t < |setup.bounds| - 1
  {
    Turns(setup.RowEnd(t), setup.FirstRow(t), RowCost(setup, t)) + RowCost(setup, t)
  }

  /** At most as many steps are left to a thread. */
  function StepsLeft(setup: Setup, t: nat, th: Thread): (n: nat)
    requires t < |setup.bounds| - 1
  {
    Turns(setup.box.w, th.m, IterationCost(setup, t)) + Turns(setup.RowEnd(t), th.j, RowCost(setup, t))
    + Turns(setup.ColumnEnd(t), th.i, ColumnCost(setup)) + Turns(setup.box.z, th.k, 1) + (1 - Num(th.go))
  }

  lemma OneTurn(a: nat, b: nat, cost: nat)
    ensures b < a ==> Turns(a, b, cost) == Turns(a, b + 1, cost) + cost
    ensures Turns(a, 0, 1) == a && (b >= a ==> Turns(a, b, cost) == 0)
  {
    if b < a {
      assert (a - b) * cost == (a - (b + 1)) * cost + cost;
    }
  }

  lemma StepUsesUp(setup: Setup, s: State, step: Step)
    requires Shape(setup, s) && Enabled(setup, s, step)
    ensures StepsLeft(setup, step.t, Next(setup, s, step).threads[step.t]) < StepsLeft(setup, step.t, s.threads[step.t])
  {
    hide Turns;
    var t := step.t;
    var th := s.threads[t];
    OneTurn(setup.box.z, th.k, 1);
    OneTurn(setup.ColumnEnd(t), th.i, ColumnCost(setup));
    OneTurn(setup.RowEnd(t), th.j, RowCost(setup, t));
    OneTurn(setup.box.w, th.m, IterationCost(setup, t));
  }

  function TotalLeft(setup: Setup, threads: seq<Thread>): (n: nat)
    requires |threads| <= |setup.bounds| - 1
  {
    if threads == [] then 0
    else TotalLeft(setup, threads[..|threads| - 1]) + StepsLeft(setup, |threads| - 1, threads[|threads| - 1])
  }

  lemma {:induction false} TotalOfChange(setup: Setup, threads: seq<Thread>, t: nat, th: Thread)
    requires t < |threads| <= |setup.bounds| - 1
    ensures TotalLeft(setup, threads[t := th]) ==
              TotalLeft(setup, threads) - StepsLeft(setup, t, threads[t]) + StepsLeft(setup, t, th)
  {
    hide StepsLeft;
    var n := |threads| - 1;
    if t < n {
      TotalOfChange(setup, threads[..n], t, th);
      assert threads[t := th][..n] == threads[..n][t := th];
    } else {
      assert threads[t := th][..n] == threads[..n];
    }
  }

  /** No run is longer than the work: every interleaving ends. */
  lemma {:induction false} RunsAreShort(setup: Setup, states: seq<State>, steps: seq<Step>, k: nat)
    requires Run(setup, states, steps) && k < |states|
    ensures Shape(setup, states[k])
    ensures k + TotalLeft(setup, states[k].threads) <= TotalLeft(setup, Init(setup).threads)
  {
    hide TotalLeft, StepsLeft;
    if k > 0 {
      RunsAreShort(setup, states, steps, k - 1);
      var s, step := states[k - 1], steps[k - 1];
      StepUsesUp(setup, s, step);
      TotalOfChange(setup, s.threads, step.t, states[k].threads[step.t]);
      assert states[k].threads == s.threads[step.t := states[k].threads[step.t]];
    }
  }

  /** A run that cannot go on is finished, so every run that is continued as long as it can be ends,
      after a bounded number of steps, with all cells updated respectfully. */
  lemma MaximalRunsFinish(setup: Setup, states: seq<State>, steps: seq<Step>)
    requires Run(setup, states, steps)
    requires var s := states[|steps|]; Shape(setup, s) && forall step :: !Enabled(setup, s, step)
    ensures Finished(setup, states[|steps|]) && |steps| <= TotalLeft(setup, Init(setup).threads)
    ensures Respectful(setup.box, states[|steps|].log) && Covers(setup.box, states[|steps|].log)
  {
    RunsAreShort(setup, states, steps, |steps|);
    if !Finished(setup, states[|steps|]) {
      var step := NoDeadlock(setup, states, steps, |steps|);
    }
    RunsAreRespectful(setup, states, steps, |steps|);
  }

  /** A finished run of threads leaves the matrix of the sequential loops. */
  method ParallelEqualsSequential<T(!new)>(rule: Rule<T>, ghost init: Cell -> T, a: array4<T>, s: array4<T>,
                                           ghost states: seq<State>, ghost steps: seq<Step>, setup: Setup,
                                           log: seq<Cell>)
    requires Run(setup, states, steps) && Finished(setup, states[|steps|]) && log == states[|steps|].log
    requires a != s && Holds(rule, setup.box, init, a, {}) && Holds(rule, setup.box, init, s, {})
    modifies a, s
    ensures forall c :: InBox(setup.box, c) ==> a[c.m, c.i, c.j, c.k] == s[c.m, c.i, c.j, c.k]
    ensures Solved(rule, setup.box, init, a)
  {
    RunsAreRespectful(setup, states, steps, |steps|);
    RunAndCompare(rule, setup.box, init, a, s, log);
  }
}
