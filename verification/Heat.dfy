/** The heat matrix: every inner cell is updated from three neighbours. Any order in which a cell
    comes after the cells it reads gives the values of the sequential loops. */
module Heat {

  datatype Box = Box(w: nat, x: nat, y: nat, z: nat)

  /** A cell by the loop variables: iteration m, column i, row j, depth k. */
  datatype Cell = Cell(m: nat, i: nat, j: nat, k: nat)

  predicate InBox(b: Box, c: Cell) {
    c.m < b.w && c.i < b.x && c.j < b.y && c.k < b.z
  }

  predicate Inner(b: Box, c: Cell) {
    InBox(b, c) && c.m >= 1 && c.i >= 1 && c.j >= 1
  }

  /** The arithmetic of one update: what the three neighbours contribute, and how it is added. */
  datatype Rule<!T> = Rule(term: (T, T, T) -> T, add: (T, T) -> T) {
    function Accumulated(v: T, t: T, n: nat): (r: T) {
      if n == 0 then v else add(Accumulated(v, t, n - 1), t)
    }
  }

  const REPEATS := 15

  /** The value of a cell by its dependencies alone, whatever the order of the updates. */
  function Value<T>(rule: Rule<T>, b: Box, init: Cell -> T, c: Cell): (v: T)
    decreases c.m + c.i + c.j
  {
    if Inner(b, c) then
      rule.Accumulated(init(c),
                       rule.term(Value(rule, b, init, c.(m := c.m - 1)),
                                 Value(rule, b, init, c.(i := c.i - 1)),
                                 Value(rule, b, init, c.(j := c.j - 1))), REPEATS)
    else init(c)
  }

  // A cell is read before it is there only if it is on the border.
  ghost predicate ReadsDone(b: Box, done: set<Cell>, c: Cell)
    requires Inner(b, c)
  {
    && (Inner(b, c.(m := c.m - 1)) ==> c.(m := c.m - 1) in done)
    && (Inner(b, c.(i := c.i - 1)) ==> c.(i := c.i - 1) in done)
    && (Inner(b, c.(j := c.j - 1)) ==> c.(j := c.j - 1) in done)
  }

  /** Every inner cell is updated at most once, after the cells it reads. */
  ghost predicate Respectful(b: Box, schedule: seq<Cell>) {
    forall p :: 0 <= p < |schedule| ==>
      Inner(b, schedule[p]) && schedule[p] !in schedule[..p] && ReadsDone(b, Elements(schedule[..p]), schedule[p])
  }

  ghost function Elements(s: seq<Cell>): (e: set<Cell>)
    ensures forall c :: c in e <==> c in s
  {
    set c | c in s
  }

  // The matrix holds final values where it is done and initial values elsewhere.
  ghost predicate Holds<T(!new)>(rule: Rule<T>, b: Box, init: Cell -> T, a: array4<T>, done: set<Cell>)
    reads a
  {
    && a.Length0 == b.w && a.Length1 == b.x && a.Length2 == b.y && a.Length3 == b.z
    && forall c :: InBox(b, c) ==> a[c.m, c.i, c.j, c.k] == if c in done then Value(rule, b, init, c) else init(c)
  }

  /** What the final matrix is, cell by cell and in terms of its own neighbours: every inner cell is its
      initial value with the term of its three neighbours added, and the border is as it was. */
  ghost predicate Solved<T(!new)>(rule: Rule<T>, b: Box, init: Cell -> T, a: array4<T>)
    reads a
  {
    && a.Length0 == b.w && a.Length1 == b.x && a.Length2 == b.y && a.Length3 == b.z
    && forall c :: InBox(b, c) ==>
         a[c.m, c.i, c.j, c.k] ==
         if Inner(b, c)
         then rule.Accumulated(init(c), rule.term(a[c.m - 1, c.i, c.j, c.k], a[c.m, c.i - 1, c.j, c.k],
                                                  a[c.m, c.i, c.j - 1, c.k]), REPEATS)
         else init(c)
  }

  lemma FullIsSolved<T(!new)>(rule: Rule<T>, b: Box, init: Cell -> T, a: array4<T>, done: set<Cell>)
    requires Holds(rule, b, init, a, done) && forall c :: c in done <==> Inner(b, c)
    ensures Solved(rule, b, init, a)
  {
    hide Rule.Accumulated, Value;
    forall c | Inner(b, c)
      ensures a[c.m, c.i, c.j, c.k] ==
              rule.Accumulated(init(c), rule.term(a[c.m - 1, c.i, c.j, c.k], a[c.m, c.i - 1, c.j, c.k],
                                                  a[c.m, c.i, c.j - 1, c.k]), REPEATS)
    {
      CellIsSolved(rule, b, init, a, done, c);
    }
  }

  lemma CellIsSolved<T(!new)>(rule: Rule<T>, b: Box, init: Cell -> T, a: array4<T>, done: set<Cell>, c: Cell)
    requires Holds(rule, b, init, a, done) && Inner(b, c) && forall d :: d in done <==> Inner(b, d)
    ensures a[c.m, c.i, c.j, c.k] ==
            rule.Accumulated(init(c), rule.term(a[c.m - 1, c.i, c.j, c.k], a[c.m, c.i - 1, c.j, c.k],
                                                a[c.m, c.i, c.j - 1, c.k]), REPEATS)
  {
    hide Rule.Accumulated, Holds;
    Neighbour(rule, b, init, a, done, c);
    Neighbour(rule, b, init, a, done, c.(m := c.m - 1));
    Neighbour(rule, b, init, a, done, c.(i := c.i - 1));
    Neighbour(rule, b, init, a, done, c.(j := c.j - 1));
  }

  /** Adding a term again and again with plain addition adds a multiple of it. */
  lemma {:induction false} AccumulatedOfPlus(rule: Rule<real>, v: real, t: real, n: nat)
    requires forall x, y :: rule.add(x, y) == x + y
    ensures rule.Accumulated(v, t, n) == v + n as real * t
  {
    if n > 0 {
      AccumulatedOfPlus(rule, v, t, n - 1);
    }
  }

  /** One update in place. */
  method UpdateMatrix<T(!new)>(rule: Rule<T>, ghost b: Box, ghost init: Cell -> T, a: array4<T>,
                               ghost done: set<Cell>, c: Cell)
    requires Holds(rule, b, init, a, done) && Inner(b, c) && c !in done && ReadsDone(b, done, c)
    requires forall d :: d in done ==> Inner(b, d)
    modifies a
    ensures Holds(rule, b, init, a, done + {c})
    ensures a[c.m, c.i, c.j, c.k] ==
            rule.Accumulated(old(a[c.m, c.i, c.j, c.k]),
                             old(rule.term(a[c.m - 1, c.i, c.j, c.k], a[c.m, c.i - 1, c.j, c.k],
                                           a[c.m, c.i, c.j - 1, c.k])), REPEATS)
    ensures forall d :: InBox(b, d) && d != c ==> a[d.m, d.i, d.j, d.k] == old(a[d.m, d.i, d.j, d.k])
  {
    hide Rule.Accumulated;
    Neighbour(rule, b, init, a, done, c.(m := c.m - 1));
    Neighbour(rule, b, init, a, done, c.(i := c.i - 1));
    Neighbour(rule, b, init, a, done, c.(j := c.j - 1));
    var lx := a[c.m, c.i - 1, c.j, c.k];
    var ly := a[c.m, c.i, c.j - 1, c.k];
    var lw := a[c.m - 1, c.i, c.j, c.k];
    Accumulate(rule, a, c, rule.term(lw, lx, ly));
    assert a[c.m, c.i, c.j, c.k] == Value(rule, b, init, c);
  }

  predicate Inside<T>(a: array4<T>, d: Cell) {
    d.m < a.Length0 && d.i < a.Length1 && d.j < a.Length2 && d.k < a.Length3
  }

  method Accumulate<T>(rule: Rule<T>, a: array4<T>, c: Cell, term: T)
    requires Inside(a, c)
    modifies a
    ensures a[c.m, c.i, c.j, c.k] == rule.Accumulated(old(a[c.m, c.i, c.j, c.k]), term, REPEATS)
    ensures forall d :: Inside(a, d) && d != c ==> a[d.m, d.i, d.j, d.k] == old(a[d.m, d.i, d.j, d.k])
  {
    for n := 0 to REPEATS
      invariant a[c.m, c.i, c.j, c.k] == rule.Accumulated(old(a[c.m, c.i, c.j, c.k]), term, n)
      invariant forall d :: Inside(a, d) && d != c ==> a[d.m, d.i, d.j, d.k] == old(a[d.m, d.i, d.j, d.k])
    {
      a[c.m, c.i, c.j, c.k] := rule.add(a[c.m, c.i, c.j, c.k], term);
    }
  }

  lemma Neighbour<T(!new)>(rule: Rule<T>, b: Box, init: Cell -> T, a: array4<T>, done: set<Cell>, d: Cell)
    requires Holds(rule, b, init, a, done) && InBox(b, d) && (Inner(b, d) ==> d in done)
    ensures a[d.m, d.i, d.j, d.k] == Value(rule, b, init, d)
  {
  }

  /** Any respectful schedule leaves the value of every cell it visits. */
  method Execute<T(!new)>(rule: Rule<T>, ghost b: Box, ghost init: Cell -> T, a: array4<T>, schedule: seq<Cell>)
    requires Holds(rule, b, init, a, {}) && Respectful(b, schedule)
    modifies a
    ensures Holds(rule, b, init, a, Elements(schedule))
    ensures Covers(b, schedule) ==> Solved(rule, b, init, a)
  {
    hide Value, Solved, Holds;
    assert Elements(schedule[..0]) == {};
    for p := 0 to |schedule|
      invariant Holds(rule, b, init, a, Elements(schedule[..p]))
    {
      UpdateMatrix(rule, b, init, a, Elements(schedule[..p]), schedule[p]);
      assert Elements(schedule[..p + 1]) == Elements(schedule[..p]) + {schedule[p]};
    }
    assert schedule[..|schedule|] == schedule;
    if Covers(b, schedule) {
      FullIsSolved(rule, b, init, a, Elements(schedule));
    }
  }

  ghost predicate Covers(b: Box, schedule: seq<Cell>) {
    forall c :: Inner(b, c) ==> c in schedule
  }

  // ---------- the sequential loops ----------

  // The order of the sequential loops.
  predicate Earlier(c: Cell, d: Cell) {
    c.m < d.m || (c.m == d.m && (c.i < d.i || (c.i == d.i && (c.j < d.j || (c.j == d.j && c.k < d.k)))))
  }

  ghost predicate DoneBefore(b: Box, done: set<Cell>, d: Cell) {
    forall c :: c in done <==> Inner(b, c) && Earlier(c, d)
  }

  /** The sequential reference gives every cell its value. */
  method ComputeMatrix<T(!new)>(rule: Rule<T>, b: Box, ghost init: Cell -> T, a: array4<T>)
    requires Holds(rule, b, init, a, {})
    modifies a
    ensures forall c :: InBox(b, c) ==> a[c.m, c.i, c.j, c.k] == Value(rule, b, init, c)
    ensures Solved(rule, b, init, a)
  {
    hide Holds, Value, DoneBefore, ReadsDone, Solved;
    ghost var done: set<Cell> := {};
    LoopOrder(b, done, Cell(1, 1, 1, 0));
    var m := 1;
    while m < b.w
      invariant 1 <= m && Holds(rule, b, init, a, done) && DoneBefore(b, done, Cell(m, 1, 1, 0))
    {
      var i := 1;
      while i < b.x
        invariant 1 <= i && Holds(rule, b, init, a, done) && DoneBefore(b, done, Cell(m, i, 1, 0))
      {
        var j := 1;
        while j < b.y
          invariant 1 <= j && Holds(rule, b, init, a, done) && DoneBefore(b, done, Cell(m, i, j, 0))
        {
          for k := 0 to b.z
            invariant Holds(rule, b, init, a, done) && DoneBefore(b, done, Cell(m, i, j, k))
          {
            LoopOrder(b, done, Cell(m, i, j, k));
            UpdateMatrix(rule, b, init, a, done, Cell(m, i, j, k));
            done := done + {Cell(m, i, j, k)};
          }
          LoopOrder(b, done, Cell(m, i, j, b.z));
          j := j + 1;
        }
        LoopOrder(b, done, Cell(m, i, j, 0));
        i := i + 1;
      }
      LoopOrder(b, done, Cell(m, i, 1, 0));
      m := m + 1;
    }
    LoopOrder(b, done, Cell(m, 1, 1, 0));
    ValuesOutside(rule, b, init, a, done);
    FullIsSolved(rule, b, init, a, done);
  }

  // How the loop variables move through the order.
  lemma LoopOrder(b: Box, done: set<Cell>, d: Cell)
    requires d.m >= 1 && d.i >= 1 && d.j >= 1
    ensures d == Cell(1, 1, 1, 0) ==> DoneBefore(b, {}, d)
    ensures DoneBefore(b, done, d) ==>
              && (forall c :: c in done ==> Inner(b, c))
              && (Inner(b, d) ==> d !in done && ReadsDone(b, done, d) && DoneBefore(b, done + {d}, d.(k := d.k + 1)))
              && (d.k >= b.z ==> DoneBefore(b, done, Cell(d.m, d.i, d.j + 1, 0)))
              && (d.j >= b.y && d.k == 0 ==> DoneBefore(b, done, Cell(d.m, d.i + 1, 1, 0)))
              && (d.i >= b.x && d.j == 1 && d.k == 0 ==> DoneBefore(b, done, Cell(d.m + 1, 1, 1, 0)))
              && (d.m >= b.w ==> forall c :: Inner(b, c) ==> c in done)
  {
  }

  lemma ValuesOutside<T(!new)>(rule: Rule<T>, b: Box, init: Cell -> T, a: array4<T>, done: set<Cell>)
    requires Holds(rule, b, init, a, done) && forall c :: Inner(b, c) ==> c in done
    ensures forall c :: InBox(b, c) ==> a[c.m, c.i, c.j, c.k] == Value(rule, b, init, c)
  {
  }

  /** A parallel run that updates all inner cells respectfully ends with the sequential matrix. */
  method RunAndCompare<T(!new)>(rule: Rule<T>, b: Box, ghost init: Cell -> T, a: array4<T>, s: array4<T>,
                                schedule: seq<Cell>)
    requires a != s && Holds(rule, b, init, a, {}) && Holds(rule, b, init, s, {})
    requires Respectful(b, schedule) && Covers(b, schedule)
    modifies a, s
    ensures forall c :: InBox(b, c) ==> a[c.m, c.i, c.j, c.k] == s[c.m, c.i, c.j, c.k]
    ensures Solved(rule, b, init, a)
  {
    hide Solved, Value;
    Execute(rule, b, init, a, schedule);
    ComputeMatrix(rule, b, init, s);
    ValuesOutside(rule, b, init, a, Elements(schedule));
  }
}
