/** The reorder stage: chunks arrive in any order and leave in the order of the input. One variant
    writes ahead as soon as the next chunk is there; the other caches everything and drains. */
module Reorder {
  import opened Wrappers
  import opened Sequences
  import opened Chunks
  import opened ChunkCache

  const INITIAL_ANCHORS := 1024

  // ---------- the order of the input ----------

  /** The pieces of the input, each refined into at least one chunk. */
  type Plan = p: seq<seq<Bytes>> | forall i :: 0 <= i < |p| ==> |p[i]| > 0 witness []

  predicate InRange(plan: Plan, s: Seqno) {
    s.l1 < |plan| && s.l2 < |plan[s.l1]|
  }

  function ChunkAt(plan: Plan, s: Seqno): (c: Chunk)
    requires InRange(plan, s)
  {
    Chunk(s, s.l2 == |plan[s.l1]| - 1, plan[s.l1][s.l2])
  }

  predicate InPlan(plan: Plan, c: Chunk) {
    InRange(plan, c.sequence) && c == ChunkAt(plan, c.sequence)
  }

  function End(plan: Plan): (s: Seqno) {
    Seqno(|plan|, 0)
  }

  /** All chunks numbered below s, in order. */
  function Before(plan: Plan, s: Seqno): (cs: seq<Chunk>)
    requires s.l1 < |plan| ==> s.l2 <= |plan[s.l1]|
    requires s.l1 < |plan| || s == End(plan)
    decreases s.l1, s.l2
  {
    if s.l2 > 0 then Before(plan, Seqno(s.l1, s.l2 - 1)) + [ChunkAt(plan, Seqno(s.l1, s.l2 - 1))]
    else if s.l1 > 0 then Before(plan, Seqno(s.l1 - 1, |plan[s.l1 - 1]|))
    else []
  }

  function InOrder(plan: Plan): (cs: seq<Chunk>) {
    Before(plan, End(plan))
  }

  function Succ(plan: Plan, s: Seqno): (t: Seqno)
    requires InRange(plan, s)
  {
    if s.l2 + 1 == |plan[s.l1]| then Seqno(s.l1 + 1, 0) else Seqno(s.l1, s.l2 + 1)
  }

  // What is left to write: pieces, and chunks of the current piece.
  function Left(plan: Plan, s: Seqno): (n: (int, int)) {
    (|plan| - s.l1, if InRange(plan, s) then |plan[s.l1]| - s.l2 else 0)
  }

  // The values the stage's counter takes.
  predicate Normal(plan: Plan, s: Seqno) {
    InRange(plan, s) || s == End(plan)
  }

  lemma BeforeSucc(plan: Plan, s: Seqno)
    requires InRange(plan, s)
    ensures Normal(plan, Succ(plan, s)) && Before(plan, Succ(plan, s)) == Before(plan, s) + [ChunkAt(plan, s)]
    ensures forall t :: InRange(plan, t) && t.Less(Succ(plan, s)) ==> t.Less(s) || t == s
  {
  }

  /** `s` is how far the output can get with what has arrived: everything below it is there and the
      chunk numbered s is not. The chunks below it are the longest prefix that has arrived. */
  ghost predicate Frontier(plan: Plan, arrived: seq<Chunk>, s: Seqno) {
    && Normal(plan, s)
    && (forall t :: InRange(plan, t) && t.Less(s) ==> ChunkAt(plan, t) in arrived)
    && (InRange(plan, s) ==> ChunkAt(plan, s) !in arrived)
  }

  lemma FrontierUnique(plan: Plan, arrived: seq<Chunk>, s: Seqno, t: Seqno)
    requires Frontier(plan, arrived, s) && Frontier(plan, arrived, t)
    ensures s == t
  {
    assert s.Less(t) || s == t || t.Less(s);
  }

  // Every chunk of the plan arrives, and nothing else does.
  ghost predicate Complete(plan: Plan, arrived: seq<Chunk>) {
    forall s :: InRange(plan, s) ==> ChunkAt(plan, s) in arrived
  }

  lemma FrontierOfComplete(plan: Plan, arrived: seq<Chunk>, s: Seqno)
    requires Complete(plan, arrived) && Frontier(plan, arrived, s)
    ensures s == End(plan)
  {
  }

  ghost predicate Arrivals(plan: Plan, cs: seq<Chunk>) {
    && (forall i :: 0 <= i < |cs| ==> InPlan(plan, cs[i]))
    && (forall i, j :: 0 <= i < j < |cs| ==> cs[i] != cs[j])
  }

  // The cells of the per-piece table after it made room for an arrival, by one doubling at most.
  function Grown(cells: nat, c: Chunk): (n: nat) {
    if c.sequence.l1 < cells then cells else 2 * cells
  }

  /** Everything up to the chunk numbered s has arrived, so the stage gets to write it. */
  ghost predicate Reached(plan: Plan, arrived: seq<Chunk>, s: Seqno) {
    InRange(plan, s) && forall t :: InRange(plan, t) && (t.Less(s) || t == s) ==> ChunkAt(plan, t) in arrived
  }

  /** Writing that chunk reads the cell of its piece, and the table has none. */
  ghost predicate LoadOut(plan: Plan, arrived: seq<Chunk>, cells: nat) {
    exists s :: Reached(plan, arrived, s) && s.l1 >= cells
  }

  /** The last chunk of a piece writes the cell of its piece, and the table has none. */
  predicate StoreOut(c: Chunk, cells: nat) {
    c.isLast && c.sequence.l1 >= cells
  }

  // ---------- the stage ----------

  class Reorderer {
    ghost const plan: Plan
    ghost var Arrived: seq<Chunk>
    var cache: ChunkCache
    var chunksPerAnchor: array<nat>
    var next: Seqno
    var file: seq<Chunk>
    ghost var Repr: set<object>

    // What the table says about a piece: its size once its last chunk has arrived, else 0.
    ghost function Registered(l1: nat): nat
      reads this`Arrived
    {
      if l1 < |plan| && ChunkAt(plan, Seqno(l1, |plan[l1]| - 1)) in Arrived then |plan[l1]| else 0
    }

    ghost predicate Owns()
      reads this, Repr
    {
      && this in Repr && cache in Repr && cache.Repr <= Repr && chunksPerAnchor in Repr
      && this !in cache.Repr && chunksPerAnchor !in cache.Repr
      && cache.Valid()
    }

    ghost predicate TableOk()
      reads this, chunksPerAnchor
    {
      && chunksPerAnchor.Length >= 1
      && (forall i :: 0 <= i < chunksPerAnchor.Length ==> chunksPerAnchor[i] == Registered(i))
      && (forall i :: 0 <= i < |Arrived| ==> InPlan(plan, Arrived[i]) && !StoreOut(Arrived[i], chunksPerAnchor.Length))
    }

    // The file is the order up to `next`, and all of that has arrived. The cells of the pieces
    // written are there.
    ghost predicate Written()
      reads this
    {
      && Normal(plan, next) && file == Before(plan, next)
      && next.l1 + (if next.l2 > 0 then 1 else 0) <= chunksPerAnchor.Length
      && (forall t :: InRange(plan, t) && t.Less(next) ==> ChunkAt(plan, t) in Arrived)
    }

    // The cache is the rest of what arrived, except for the chunk in hand.
    ghost predicate Cached(hand: Option<Chunk>)
      reads this, Repr
    {
      && Owns()
      && forall d :: cache.Count(d) == (if d in Arrived && !d.sequence.Less(next) && Some(d) != hand then 1 else 0)
    }

    ghost predicate Consistent()
      reads this, Repr
    {
      Owns() && TableOk() && Written() && Cached(None)
    }

    // The write-ahead variant also never leaves the next chunk lying in the cache.
    ghost predicate Ahead()
      reads this, Repr
    {
      Consistent() && Frontier(plan, Arrived, next)
    }

    // In the middle of writing ahead: the chunk in hand is the next one.
    ghost predicate InHand(c: Chunk)
      reads this, Repr
    {
      && Owns() && TableOk() && Written() && Cached(Some(c))
      && InRange(plan, next) && c == ChunkAt(plan, next) && c in Arrived
    }

    ghost predicate Starting()
      reads this, Repr
    {
      && Owns() && Arrived == [] && next == Seqno(0, 0) && file == []
      && chunksPerAnchor.Length == INITIAL_ANCHORS
      && (forall i :: 0 <= i < chunksPerAnchor.Length ==> chunksPerAnchor[i] == 0)
      && (forall c :: cache.Count(c) == 0)
    }

    constructor (ghost plan: Plan)
      ensures Starting() && fresh(Repr) && this.plan == plan
    {
      hide ChunkCache.Consistent, ChunkCache.Valid;
      this.plan := plan;
      Arrived := [];
      chunksPerAnchor := new nat[INITIAL_ANCHORS](_ => 0);
      next := Seqno(0, 0);
      file := [];
      var empty := new ChunkCache();
      cache := empty;
      Repr := {this, empty, chunksPerAnchor} + empty.Repr;
      new;
      assert empty.Valid() && forall c :: empty.Count(c) == 0;
    }

    lemma StartsAhead()
      requires Starting()
      ensures Ahead() && Arrived == [] && chunksPerAnchor.Length == INITIAL_ANCHORS
    {
    }

    method GrowTable()
      requires Owns() && TableOk()
      modifies this`chunksPerAnchor, this`Repr
      ensures Owns() && TableOk() && fresh(chunksPerAnchor) && Repr == old(Repr) + {chunksPerAnchor}
      ensures chunksPerAnchor.Length == 2 * old(chunksPerAnchor.Length)
    {
      var bigger := new nat[2 * chunksPerAnchor.Length](i requires 0 <= i reads this, chunksPerAnchor =>
        if i < chunksPerAnchor.Length then chunksPerAnchor[i] else 0);
      chunksPerAnchor := bigger;
      Repr := Repr + {bigger};
    }

    /** Enter an arrival into the table: double it once if the piece number does not fit, and
        remember the size of the piece when this is its last chunk. */
    method Register(c: Chunk) returns (overrun: bool)
      requires Owns() && TableOk() && InPlan(plan, c) && c !in Arrived
      modifies this`chunksPerAnchor, this`Arrived, this`Repr, chunksPerAnchor
      ensures fresh(Repr - old(Repr)) && old(Repr) <= Repr && Arrived == old(Arrived) + [c]
      ensures chunksPerAnchor.Length == Grown(old(chunksPerAnchor.Length), c)
      ensures overrun <==> StoreOut(c, chunksPerAnchor.Length)
      ensures !overrun ==> Owns() && TableOk()
    {
      hide ChunkCache.Consistent, ChunkCache.Valid;
      if c.sequence.l1 >= chunksPerAnchor.Length {
        GrowTable();
      }
      if c.isLast {
        if c.sequence.l1 >= chunksPerAnchor.Length {
          Arrived := Arrived + [c];
          return true;
        }
        assert chunksPerAnchor[c.sequence.l1] == 0;
        chunksPerAnchor[c.sequence.l1] := c.sequence.l2 + 1;
      }
      Arrived := Arrived + [c];
      overrun := false;
    }

    /** Append the chunk to the file and move the counter to its successor in the input: to the next
        chunk of the piece, or to the next piece once the table says this one is complete. */
    method Write(c: Chunk) returns (overrun: bool)
      requires TableOk() && InRange(plan, next) && c == ChunkAt(plan, next) && c in Arrived
      requires file == Before(plan, next)
      modifies this`file, this`next
      ensures file == old(file) + [c]
      ensures overrun <==> old(next).l1 >= chunksPerAnchor.Length
      ensures !overrun ==> next == Succ(plan, old(next)) && Normal(plan, next) && file == Before(plan, next)
    {
      BeforeSucc(plan, next);
      file := file + [c];
      next := next.IncL2();
      if next.l1 >= chunksPerAnchor.Length {
        return true;
      }
      assert chunksPerAnchor[next.l1] == Registered(next.l1);
      if chunksPerAnchor[next.l1] != 0 && next.l2 == chunksPerAnchor[next.l1] {
        next := next.IncL1();
      }
      overrun := false;
    }

    method WriteHeld(c: Chunk) returns (overrun: bool)
      requires InHand(c)
      modifies this`file, this`next
      ensures overrun <==> old(next).l1 >= chunksPerAnchor.Length
      ensures !overrun ==> Consistent() && next == Succ(plan, old(next))
    {
      BeforeSucc(plan, next);
      overrun := Write(c);
    }

    // The chunk in hand is within reach.
    lemma HandIsReached(c: Chunk)
      requires InHand(c)
      ensures Reached(plan, Arrived, next)
    {
    }

    // Where all writing has stopped, nothing within reach is left and its cells were there.
    lemma AheadIsInside()
      requires Ahead()
      ensures !LoadOut(plan, Arrived, chunksPerAnchor.Length)
    {
      forall s | Reached(plan, Arrived, s) ensures s.l1 < chunksPerAnchor.Length {
        assert s.Less(next) || s == next || next.Less(s);
      }
    }

    /** Write the chunk in hand and look whether its successor is the least one cached. */
    method WriteOne(c: Chunk) returns (chunk: Option<Chunk>, overrun: bool)
      requires InHand(c)
      modifies Repr
      ensures fresh(Repr - old(Repr)) && old(Repr) <= Repr
      ensures Arrived == old(Arrived) && chunksPerAnchor == old(chunksPerAnchor)
      ensures overrun <==> old(next).l1 >= chunksPerAnchor.Length
      ensures !overrun ==> next == Succ(plan, old(next))
      ensures if overrun then chunk.None? else if chunk.Some? then InHand(chunk.value) else Ahead()
    {
      hide ChunkCache.Consistent, ChunkCache.Valid, Before, Succ, LoadOut;
      chunk := None;
      overrun := WriteHeld(c);
      if !overrun {
        chunk := Fetch();
      }
    }

    method Fetch() returns (chunk: Option<Chunk>)
      requires Consistent()
      modifies cache.Repr, this`Repr
      ensures fresh(Repr - old(Repr)) && old(Repr) <= Repr
      ensures if chunk.Some? then InHand(chunk.value) else Ahead()
    {
      hide ChunkCache.Consistent, ChunkCache.Valid, Before, Succ;
      chunk := cache.TakeIfNext(next);
      Repr := Repr + cache.Repr;
    }

    /** Write `c`, which is next, and then as many chunks from the cache as follow it directly. */
    method WriteAhead(c: Chunk) returns (overrun: bool)
      requires InHand(c)
      modifies Repr
      ensures fresh(Repr - old(Repr)) && old(Repr) <= Repr
      ensures Arrived == old(Arrived) && chunksPerAnchor == old(chunksPerAnchor)
      ensures overrun <==> LoadOut(plan, Arrived, chunksPerAnchor.Length)
      ensures !overrun ==> Ahead()
    {
      hide ChunkCache.Consistent, ChunkCache.Valid, Before, LoadOut;
      var chunk := Some(c);
      overrun := false;
      while chunk.Some?
        invariant fresh(Repr - old(Repr)) && old(Repr) <= Repr
        invariant Arrived == old(Arrived) && chunksPerAnchor == old(chunksPerAnchor)
        invariant overrun ==> chunk.None? && LoadOut(plan, Arrived, chunksPerAnchor.Length)
        invariant !overrun ==> if chunk.Some? then InHand(chunk.value) else Ahead()
        decreases chunk.Some?, Left(plan, next).0, Left(plan, next).1
      {
        HandOutside(chunk.value);
        chunk, overrun := WriteOne(chunk.value);
      }
      if !overrun {
        AheadIsInside();
      }
    }

    lemma HandOutside(c: Chunk)
      requires InHand(c)
      ensures next.l1 >= chunksPerAnchor.Length ==> LoadOut(plan, Arrived, chunksPerAnchor.Length)
    {
      HandIsReached(c);
    }

    method Keep(c: Chunk)
      requires Owns() && TableOk() && Written() && Cached(Some(c)) && c in Arrived && !c.sequence.Less(next)
      modifies cache.Repr, this`Repr
      ensures Consistent() && fresh(Repr - old(Repr)) && old(Repr) <= Repr
    {
      hide ChunkCache.Consistent, ChunkCache.Valid, Before, Succ, LoadOut;
      cache.Add(c);
      Repr := Repr + cache.Repr;
    }

    // The chunk that has just been registered is neither in the file nor in the cache.
    lemma Fresh(before: seq<Chunk>, c: Chunk)
      requires Owns() && Written() && Arrived == before + [c] && c !in before && InPlan(plan, c)
      requires forall d :: cache.Count(d) == if d in before && !d.sequence.Less(next) then 1 else 0
      requires forall t :: InRange(plan, t) && t.Less(next) ==> ChunkAt(plan, t) in before
      ensures Cached(Some(c)) && !c.sequence.Less(next)
    {
    }

    /** An arrival. The stage looks outside its table exactly if the chunk is the last of a piece
        without a cell or a chunk of such a piece comes within reach; otherwise the file is the
        longest prefix that has arrived and the cache holds the rest. */
    method Arrive(c: Chunk) returns (overrun: bool)
      requires Ahead() && InPlan(plan, c) && c !in Arrived
      modifies Repr
      ensures fresh(Repr - old(Repr)) && Arrived == old(Arrived) + [c]
      ensures chunksPerAnchor.Length == Grown(old(chunksPerAnchor.Length), c)
      ensures overrun <==> StoreOut(c, chunksPerAnchor.Length) || LoadOut(plan, Arrived, chunksPerAnchor.Length)
      ensures !overrun ==> Ahead()
    {
      hide ChunkCache.Consistent, ChunkCache.Valid, Before, Succ, LoadOut;
      ghost var before := Arrived;
      overrun := Register(c);
      if overrun {
        return;
      }
      Fresh(before, c);
      if c.sequence != next {
        Keep(c);
        AheadIsInside();
      } else {
        overrun := WriteAhead(c);
      }
    }

    /** The variant that only caches. */
    method ArriveCached(c: Chunk) returns (overrun: bool)
      requires Consistent() && InPlan(plan, c) && c !in Arrived
      modifies Repr
      ensures fresh(Repr - old(Repr)) && Arrived == old(Arrived) + [c]
      ensures chunksPerAnchor.Length == Grown(old(chunksPerAnchor.Length), c)
      ensures overrun <==> StoreOut(c, chunksPerAnchor.Length)
      ensures !overrun ==> Consistent() && next == old(next)
    {
      hide ChunkCache.Consistent, ChunkCache.Valid, Before, Succ, LoadOut;
      ghost var before := Arrived;
      overrun := Register(c);
      if overrun {
        return;
      }
      Fresh(before, c);
      Keep(c);
    }

    method DrainOne() returns (more: bool, overrun: bool)
      requires Consistent()
      modifies Repr
      ensures fresh(Repr - old(Repr)) && old(Repr) <= Repr && Arrived == old(Arrived)
              && chunksPerAnchor == old(chunksPerAnchor)
      ensures overrun ==> LoadOut(plan, Arrived, chunksPerAnchor.Length)
      ensures !overrun && more ==> Consistent() && InRange(plan, old(next)) && next == Succ(plan, old(next))
      ensures !overrun && !more ==> Ahead() && next == old(next)
    {
      hide ChunkCache.Consistent, ChunkCache.Valid, Before, LoadOut;
      overrun := false;
      var chunk := Fetch();
      more := chunk.Some?;
      if more {
        HandOutside(chunk.value);
        overrun := WriteHeld(chunk.value);
      }
    }

    // Everything that arrived is in the file.
    ghost predicate AllWritten()
      reads this
    {
      forall c :: c in Arrived ==> c.sequence.Less(next)
    }

    method CacheEmpty() returns (b: bool)
      requires Consistent()
      ensures b <==> AllWritten()
    {
      b := cache.IsEmpty();
      if b {
        forall c | c in Arrived ensures c.sequence.Less(next) {
          assert cache.Count(c) == 0;
        }
      }
    }

    /** Write what is cached, in order, until nothing is left or the least cached chunk is not the
        next one; the latter, with something left, is the program's fatal mismatch. */
    method Drain() returns (ok: bool, overrun: bool)
      requires Consistent()
      modifies Repr
      ensures fresh(Repr - old(Repr)) && Arrived == old(Arrived) && chunksPerAnchor == old(chunksPerAnchor)
      ensures overrun <==> LoadOut(plan, Arrived, chunksPerAnchor.Length)
      ensures !overrun ==> Ahead() && (ok <==> AllWritten())
    {
      hide ChunkCache.Consistent, ChunkCache.Valid, Before, LoadOut;
      var more := true;
      ok, overrun := false, false;
      while more && !overrun
        invariant fresh(Repr - old(Repr)) && old(Repr) <= Repr
        invariant Arrived == old(Arrived) && chunksPerAnchor == old(chunksPerAnchor)
        invariant overrun ==> LoadOut(plan, Arrived, chunksPerAnchor.Length)
        invariant !overrun ==> if more then Consistent() else Ahead()
        decreases more && !overrun, Left(plan, next).0, Left(plan, next).1
      {
        more, overrun := DrainOne();
      }
      if !overrun {
        AheadIsInside();
        ok := CacheEmpty();
      }
    }
  }

  // ---------- whole runs ----------

  /** The cells of the table after some arrivals. */
  ghost function TableAfter(arrived: seq<Chunk>): (n: nat) {
    if arrived == [] then INITIAL_ANCHORS
    else Grown(TableAfter(arrived[..|arrived| - 1]), arrived[|arrived| - 1])
  }

  // The newest arrival stores outside the table.
  ghost predicate LastStoresOut(arrived: seq<Chunk>) {
    arrived != [] && StoreOut(arrived[|arrived| - 1], TableAfter(arrived))
  }

  /** Some arrival makes the write-ahead variant look outside its table: the last chunk of a piece
      without a cell, or one that brings a chunk of such a piece within reach. */
  ghost predicate AheadOverruns(plan: Plan, arrivals: seq<Chunk>) {
    exists k :: 0 <= k <= |arrivals| && OutAt(plan, arrivals[..k])
  }

  ghost predicate OutAt(plan: Plan, arrived: seq<Chunk>) {
    LastStoresOut(arrived) || LoadOut(plan, arrived, TableAfter(arrived))
  }

  /** The caching variant looks only when a last chunk arrives and, in the end, when it writes. */
  ghost predicate CachedOverruns(plan: Plan, arrivals: seq<Chunk>) {
    (exists k :: 0 <= k <= |arrivals| && LastStoresOut(arrivals[..k])) || LoadOut(plan, arrivals, TableAfter(arrivals))
  }

  lemma NextArrival(cs: seq<Chunk>, i: nat)
    requires i < |cs|
    ensures cs[..i + 1] == cs[..i] + [cs[i]]
    ensures TableAfter(cs[..i + 1]) == Grown(TableAfter(cs[..i]), cs[i])
  {
    assert cs[..i + 1][..i] == cs[..i];
  }

  lemma NoArrivals(plan: Plan)
    ensures TableAfter([]) == INITIAL_ANCHORS && !OutAt(plan, [])
  {
  }

  /** Write ahead while chunks arrive, then flush. The run stays inside its table exactly if the
      arrivals let it; then the file is the longest prefix that has arrived. */
  method RunWriteAhead(ghost plan: Plan, arrivals: seq<Chunk>)
    returns (file: seq<Chunk>, ok: bool, overrun: bool, reached: Seqno)
    requires Arrivals(plan, arrivals)
    ensures overrun <==> AheadOverruns(plan, arrivals)
    ensures !overrun ==> Frontier(plan, arrivals, reached) && file == Before(plan, reached)
    ensures !overrun ==> (ok <==> forall c :: c in arrivals ==> c.sequence.Less(reached))
  {
    hide Reorderer.Owns, Reorderer.TableOk, Reorderer.Cached, Reorderer.Starting, TableAfter, Before, LoadOut;
    var stage := new Reorderer(plan);
    stage.StartsAhead();
    NoArrivals(plan);
    for i := 0 to |arrivals|
      invariant stage.Ahead() && fresh(stage.Repr)
      invariant stage.plan == plan && stage.Arrived == arrivals[..i]
      invariant stage.chunksPerAnchor.Length == TableAfter(arrivals[..i])
      invariant forall k :: 0 <= k <= i ==> !OutAt(plan, arrivals[..k])
    {
      NextArrival(arrivals, i);
      assert arrivals[i] !in arrivals[..i] && InPlan(plan, arrivals[i]);
      overrun := stage.Arrive(arrivals[i]);
      assert arrivals[..i + 1][i] == arrivals[i];
      assert overrun <==> OutAt(plan, arrivals[..i + 1]);
      if overrun {
        return stage.file, false, true, stage.next;
      }
    }
    assert arrivals[..|arrivals|] == arrivals;
    assert !OutAt(plan, arrivals);
    ok, overrun := stage.Drain();
    file, reached := stage.file, stage.next;
  }

  /** Cache everything, then drain. */
  method RunCached(ghost plan: Plan, arrivals: seq<Chunk>)
    returns (file: seq<Chunk>, ok: bool, overrun: bool, reached: Seqno)
    requires Arrivals(plan, arrivals)
    ensures overrun <==> CachedOverruns(plan, arrivals)
    ensures !overrun ==> Frontier(plan, arrivals, reached) && file == Before(plan, reached)
    ensures !overrun ==> (ok <==> forall c :: c in arrivals ==> c.sequence.Less(reached))
  {
    hide Reorderer.Owns, Reorderer.TableOk, Reorderer.Cached, Reorderer.Starting, TableAfter, Before, LoadOut;
    var stage := new Reorderer(plan);
    stage.StartsAhead();
    NoArrivals(plan);
    for i := 0 to |arrivals|
      invariant stage.Consistent() && fresh(stage.Repr)
      invariant stage.plan == plan && stage.Arrived == arrivals[..i]
      invariant stage.chunksPerAnchor.Length == TableAfter(arrivals[..i])
      invariant forall k :: 0 <= k <= i ==> !LastStoresOut(arrivals[..k])
    {
      NextArrival(arrivals, i);
      assert arrivals[i] !in arrivals[..i] && InPlan(plan, arrivals[i]);
      overrun := stage.ArriveCached(arrivals[i]);
      assert arrivals[..i + 1][i] == arrivals[i];
      assert overrun <==> LastStoresOut(arrivals[..i + 1]);
      if overrun {
        return stage.file, false, true, stage.next;
      }
    }
    assert arrivals[..|arrivals|] == arrivals;
    ok, overrun := stage.Drain();
    file, reached := stage.file, stage.next;
  }

  // ---------- what the runs mean ----------

  /** The reference order is the strict order of sequence numbers over exactly the chunks of the plan. */
  lemma BeforeIsOrder(plan: Plan, s: Seqno)
    requires s.l1 < |plan| ==> s.l2 <= |plan[s.l1]|
    requires s.l1 < |plan| || s == End(plan)
    ensures forall c :: c in Before(plan, s) <==> InPlan(plan, c) && c.sequence.Less(s)
    ensures forall i, j :: 0 <= i < j < |Before(plan, s)| ==>
              Before(plan, s)[i].sequence.Less(Before(plan, s)[j].sequence)
  {
    BeforeHolds(plan, s);
    BeforeAscends(plan, s);
  }

  lemma {:induction false} BeforeHolds(plan: Plan, s: Seqno)
    requires s.l1 < |plan| ==> s.l2 <= |plan[s.l1]|
    requires s.l1 < |plan| || s == End(plan)
    ensures forall c :: c in Before(plan, s) <==> InPlan(plan, c) && c.sequence.Less(s)
    decreases s.l1, s.l2
  {
    if s.l2 > 0 {
      var t := Seqno(s.l1, s.l2 - 1);
      BeforeHolds(plan, t);
      forall c | InPlan(plan, c) && c.sequence.Less(s) ensures c.sequence.Less(t) || c == ChunkAt(plan, t) {
        assert c.sequence.Less(t) || c.sequence == t;
      }
    } else if s.l1 > 0 {
      BeforeHolds(plan, Seqno(s.l1 - 1, |plan[s.l1 - 1]|));
    }
  }

  ghost predicate Ascending(cs: seq<Chunk>) {
    forall i, j :: 0 <= i < j < |cs| ==> cs[i].sequence.Less(cs[j].sequence)
  }

  lemma AscendingAppend(cs: seq<Chunk>, c: Chunk)
    requires Ascending(cs) && forall d :: d in cs ==> d.sequence.Less(c.sequence)
    ensures Ascending(cs + [c])
  {
  }

  lemma {:induction false} BeforeAscends(plan: Plan, s: Seqno)
    requires s.l1 < |plan| ==> s.l2 <= |plan[s.l1]|
    requires s.l1 < |plan| || s == End(plan)
    ensures Ascending(Before(plan, s))
    decreases s.l1, s.l2
  {
    hide Ascending;
    if s.l2 > 0 {
      var t := Seqno(s.l1, s.l2 - 1);
      BeforeAscends(plan, t);
      BeforeHolds(plan, t);
      AscendingAppend(Before(plan, t), ChunkAt(plan, t));
    } else if s.l1 > 0 {
      BeforeAscends(plan, Seqno(s.l1 - 1, |plan[s.l1 - 1]|));
    } else {
      AscendingEmpty();
    }
  }

  lemma AscendingEmpty()
    ensures Ascending([])
  {
  }

  function DataOf(cs: seq<Chunk>): (data: Bytes) {
    if cs == [] then [] else DataOf(cs[..|cs| - 1]) + cs[|cs| - 1].data
  }

  function Input(plan: seq<seq<Bytes>>): (data: Bytes) {
    if plan == [] then [] else Input(plan[..|plan| - 1]) + Flat(plan[|plan| - 1])
  }

  lemma DataOfOneMore(cs: seq<Chunk>, c: Chunk)
    ensures DataOf(cs + [c]) == DataOf(cs) + c.data
  {
    assert (cs + [c])[..|cs|] == cs;
  }

  lemma InputOneMore(plan: seq<seq<Bytes>>, k: nat)
    requires k < |plan|
    ensures Input(plan[..k + 1]) == Input(plan[..k]) + Flat(plan[k])
  {
    assert plan[..k + 1][..k] == plan[..k];
  }

  // The input up to a sequence number.
  function InputBefore(plan: Plan, s: Seqno): (data: Bytes)
    requires s.l1 < |plan| ==> s.l2 <= |plan[s.l1]|
    requires s.l1 <= |plan|
  {
    Input(plan[..s.l1]) + if s.l1 < |plan| then Flat(plan[s.l1][..s.l2]) else []
  }

  lemma InputBeforeOneMore(plan: Plan, s: Seqno)
    requires InRange(plan, s)
    ensures InputBefore(plan, Seqno(s.l1, s.l2 + 1)) == InputBefore(plan, s) + plan[s.l1][s.l2]
  {
    hide Input, Flat;
    FlatUpTo(plan[s.l1], s.l2);
    var done, part := Input(plan[..s.l1]), Flat(plan[s.l1][..s.l2]);
    assert done + (part + plan[s.l1][s.l2]) == done + part + plan[s.l1][s.l2];
  }

  lemma InputBeforeNextPiece(plan: Plan, l1: nat)
    requires l1 < |plan|
    ensures InputBefore(plan, Seqno(l1 + 1, 0)) == InputBefore(plan, Seqno(l1, |plan[l1]|))
  {
    InputOneMore(plan, l1);
    assert plan[l1][..|plan[l1]|] == plan[l1];
    assert l1 + 1 < |plan| ==> plan[l1 + 1][..0] == [];
  }

  /** In that order the chunks hold the input, byte for byte. */
  lemma {:induction false} BeforeIsInput(plan: Plan, s: Seqno)
    requires s.l1 < |plan| ==> s.l2 <= |plan[s.l1]|
    requires s.l1 < |plan| || s == End(plan)
    ensures DataOf(Before(plan, s)) == InputBefore(plan, s)
    decreases s.l1, s.l2
  {
    hide DataOf, InputBefore;
    if s.l2 > 0 {
      var t := Seqno(s.l1, s.l2 - 1);
      BeforeIsInput(plan, t);
      DataOfOneMore(Before(plan, t), ChunkAt(plan, t));
      InputBeforeOneMore(plan, t);
    } else if s.l1 > 0 {
      BeforeIsInput(plan, Seqno(s.l1 - 1, |plan[s.l1 - 1]|));
      InputBeforeNextPiece(plan, s.l1 - 1);
    } else {
      NoInput(plan);
    }
  }

  lemma NoInput(plan: Plan)
    ensures InputBefore(plan, Seqno(0, 0)) == [] && DataOf([]) == []
  {
    assert |plan| > 0 ==> plan[0][..0] == [];
  }

  /** Whatever the arrival order, the write-ahead run and the caching run write the same file and
      end in the same way; for a complete set of arrivals that file is the whole input in order and
      the flush succeeds with nothing left. */
  lemma VariantsAgree(plan: Plan, arrivals: seq<Chunk>, other: seq<Chunk>, s: Seqno, t: Seqno)
    requires Arrivals(plan, arrivals) && Arrivals(plan, other) && forall c :: c in arrivals <==> c in other
    requires Frontier(plan, arrivals, s) && Frontier(plan, other, t)
    ensures Before(plan, s) == Before(plan, t)
    ensures (forall c :: c in arrivals ==> c.sequence.Less(s)) <==> (forall c :: c in other ==> c.sequence.Less(t))
    ensures Complete(plan, arrivals) ==>
              Before(plan, s) == InOrder(plan) && DataOf(Before(plan, s)) == Input(plan)
              && forall c :: c in arrivals ==> c.sequence.Less(s)
  {
    assert Frontier(plan, arrivals, t);
    FrontierUnique(plan, arrivals, s, t);
    if Complete(plan, arrivals) {
      FrontierOfComplete(plan, arrivals, s);
      BeforeIsInput(plan, End(plan));
      assert plan[..|plan|] == plan;
    }
  }

  // ---------- when the table is too small ----------

  /** What makes the caching variant look outside its table makes the other do so too. */
  lemma CachedOverrunsLess(plan: Plan, arrivals: seq<Chunk>)
    ensures CachedOverruns(plan, arrivals) ==> AheadOverruns(plan, arrivals)
  {
    assert arrivals[..|arrivals|] == arrivals;
    if k :| 0 <= k <= |arrivals| && LastStoresOut(arrivals[..k]) {
      assert OutAt(plan, arrivals[..k]);
    }
  }

  // All arrivals have their cells.
  ghost predicate Roomy(arrived: seq<Chunk>) {
    forall i :: 0 <= i < |arrived| ==> arrived[i].sequence.l1 < TableAfter(arrived)
  }

  lemma RoomyMore(arrived: seq<Chunk>, c: Chunk)
    requires Roomy(arrived) && c.sequence.l1 < 2 * TableAfter(arrived)
    ensures Roomy(arrived + [c])
  {
    assert (arrived + [c])[..|arrived|] == arrived;
  }

  lemma RoomyStaysInside(plan: Plan, arrived: seq<Chunk>)
    requires Roomy(arrived)
    ensures !OutAt(plan, arrived)
  {
    forall s | Reached(plan, arrived, s) ensures s.l1 < TableAfter(arrived) {
      assert ChunkAt(plan, s) in arrived;
    }
  }

  /** The table that doubles once per arrival: with at most twice its first size in pieces every
      arrival order stays inside. */
  lemma SmallPlansFit(plan: Plan, arrivals: seq<Chunk>)
    requires |plan| <= 2 * INITIAL_ANCHORS && Arrivals(plan, arrivals)
    ensures !AheadOverruns(plan, arrivals) && !CachedOverruns(plan, arrivals)
  {
    forall k | 0 <= k <= |arrivals| ensures !OutAt(plan, arrivals[..k]) {
      SmallIsRoomy(plan, arrivals[..k]);
      RoomyStaysInside(plan, arrivals[..k]);
    }
    CachedOverrunsLess(plan, arrivals);
  }

  lemma {:induction false} SmallIsRoomy(plan: Plan, arrived: seq<Chunk>)
    requires |plan| <= 2 * INITIAL_ANCHORS && forall i :: 0 <= i < |arrived| ==> InPlan(plan, arrived[i])
    ensures TableAfter(arrived) >= INITIAL_ANCHORS && Roomy(arrived)
  {
    if arrived != [] {
      var n := |arrived| - 1;
      SmallIsRoomy(plan, arrived[..n]);
      RoomyMore(arrived[..n], arrived[n]);
      assert arrived == arrived[..n] + [arrived[n]];
    }
  }

  // Each first-level number is at most one above some earlier one.
  ghost predicate Steady(arrivals: seq<Chunk>) {
    forall i :: 0 <= i < |arrivals| && arrivals[i].sequence.l1 > 0 ==> Follows(arrivals, i)
  }

  ghost predicate Follows(arrivals: seq<Chunk>, i: nat)
    requires i < |arrivals|
  {
    exists j :: 0 <= j < i && arrivals[j].sequence.l1 + 1 >= arrivals[i].sequence.l1
  }

  // The next of steady arrivals needs at most one doubling.
  lemma SteadyNext(arrivals: seq<Chunk>, k: nat)
    requires Steady(arrivals) && k < |arrivals| && Roomy(arrivals[..k]) && TableAfter(arrivals[..k]) >= INITIAL_ANCHORS
    ensures arrivals[k].sequence.l1 < 2 * TableAfter(arrivals[..k])
  {
    hide TableAfter;
    if arrivals[k].sequence.l1 > 0 {
      assert Follows(arrivals, k);
      var j :| 0 <= j < k && arrivals[j].sequence.l1 + 1 >= arrivals[k].sequence.l1;
      assert arrivals[..k][j] == arrivals[j];
    }
  }

  /** Steady arrivals need no more than the doubling, for any number of pieces; the order of the input
      is such. */
  lemma {:induction false} SteadyArrivalsFit(plan: Plan, arrivals: seq<Chunk>, k: nat)
    requires k <= |arrivals| && Steady(arrivals)
    ensures TableAfter(arrivals[..k]) >= INITIAL_ANCHORS && Roomy(arrivals[..k]) && !OutAt(plan, arrivals[..k])
  {
    hide Steady, Roomy, OutAt, TableAfter;
    if k == 0 {
      NoArrivals(plan);
      RoomyEmpty();
      assert arrivals[..0] == [];
    } else {
      SteadyArrivalsFit(plan, arrivals, k - 1);
      SteadyNext(arrivals, k - 1);
      RoomyMore(arrivals[..k - 1], arrivals[k - 1]);
      NextArrival(arrivals, k - 1);
    }
    RoomyStaysInside(plan, arrivals[..k]);
  }

  lemma RoomyEmpty()
    ensures Roomy([])
  {
  }

  /** Neither variant looks outside its table when the chunks arrive in the order of the input. */
  lemma InputOrderFits(plan: Plan)
    ensures !AheadOverruns(plan, InOrder(plan)) && !CachedOverruns(plan, InOrder(plan))
  {
    var cs := InOrder(plan);
    BeforeIsOrder(plan, End(plan));
    forall i | 0 <= i < |cs| && cs[i].sequence.l1 > 0 ensures Follows(cs, i) {
      var j := EarlierInOrder(plan, i, Seqno(cs[i].sequence.l1 - 1, 0));
    }
    forall k | 0 <= k <= |cs| ensures !OutAt(plan, cs[..k]) {
      SteadyArrivalsFit(plan, cs, k);
    }
    CachedOverrunsLess(plan, cs);
  }

  lemma EarlierInOrder(plan: Plan, i: nat, s: Seqno) returns (j: nat)
    requires i < |InOrder(plan)| && InRange(plan, s) && s.Less(InOrder(plan)[i].sequence)
    ensures j < i && InOrder(plan)[j] == ChunkAt(plan, s)
  {
    var cs := InOrder(plan);
    BeforeIsOrder(plan, End(plan));
    assert ChunkAt(plan, s) in cs;
    j :| 0 <= j < |cs| && cs[j] == ChunkAt(plan, s);
  }

  /** With one piece more there is a complete arrival order for which both variants look outside the
      table: the last chunk of that piece comes first. */
  lemma LargePlansMayOverrun(plan: Plan) returns (arrivals: seq<Chunk>)
    requires |plan| > 2 * INITIAL_ANCHORS
    ensures Arrivals(plan, arrivals) && Complete(plan, arrivals)
    ensures AheadOverruns(plan, arrivals) && CachedOverruns(plan, arrivals)
  {
    var l1 := 2 * INITIAL_ANCHORS;
    var k;
    arrivals, k := StartingWith(plan, Seqno(l1, |plan[l1]| - 1));
    NoArrivals(plan);
    NextArrival(arrivals, 0);
    assert arrivals[..0] == [] && arrivals[..1][0] == arrivals[0];
    assert LastStoresOut(arrivals[..1]);
    CachedOverrunsLess(plan, arrivals);
  }

  /** The variants differ. When a chunk of piece 2048 that is not its last comes first and the rest in
      order, the write-ahead variant gets to write that chunk before the table has its cell, and the
      caching variant never looks outside. */
  lemma VariantsDiffer(plan: Plan) returns (arrivals: seq<Chunk>)
    requires |plan| > 2 * INITIAL_ANCHORS && |plan[2 * INITIAL_ANCHORS]| > 1
    ensures Arrivals(plan, arrivals) && Complete(plan, arrivals)
    ensures AheadOverruns(plan, arrivals) && !CachedOverruns(plan, arrivals)
  {
    var k;
    arrivals, k := StartingWith(plan, Seqno(2 * INITIAL_ANCHORS, 0));
    hide OutAt, CachedOverruns;
    FirstPiecesArrive(plan, arrivals, k, k + 1);
    LoadIsOut(plan, arrivals[..k + 1]);
    CachedStaysInside(plan, arrivals, k);
  }

  lemma LoadIsOut(plan: Plan, arrived: seq<Chunk>)
    requires LoadOut(plan, arrived, TableAfter(arrived))
    ensures OutAt(plan, arrived)
  {
  }

  lemma CachedStaysInside(plan: Plan, arrivals: seq<Chunk>, k: nat)
    requires FarFirst(plan, arrivals, k) && Complete(plan, arrivals)
    ensures !CachedOverruns(plan, arrivals)
  {
    hide TableAfter, FarFirst;
    FarFirstIsFirst(plan, arrivals, k);
    forall j | 0 <= j <= |arrivals| ensures !LastStoresOut(arrivals[..j]) {
      if j > 0 {
        RoomyButFirst(plan, arrivals, k, j);
        assert arrivals[..j][j - 1] == arrivals[j - 1];
      }
    }
    assert arrivals[..|arrivals|] == arrivals;
    RoomyButFirst(plan, arrivals, k, |arrivals|);
    assert ChunkAt(plan, Seqno(2 * INITIAL_ANCHORS, 1)) in arrivals;
    forall s | Reached(plan, arrivals, s) ensures s.l1 < TableAfter(arrivals) {
      assert ChunkAt(plan, s) in arrivals;
    }
  }

  lemma FarFirstIsFirst(plan: Plan, arrivals: seq<Chunk>, k: nat)
    requires FarFirst(plan, arrivals, k)
    ensures |arrivals| > 0 && InRange(plan, Seqno(2 * INITIAL_ANCHORS, 1))
    ensures arrivals[0] == ChunkAt(plan, Seqno(2 * INITIAL_ANCHORS, 0)) && !arrivals[0].isLast
  {
  }

  // Chunk (2048, 0) came first, and then all before it in order.
  ghost predicate FarFirst(plan: Plan, arrivals: seq<Chunk>, k: nat) {
    var cs := InOrder(plan);
    && |plan| > 2 * INITIAL_ANCHORS && |plan[2 * INITIAL_ANCHORS]| > 1
    && k < |cs| == |arrivals| && cs[k] == ChunkAt(plan, Seqno(2 * INITIAL_ANCHORS, 0)) && Fronted(cs, k, arrivals)
  }

  lemma {:induction false} FirstPiecesArrive(plan: Plan, arrivals: seq<Chunk>, k: nat, j: nat)
    requires FarFirst(plan, arrivals, k) && 0 < j <= k + 1
    ensures TableAfter(arrivals[..j]) == 2 * INITIAL_ANCHORS
    ensures j == k + 1 ==> LoadOut(plan, arrivals[..j], 2 * INITIAL_ANCHORS)
  {
    hide LoadOut;
    NextArrival(arrivals, j - 1);
    if j == 1 {
      NoArrivals(plan);
      assert arrivals[..0] == [];
    } else {
      BeforeIsOrder(plan, End(plan));
      FirstPiecesArrive(plan, arrivals, k, j - 1);
      assert arrivals[j - 1] == InOrder(plan)[j - 2];
    }
    if j == k + 1 {
      FarFirstWithinReach(plan, arrivals, k);
    }
  }

  lemma FarFirstWithinReach(plan: Plan, arrivals: seq<Chunk>, k: nat)
    requires FarFirst(plan, arrivals, k)
    ensures LoadOut(plan, arrivals[..k + 1], 2 * INITIAL_ANCHORS)
  {
    var cs, first := InOrder(plan), Seqno(2 * INITIAL_ANCHORS, 0);
    forall t | InRange(plan, t) && (t.Less(first) || t == first) ensures ChunkAt(plan, t) in arrivals[..k + 1] {
      if t == first {
        assert arrivals[..k + 1][0] == cs[k];
      } else {
        var i := EarlierInOrder(plan, k, t);
        assert arrivals[..k + 1][i + 1] == arrivals[i + 1] == cs[i];
      }
    }
    assert Reached(plan, arrivals[..k + 1], first);
  }

  lemma {:induction false} RoomyButFirst(plan: Plan, arrivals: seq<Chunk>, k: nat, j: nat)
    requires FarFirst(plan, arrivals, k) && 0 < j <= |arrivals|
    ensures TableAfter(arrivals[..j]) >= 2 * INITIAL_ANCHORS
    ensures forall i :: 0 < i < j ==> arrivals[i].sequence.l1 < TableAfter(arrivals[..j])
  {
    hide FarFirst, TableAfter;
    NextArrival(arrivals, j - 1);
    if j == 1 {
      NoArrivals(plan);
      FarFirstIsFirst(plan, arrivals, k);
      assert arrivals[..0] == [];
    } else {
      RoomyButFirst(plan, arrivals, k, j - 1);
      NextIsNear(plan, arrivals, k, j - 1);
    }
  }

  // Later arrivals are at most one piece further than the pieces before them.
  lemma NextIsNear(plan: Plan, arrivals: seq<Chunk>, k: nat, j: nat)
    requires FarFirst(plan, arrivals, k) && 0 < j < |arrivals|
    ensures var l1 := arrivals[j].sequence.l1;
            l1 <= 2 * INITIAL_ANCHORS || exists i :: 0 < i < j && arrivals[i].sequence.l1 + 1 == l1
  {
    var cs, l1 := InOrder(plan), arrivals[j].sequence.l1;
    if l1 > 2 * INITIAL_ANCHORS {
      BeforeIsOrder(plan, End(plan));
      var at := if j <= k then j - 1 else j;
      assert cs[at] == arrivals[j] && cs[at] in cs;
      var i := EarlierInOrder(plan, at, Seqno(l1 - 1, |plan[l1 - 1]| - 1));
      hide Before;
      assert i != k;
      var i' := if i < k then i + 1 else i;
      assert arrivals[i'] == cs[i];
    }
  }

  // The order of the input with one chunk moved to the front.
  lemma StartingWith(plan: Plan, s: Seqno) returns (arrivals: seq<Chunk>, k: nat)
    requires InRange(plan, s)
    ensures Arrivals(plan, arrivals) && Complete(plan, arrivals)
    ensures var cs := InOrder(plan); k < |cs| == |arrivals| && cs[k] == ChunkAt(plan, s) && Fronted(cs, k, arrivals)
  {
    var cs := InOrder(plan);
    BeforeIsOrder(plan, End(plan));
    assert ChunkAt(plan, s) in cs;
    k :| 0 <= k < |cs| && cs[k] == ChunkAt(plan, s);
    arrivals := MovedToFront(cs, k);
  }

  predicate Fronted(cs: seq<Chunk>, k: nat, r: seq<Chunk>)
    requires k < |cs| == |r|
  {
    forall i :: 0 <= i < |cs| ==> r[i] == cs[if i == 0 then k else if i <= k then i - 1 else i]
  }

  lemma MovedToFront(cs: seq<Chunk>, k: nat) returns (r: seq<Chunk>)
    requires k < |cs| && forall i, j :: 0 <= i < j < |cs| ==> cs[i] != cs[j]
    ensures |r| == |cs| && Fronted(cs, k, r) && forall i, j :: 0 <= i < j < |r| ==> r[i] != r[j]
    ensures forall c :: c in r <==> c in cs
  {
    r := seq(|cs|, i requires 0 <= i < |cs| => cs[if i == 0 then k else if i <= k then i - 1 else i]);
    forall c | c in cs ensures c in r {
      var j :| 0 <= j < |cs| && cs[j] == c;
      assert r[if j == k then 0 else if j < k then j + 1 else j] == c;
    }
  }
}
