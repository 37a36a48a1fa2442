/** The master of the batched queue and the per-thread operations on it, one call at a time.
    A blocking wait is represented by the condition under which it ends; how calls of several
    threads interleave is the subject of `QueueProtocol`. */
module BatchedQueue {
  import opened Wrappers
  import opened Rings

  // One element from a ring that holds one to a ring that has room.
  method MoveOne<T(0)>(from: Ring<T>, to: Ring<T>)
    requires from.Valid() && to.Valid() && from != to && from.data != to.data
    requires from.Contents != [] && |to.Contents| < to.Step()
    modifies from, to, to.data
    ensures from.Valid() && to.Valid() && from.data == old(from.data) && to.data == old(to.data)
    ensures from.size == old(from.size) && to.size == old(to.size)
    ensures from.Contents == old(from.Contents)[1..] && to.Contents == old(to.Contents) + [old(from.Contents)[0]]
  {
    var x := from.Pop();
    var ok := to.Push(x.value);
  }

  class Master<T(0)> {
    var buf: Ring<T>
    var producers: nat
    var consumers: nat
    var terminated: nat
    const fastOneConsumer: bool

    ghost predicate Valid()
      reads this, buf, buf.data
    {
      buf.Valid() && buf.Step() >= 1 && terminated <= producers
    }

    constructor (capacity: nat, producers: nat, consumers: nat, fastOneConsumer: bool)
      requires capacity >= 1
      ensures Valid() && fresh(buf) && fresh(buf.data)
      ensures buf.Contents == [] && buf.Step() == capacity
      ensures terminated == 0 && this.producers == producers && this.consumers == consumers
      ensures this.fastOneConsumer == fastOneConsumer
    {
      buf := new Ring<T>.Shared(capacity);
      this.producers, this.consumers, this.terminated := producers, consumers, 0;
      this.fastOneConsumer := fastOneConsumer;
    }

    predicate AllTerminated()
      reads this
    {
      producers == terminated
    }

    /** The critical section of an enqueue, entered once the shared ring is not full: the oldest
        local elements move, in order, to the end of the shared ring. */
    method Enqueue(q: Ring<T>, limit: nat) returns (moved: nat)
      requires Valid() && q.Valid() && q != buf && q.data != buf.data
      requires |buf.Contents| < buf.Step()
      modifies buf, buf.data, q
      ensures Valid() && q.Valid() && buf.data == old(buf.data) && q.data == old(q.data)
      ensures buf.size == old(buf.size) && q.size == old(q.size)
      ensures moved == BatchSize(limit, buf.Step() - |old(buf.Contents)|, |old(q.Contents)|)
      ensures moved <= limit && moved <= |old(q.Contents)|
      ensures moved == limit || q.Contents == [] || |buf.Contents| == buf.Step()
      ensures buf.Contents == old(buf.Contents) + old(q.Contents)[..moved]
      ensures q.Contents == old(q.Contents)[moved..]
    {
      moved := 0;
      ghost var shared, mine := buf.Contents, q.Contents;
      var full := buf.Full();
      var empty := q.Empty();
      while moved < limit && !full && !empty
        invariant Valid() && q.Valid() && buf.data == old(buf.data) && q.data == old(q.data)
        invariant buf.size == old(buf.size) && q.size == old(q.size)
        invariant moved <= limit && moved <= |mine| && |shared| + moved <= buf.Step()
        invariant buf.Contents == shared + mine[..moved]
        invariant q.Contents == mine[moved..]
        invariant full <==> |buf.Contents| == buf.Step()
        invariant empty <==> q.Contents == []
        decreases limit - moved
      {
        OneMore(shared, mine, moved);
        MoveOne(q, buf);
        moved := moved + 1;
        full := buf.Full();
        empty := q.Empty();
      }
    }

    /** The critical section of a dequeue, entered once the shared ring holds something or all
        producers are done; -1 says that nothing is left and nothing will come. */
    method Dequeue(q: Ring<T>, limit: nat) returns (moved: int)
      requires Valid() && q.Valid() && q != buf && q.data != buf.data
      requires buf.Contents != [] || AllTerminated()
      modifies buf, q, q.data
      ensures Valid() && q.Valid() && buf.data == old(buf.data) && q.data == old(q.data)
      ensures buf.size == old(buf.size) && q.size == old(q.size)
      ensures moved < 0 <==> old(buf.Contents) == []
      ensures moved < 0 ==> buf.Contents == [] && q.Contents == old(q.Contents)
      ensures moved >= 0 ==> buf.Contents == [] || |q.Contents| == q.Step()
                             || (moved == limit && !(fastOneConsumer && consumers == 1))
      ensures moved <= limit || (fastOneConsumer && consumers == 1)
      ensures moved >= 0 ==>
        && moved == BatchSize(if fastOneConsumer && consumers == 1 then |old(buf.Contents)| else limit,
                              q.Step() - |old(q.Contents)|, |old(buf.Contents)|)
        && q.Contents == old(q.Contents) + old(buf.Contents)[..moved]
        && buf.Contents == old(buf.Contents)[moved..]
    {
      var empty := buf.Empty();
      if empty {
        return -1;
      }
      moved := 0;
      ghost var shared, mine := buf.Contents, q.Contents;
      var full := q.Full();
      while (moved < limit || (fastOneConsumer && consumers == 1)) && !empty && !full
        invariant Valid() && q.Valid() && buf.data == old(buf.data) && q.data == old(q.data)
        invariant buf.size == old(buf.size) && q.size == old(q.size)
        invariant 0 <= moved <= |shared| && |mine| + moved <= q.Step()
        invariant (fastOneConsumer && consumers == 1) || moved <= limit
        invariant buf.Contents == shared[moved..]
        invariant q.Contents == mine + shared[..moved]
        invariant full <==> |q.Contents| == q.Step()
        invariant empty <==> buf.Contents == []
        decreases |shared| - moved
      {
        OneMore(mine, shared, moved);
        MoveOne(buf, q);
        moved := moved + 1;
        full := q.Full();
        empty := buf.Empty();
      }
    }

    /** A producer counts down once. */
    method Terminate()
      requires Valid() && !AllTerminated()
      modifies this`terminated
      ensures Valid() && terminated == old(terminated) + 1
    {
      terminated := terminated + 1;
    }
  }

  lemma OneMore<T>(to: seq<T>, from: seq<T>, k: nat)
    requires k < |from|
    ensures to + from[..k] + [from[k..][0]] == to + from[..k + 1]
    ensures from[k..][1..] == from[k + 1..]
  {
    assert from[..k] + [from[k]] == from[..k + 1];
  }

  lemma Regroup<T>(a: seq<T>, b: seq<T>, k: nat)
    requires k <= |b|
    ensures (a + b[..k]) + b[k..] == a + b
  {
  }

  /** `push` of a producer: store locally, hand a full ring over, then honour a pending resize
      request. The ring is never full on entry, so the result of the local push need not be
      looked at, and it is not full on exit either. */
  method Push<T(0)>(m: Master<T>, q: Ring<T>, x: T, request: Option<nat>) returns (done: bool)
    requires m.Valid() && q.Valid() && q != m.buf && q.data != m.buf.data
    requires request.Some? ==> request.value + 1 <= q.data.Length
    requires |q.Contents| < q.Step()
    requires |q.Contents| + 1 == q.Step() ==> |m.buf.Contents| < m.buf.Step()
    modifies m.buf, m.buf.data, q, q.data
    ensures m.Valid() && q.Valid() && m.buf.data == old(m.buf.data) && q.data == old(q.data)
    ensures |q.Contents| < q.Step()
    ensures m.buf.Contents + q.Contents == old(m.buf.Contents) + old(q.Contents) + [x]
    ensures m.buf.size == old(m.buf.size) && |m.buf.Contents| >= |old(m.buf.Contents)|
    ensures |old(q.Contents)| + 1 < old(q.Step()) ==> m.buf.Contents == old(m.buf.Contents)
    ensures |old(q.Contents)| + 1 == old(q.Step()) ==> q.Contents == [] || |m.buf.Contents| == m.buf.Step()
    ensures request.Some? ==>
      q.Step() == StepAfter(old(q.Step()), |q.Contents|, request.value) && (done <==> q.Step() == request.value)
    ensures request.None? ==> q.Step() == old(q.Step()) && !done
  {
    ghost var shared, mine := m.buf.Contents, q.Contents;
    var stored := q.Push(x);
    assert m.buf.Contents == shared && q.Contents == mine + [x];
    assert shared + (mine + [x]) == shared + mine + [x];
    var full := q.Full();
    if full {
      var moved := m.Enqueue(q, q.size - 1);
      Regroup(shared, mine + [x], moved);
    }
    done := false;
    if request.Some? {
      done := q.Resize(request.value);
    }
  }

  /** `pop` of a consumer: refill an empty local ring, honour a pending resize request, then take
      the oldest element. It answers none exactly when this call found the local ring and the
      shared ring empty, which its guard lets happen only when all producers are done. */
  method Pop<T(0)>(m: Master<T>, q: Ring<T>, request: Option<nat>) returns (x: Option<T>)
    requires m.Valid() && q.Valid() && q != m.buf && q.data != m.buf.data
    requires request.Some? ==> request.value + 1 <= q.data.Length
    requires q.Step() >= 1
    requires q.Contents == [] ==> m.buf.Contents != [] || m.AllTerminated()
    modifies m.buf, q, q.data
    ensures m.Valid() && q.Valid() && m.buf.data == old(m.buf.data) && q.data == old(q.data)
    ensures q.Step() >= 1 && m.buf.size == old(m.buf.size)
    ensures x.None? <==> old(q.Contents) == [] && old(m.buf.Contents) == []
    ensures x.None? ==> m.AllTerminated() && q.Contents == [] && m.buf.Contents == []
    ensures x.Some? ==> [x.value] + q.Contents + m.buf.Contents == old(q.Contents) + old(m.buf.Contents)
    ensures old(q.Contents) != [] ==> m.buf.Contents == old(m.buf.Contents)
    ensures old(q.Contents) == [] && x.Some? ==> m.buf.Contents == [] || |q.Contents| + 1 == old(q.Step())
    ensures q.Step() == if x.Some? && request.Some? then StepAfter(old(q.Step()), |q.Contents| + 1, request.value)
                        else old(q.Step())
  {
    hide Unroll;
    ghost var shared, mine := m.buf.Contents, q.Contents;
    var empty := q.Empty();
    if empty {
      var moved := m.Dequeue(q, q.size - 1);
      if moved < 0 {
        return None;
      }
      Regroup(mine, shared, moved);
    }
    ghost var refilled := q.Contents;
    if request.Some? {
      var done := q.Resize(request.value);
    }
    assert refilled == [refilled[0]] + refilled[1..];
    assert refilled + m.buf.Contents == mine + shared;
    x := q.Pop();
    assert [x.value] + q.Contents == refilled;
  }

  /** `force_push`: whatever is stored locally goes over now, as far as it fits. */
  method ForcePush<T(0)>(m: Master<T>, q: Ring<T>)
    requires m.Valid() && q.Valid() && q != m.buf && q.data != m.buf.data
    requires q.Contents != [] ==> |m.buf.Contents| < m.buf.Step()
    modifies m.buf, m.buf.data, q
    ensures m.Valid() && q.Valid() && m.buf.data == old(m.buf.data) && q.data == old(q.data)
    ensures m.buf.size == old(m.buf.size) && q.size == old(q.size)
    ensures m.buf.Contents + q.Contents == old(m.buf.Contents) + old(q.Contents)
    ensures q.Contents == [] || |m.buf.Contents| == m.buf.Step()
  {
    ghost var shared, mine := m.buf.Contents, q.Contents;
    var empty := q.Empty();
    if !empty {
      var moved := m.Enqueue(q, q.elements);
      Regroup(shared, mine, moved);
    }
  }

  /** `cross_pop` of a consumer that is also the producer of another queue: when it does not get the
      lock in time it forces its own output over, so that nobody waits for what it holds, and reports
      that it has no answer; otherwise it pops. */
  method CrossPop<T(0), U(0)>(m: Master<T>, q: Ring<T>, request: Option<nat>, timedOut: bool, cross: Master<U>,
                              out: Ring<U>)
    returns (x: Option<T>, answered: bool)
    requires m.Valid() && q.Valid() && q != m.buf && q.data != m.buf.data && q.Step() >= 1
    requires cross.Valid() && out.Valid() && out != cross.buf && out.data != cross.buf.data
    requires {m.buf, q, m.buf.data, q.data} !! {cross.buf, out, cross.buf.data, out.data}
    requires request.Some? ==> request.value + 1 <= q.data.Length
    requires !timedOut && q.Contents == [] ==> m.buf.Contents != [] || m.AllTerminated()
    requires timedOut && out.Contents != [] ==> |cross.buf.Contents| < cross.buf.Step()
    modifies m.buf, q, q.data, cross.buf, cross.buf.data, out
    ensures m.Valid() && q.Valid() && cross.Valid() && out.Valid()
    ensures !answered <==> timedOut && old(q.Contents) == []
    ensures !answered ==> x.None? && q.Contents == old(q.Contents) && m.buf.Contents == old(m.buf.Contents)
                          && cross.buf.Contents + out.Contents == old(cross.buf.Contents) + old(out.Contents)
                          && (out.Contents == [] || |cross.buf.Contents| == cross.buf.Step())
    ensures answered ==> out.Contents == old(out.Contents) && cross.buf.Contents == old(cross.buf.Contents)
    ensures answered && x.None? ==> m.AllTerminated() && q.Contents == [] && m.buf.Contents == []
    ensures x.Some? ==> [x.value] + q.Contents + m.buf.Contents == old(q.Contents) + old(m.buf.Contents)
    ensures old(q.Contents) == [] && x.Some? ==> m.buf.Contents == [] || |q.Contents| + 1 == old(q.Step())
    ensures q.Step() == if x.Some? && request.Some? then StepAfter(old(q.Step()), |q.Contents| + 1, request.value)
                        else old(q.Step())
  {
    hide BatchSize, Unroll;
    ghost var mine, shared := q.Contents, m.buf.Contents;
    var empty := q.Empty();
    if empty {
      if timedOut {
        ForcePush(cross, out);
        return None, false;
      }
      var moved := m.Dequeue(q, q.size - 1);
      if moved < 0 {
        return None, true;
      }
      Regroup(mine, shared, moved);
    }
    x := Pop(m, q, request);
    answered := true;
  }
}
