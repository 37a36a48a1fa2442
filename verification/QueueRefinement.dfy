/** The calls on rings and master are the steps of the protocol: what the arrays stand for before and
    after a call is what the abstract state says before and after the event. */
module QueueRefinement {
  import opened Wrappers
  import opened Rings
  import BatchedQueue
  import opened QueueProtocol

  function Values<T>(es: seq<Entry<T>>): (xs: seq<T>)
    ensures |xs| == |es|
  {
    seq(|es|, i requires 0 <= i < |es| => es[i].value)
  }

  // The master object holds the shared part of the state.
  ghost predicate ShowsShared<T(0)>(m: BatchedQueue.Master<T>, s: State<T>)
    reads m, m.buf, m.buf.data
  {
    && m.Valid() && m.buf.Step() == s.capacity && m.buf.Contents == Values(s.shared) && m.terminated == s.terminated
    && m.producers == |s.producers| && m.consumers == |s.consumers| && m.fastOneConsumer == s.fastOneConsumer
  }

  ghost predicate ShowsProducer<T(0)>(q: Ring<T>, a: Producer<T>)
    reads q, q.data
  {
    q.Valid() && q.Step() == a.step && q.Contents == a.local
  }

  ghost predicate ShowsConsumer<T(0)>(q: Ring<T>, a: Consumer<T>)
    reads q, q.data
  {
    q.Valid() && q.Step() == a.step && q.Contents == Values(a.local)
  }

  lemma ValuesOfEnqueue<T>(shared: seq<Entry<T>>, p: nat, xs: seq<T>)
    ensures Values(shared + Tag(p, xs)) == Values(shared) + xs
  {
  }

  lemma ValuesOfSplit<T>(es: seq<Entry<T>>, fs: seq<Entry<T>>, k: nat)
    requires k <= |fs|
    ensures Values(es + fs[..k]) == Values(es) + Values(fs)[..k] && Values(fs[k..]) == Values(fs)[k..]
  {
  }

  // ---------- producers ----------

  /** A producer's critical section, entered with room in the shared ring, is the enqueue step. */
  method EnqueueStep<T(0)>(m: BatchedQueue.Master<T>, q: Ring<T>, force: bool, ghost s: State<T>, ghost p: nat)
    requires Enabled(s, EnterEnqueue(p)) && |s.shared| < s.capacity
    requires ShowsShared(m, s) && ShowsProducer(q, s.producers[p]) && q != m.buf && q.data != m.buf.data
    requires force <==> s.producers[p].pc.mode.Force?
    modifies m.buf, m.buf.data, q
    ensures var t := Apply(s, EnterEnqueue(p)); ShowsShared(m, t) && ShowsProducer(q, t.producers[p])
  {
    hide Unroll, Values, BatchSize;
    var moved := m.Enqueue(q, if force then q.elements else q.size - 1);
    ValuesOfEnqueue(s.shared, p, s.producers[p].local[..moved]);
  }

  /** The local half of a push is the push step. */
  method PushStep<T(0)>(q: Ring<T>, x: T, ghost s: State<T>, ghost p: nat)
    requires Enabled(s, Push(p, x)) && ShowsProducer(q, s.producers[p])
    modifies q, q.data
    ensures ShowsProducer(q, Apply(s, Push(p, x)).producers[p])
  {
    var stored := q.Push(x);
  }

  /** A pending resize request, tried. */
  method ReconfigureStep<T(0)>(q: Ring<T>, request: Option<nat>, ghost s: State<T>, ghost p: nat)
    returns (pending: Option<nat>)
    requires Enabled(s, ReconfigureProducer(p)) && ShowsProducer(q, s.producers[p]) && request == s.producers[p].request
    requires request.Some? ==> request.value + 1 <= q.data.Length
    modifies q, q.data
    ensures var a := Apply(s, ReconfigureProducer(p)).producers[p]; ShowsProducer(q, a) && pending == a.request
    ensures var refused := request.Some? && request.value < old(q.Step()) && |old(q.Contents)| >= request.value;
            && pending == (if refused then request else None)
            && q.Step() == if request.None? || refused then old(q.Step()) else request.value
  {
    pending := request;
    if request.Some? {
      var done := q.Resize(request.value);
      if done {
        pending := None;
      }
    }
  }

  /** A producer counts down once. */
  method CountDownStep<T(0)>(m: BatchedQueue.Master<T>, ghost s: State<T>, ghost p: nat)
    requires Enabled(s, CountDown(p)) && ShowsShared(m, s) && !s.AllTerminated()
    modifies m`terminated
    ensures ShowsShared(m, Apply(s, CountDown(p)))
  {
    m.Terminate();
  }

  // ---------- consumers ----------

  /** A consumer's critical section, entered with something in the shared ring or at the end, is the
      dequeue step; it answers -1 exactly when that step ends the consumer. */
  method DequeueStep<T(0)>(m: BatchedQueue.Master<T>, q: Ring<T>, ghost s: State<T>, ghost c: nat) returns (moved: int)
    requires Enabled(s, EnterDequeue(c)) && (s.shared != [] || s.AllTerminated())
    requires ShowsShared(m, s) && ShowsConsumer(q, s.consumers[c]) && q != m.buf && q.data != m.buf.data
    requires s.consumers[c].ended ==> s.shared == []
    modifies m.buf, q, q.data
    ensures var t := Apply(s, EnterDequeue(c));
            ShowsShared(m, t) && ShowsConsumer(q, t.consumers[c]) && (moved < 0 <==> t.consumers[c].ended)
  {
    hide Unroll, BatchSize;
    moved := m.Dequeue(q, q.size - 1);
    if moved >= 0 {
      ValuesOfSplit(s.consumers[c].local, s.shared, moved);
    }
  }

  /** The local half of a pop: a pending resize request, then the oldest element. */
  method FinishPopStep<T(0)>(q: Ring<T>, request: Option<nat>, ghost s: State<T>, ghost c: nat)
    returns (x: Option<T>, pending: Option<nat>)
    requires Enabled(s, FinishPop(c)) && ShowsConsumer(q, s.consumers[c]) && request == s.consumers[c].request
    requires request.Some? ==> request.value + 1 <= q.data.Length
    modifies q, q.data
    ensures var a := Apply(s, FinishPop(c)).consumers[c]; ShowsConsumer(q, a) && pending == a.request
    ensures var refused := request.Some? && request.value < old(q.Step()) && |old(q.Contents)| >= request.value;
            && pending == (if refused then request else None)
            && q.Step() == if request.None? || refused then old(q.Step()) else request.value
    ensures x.None? <==> s.consumers[c].local == []
    ensures x.Some? ==> var first := s.consumers[c].local[0];
                        x.value == first.value
                        && Apply(s, FinishPop(c)).consumers[c].popped == s.consumers[c].popped + [first]
  {
    pending := request;
    if request.Some? {
      var done := q.Resize(request.value);
      if done {
        pending := None;
      }
    }
    x := q.Pop();
  }
}
