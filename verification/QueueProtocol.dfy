/** The batched queue as a system of interleaved steps: any number of producers and consumers,
    one lock, two condition variables, and resize requests that may arrive at any time.
    A critical section is one step; a thread that waits is taken off its condition variable by
    a notification or by a spurious wake-up and then competes for the lock again.
    Ghost logs record what entered and what left the shared ring, and in which order. */
module QueueProtocol {
  import opened Wrappers
  import opened Rings

  // ---------- state ----------

  datatype Entry<T> = Entry(producer: nat, value: T)

  datatype Taken<T> = Taken(consumer: nat, entry: Entry<T>)

  // Why a producer asks for the lock: its local ring is full, a consumer of another queue timed
  // out and forces it, or the producer is terminating.
  datatype Mode = Flush | Force | Drain

  datatype ProducerPc =
    | PReady
    | PLocking(mode: Mode)
    | PWaiting(mode: Mode)
    | PReconfiguring
    | PCountingDown
    | PDone

  datatype ConsumerPc = CIdle | CLocking | CWaiting | CPopping

  datatype Producer<T> = Producer(pc: ProducerPc, local: seq<T>, step: nat, request: Option<nat>, pushed: seq<T>)

  datatype Consumer<T> = Consumer(pc: ConsumerPc, local: seq<Entry<T>>, step: nat, request: Option<nat>,
                                  popped: seq<Entry<T>>, ended: bool)

  datatype State<T> = State(
    capacity: nat,
    fastOneConsumer: bool,
    shared: seq<Entry<T>>,
    terminated: nat,
    producers: seq<Producer<T>>,
    consumers: seq<Consumer<T>>,
    enqueued: seq<Entry<T>>,
    dequeued: seq<Taken<T>>)
  {
    predicate AllTerminated() {
      |producers| == terminated
    }
  }

  predicate Init<T>(s: State<T>) {
    && s.capacity >= 1 && s.shared == [] && s.terminated == 0 && s.enqueued == [] && s.dequeued == []
    && (forall p :: 0 <= p < |s.producers| ==>
      var q := s.producers[p]; q.pc == PReady && q.local == [] && q.step >= 1 && q.pushed == [])
    && (forall c :: 0 <= c < |s.consumers| ==>
      var q := s.consumers[c]; q.pc == CIdle && q.local == [] && q.step >= 1 && q.popped == [] && !q.ended)
  }

  // ---------- steps ----------

  datatype Event<T> =
    | Push(p: nat, value: T)
    | ForcePush(p: nat)
    | Terminate(p: nat)
    | EnterEnqueue(p: nat)
    | WakeProducer(p: nat)
    | ReconfigureProducer(p: nat)
    | CountDown(p: nat)
    | RequestProducer(p: nat, wanted: nat)
    | StartPop(c: nat)
    | EnterDequeue(c: nat)
    | WakeConsumer(c: nat)
    | TimeOut(c: nat)
    | FinishPop(c: nat)
    | RequestConsumer(c: nat, wanted: nat)

  predicate ProducerEvent<T>(e: Event<T>) {
    || e.Push? || e.ForcePush? || e.Terminate? || e.EnterEnqueue? || e.WakeProducer?
    || e.ReconfigureProducer? || e.CountDown? || e.RequestProducer?
  }

  predicate Enabled<T>(s: State<T>, e: Event<T>) {
    if ProducerEvent(e) then
      && e.p < |s.producers|
      && var q := s.producers[e.p];
         match e
         case Push(_, _) => q.pc.PReady?
         case ForcePush(_) => q.pc.PReady? && q.local != []
         case Terminate(_) => q.pc.PReady?
         case EnterEnqueue(_) => q.pc.PLocking?
         case WakeProducer(_) => q.pc.PWaiting?
         case ReconfigureProducer(_) => q.pc.PReconfiguring?
         case CountDown(_) => q.pc.PCountingDown?
         case _ => true
    else
      && e.c < |s.consumers|
      && var q := s.consumers[e.c];
         match e
         case StartPop(_) => q.pc.CIdle?
         case EnterDequeue(_) => q.pc.CLocking?
         case WakeConsumer(_) => q.pc.CWaiting?
         case TimeOut(_) => q.pc.CLocking?
         case FinishPop(_) => q.pc.CPopping?
         case _ => true
  }

  function Tag<T>(p: nat, xs: seq<T>): (es: seq<Entry<T>>)
    ensures |es| == |xs|
  {
    seq(|xs|, i requires 0 <= i < |xs| => Entry(p, xs[i]))
  }

  function TakeBy<T>(c: nat, es: seq<Entry<T>>): (ts: seq<Taken<T>>)
    ensures |ts| == |es|
  {
    seq(|es|, i requires 0 <= i < |es| => Taken(c, es[i]))
  }

  function WokenProducers<T>(ps: seq<Producer<T>>): (r: seq<Producer<T>>)
    ensures |r| == |ps|
  {
    seq(|ps|, i requires 0 <= i < |ps| =>
      if ps[i].pc.PWaiting? then ps[i].(pc := PLocking(ps[i].pc.mode)) else ps[i])
  }

  function WokenConsumers<T>(cs: seq<Consumer<T>>): (r: seq<Consumer<T>>)
    ensures |r| == |cs|
  {
    seq(|cs|, i requires 0 <= i < |cs| =>
      if cs[i].pc.CWaiting? then cs[i].(pc := CLocking) else cs[i])
  }

  function SetP<T>(s: State<T>, p: nat, q: Producer<T>): State<T>
    requires p < |s.producers|
  {
    s.(producers := s.producers[p := q])
  }

  function SetC<T>(s: State<T>, c: nat, q: Consumer<T>): State<T>
    requires c < |s.consumers|
  {
    s.(consumers := s.consumers[c := q])
  }

  /** A pending request is tried; it stays pending when the resize is refused. */
  function Reconfigured(step: nat, elements: nat, request: Option<nat>): (r: (nat, Option<nat>)) {
    match request
    case None => (step, None)
    case Some(wanted) =>
      var after := StepAfter(step, elements, wanted);
      (after, if after == wanted then None else request)
  }

  function Enqueue<T>(s: State<T>, p: nat): State<T>
    requires Enabled(s, EnterEnqueue(p))
  {
    var q := s.producers[p];
    var mode := q.pc.mode;
    if |s.shared| >= s.capacity then SetP(s, p, q.(pc := PWaiting(mode)))
    else
      var moved := BatchSize(if mode.Force? then |q.local| else q.step, s.capacity - |s.shared|, |q.local|);
      var batch := Tag(p, q.local[..moved]);
      var rest := q.local[moved..];
      var pc := match mode
                case Flush => PReconfiguring
                case Force => PReady
                case Drain => if rest == [] then PCountingDown else PLocking(Drain);
      s.(shared := s.shared + batch,
         enqueued := s.enqueued + batch,
         producers := s.producers[p := q.(pc := pc, local := rest)],
         consumers := if moved > 0 then WokenConsumers(s.consumers) else s.consumers)
  }

  function Dequeue<T>(s: State<T>, c: nat): State<T>
    requires Enabled(s, EnterDequeue(c))
  {
    var q := s.consumers[c];
    if s.shared == [] then
      SetC(s, c, if s.AllTerminated() then q.(pc := CIdle, ended := true) else q.(pc := CWaiting))
    else
      var limit := if s.fastOneConsumer && |s.consumers| == 1 then |s.shared| else q.step;
      var moved := BatchSize(limit, if |q.local| < q.step then q.step - |q.local| else 0, |s.shared|);
      s.(shared := s.shared[moved..],
         dequeued := s.dequeued + TakeBy(c, s.shared[..moved]),
         consumers := s.consumers[c := q.(pc := CPopping, local := q.local + s.shared[..moved])],
         producers := if moved > 0 then WokenProducers(s.producers) else s.producers)
  }

  function Apply<T>(s: State<T>, e: Event<T>): State<T>
    requires Enabled(s, e)
  {
    match e
    case Push(p, value) =>
      var q := s.producers[p];
      // push_local refuses when the local ring is full
      var local := if |q.local| == q.step then q.local else q.local + [value];
      SetP(s, p, q.(local := local, pushed := q.pushed + [value],
                    pc := if |local| == q.step then PLocking(Flush) else PReconfiguring))
    case ForcePush(p) => SetP(s, p, s.producers[p].(pc := PLocking(Force)))
    case Terminate(p) =>
      SetP(s, p, s.producers[p].(pc := if s.producers[p].local == [] then PCountingDown else PLocking(Drain)))
    case EnterEnqueue(p) => Enqueue(s, p)
    case WakeProducer(p) => SetP(s, p, s.producers[p].(pc := PLocking(s.producers[p].pc.mode)))
    case ReconfigureProducer(p) =>
      var q := s.producers[p];
      var r := Reconfigured(q.step, |q.local|, q.request);
      SetP(s, p, q.(pc := PReady, step := r.0, request := r.1))
    case CountDown(p) =>
      var t := SetP(s, p, s.producers[p].(pc := PDone)).(terminated := s.terminated + 1);
      if t.AllTerminated() then t.(consumers := WokenConsumers(t.consumers)) else t
    case RequestProducer(p, wanted) => SetP(s, p, s.producers[p].(request := Some(wanted)))
    case StartPop(c) =>
      SetC(s, c, s.consumers[c].(pc := if s.consumers[c].local == [] then CLocking else CPopping))
    case EnterDequeue(c) => Dequeue(s, c)
    case WakeConsumer(c) => SetC(s, c, s.consumers[c].(pc := CLocking))
    case TimeOut(c) => SetC(s, c, s.consumers[c].(pc := CIdle))
    case FinishPop(c) =>
      var q := s.consumers[c];
      var r := Reconfigured(q.step, |q.local|, q.request);
      // pop_local answers none on an empty local ring
      SetC(s, c, if q.local == [] then q.(pc := CIdle, step := r.0, request := r.1, ended := true)
                 else q.(pc := CIdle, step := r.0, request := r.1,
                         local := q.local[1..], popped := q.popped + [q.local[0]]))
    case RequestConsumer(c, wanted) => SetC(s, c, s.consumers[c].(request := Some(wanted)))
  }

  ghost predicate Run<T>(s: State<T>, es: seq<Event<T>>, t: State<T>)
    decreases |es|
  {
    if es == [] then s == t
    else Enabled(s, es[0]) && Run(Apply(s, es[0]), es[1..], t)
  }

  // ---------- what every step keeps ----------

  function ByProducer<T>(log: seq<Entry<T>>, p: nat): (xs: seq<T>) {
    if log == [] then []
    else if log[0].producer == p then [log[0].value] + ByProducer(log[1..], p)
    else ByProducer(log[1..], p)
  }

  function ByConsumer<T>(log: seq<Taken<T>>, c: nat): (es: seq<Entry<T>>) {
    if log == [] then []
    else if log[0].consumer == c then [log[0].entry] + ByConsumer(log[1..], c)
    else ByConsumer(log[1..], c)
  }

  function Entries<T>(log: seq<Taken<T>>): (es: seq<Entry<T>>)
    ensures |es| == |log|
  {
    seq(|log|, i requires 0 <= i < |log| => log[i].entry)
  }

  function CountDone<T>(ps: seq<Producer<T>>): (n: nat)
    ensures n <= |ps|
  {
    if ps == [] then 0 else (if ps[0].pc.PDone? then 1 else 0) + CountDone(ps[1..])
  }

  // The local ring of a producer: never over its step, and with room for one more whenever the
  // producer is about to push.
  ghost predicate ProducerOk<T>(s: State<T>, q: Producer<T>) {
    && q.step >= 1
    && |q.local| <= q.step
    && (q.pc.PReady? || q.pc.PReconfiguring? ==> |q.local| < q.step)
    && (q.pc.PCountingDown? || q.pc.PDone? ==> q.local == [])
    && (q.pc.PLocking? || q.pc.PWaiting? ==> q.local != [])
    && (q.pc.PWaiting? ==> |s.shared| == s.capacity)
  }

  ghost predicate ConsumerOk<T>(s: State<T>, q: Consumer<T>) {
    && q.step >= 1
    && |q.local| <= q.step
    && (q.pc.CLocking? || q.pc.CWaiting? ==> q.local == [])
    && (q.pc.CPopping? ==> q.local != [])
    && (q.pc.CWaiting? ==> s.shared == [] && !s.AllTerminated())
    && (q.ended ==> s.shared == [] && s.AllTerminated() && q.local == [])
  }

  ghost predicate ProducerLogged<T>(enqueued: seq<Entry<T>>, p: nat, q: Producer<T>) {
    q.pushed == ByProducer(enqueued, p) + q.local
  }

  ghost predicate ConsumerLogged<T>(dequeued: seq<Taken<T>>, c: nat, q: Consumer<T>) {
    ByConsumer(dequeued, c) == q.popped + q.local
  }

  ghost predicate LogsOk<T>(s: State<T>) {
    && s.enqueued == Entries(s.dequeued) + s.shared
    && (forall p :: 0 <= p < |s.producers| ==> ProducerLogged(s.enqueued, p, s.producers[p]))
    && (forall c :: 0 <= c < |s.consumers| ==> ConsumerLogged(s.dequeued, c, s.consumers[c]))
    && (forall i :: 0 <= i < |s.enqueued| ==> s.enqueued[i].producer < |s.producers|)
    && (forall i :: 0 <= i < |s.dequeued| ==> s.dequeued[i].consumer < |s.consumers|)
  }

  ghost predicate ThreadsOk<T>(s: State<T>) {
    && 1 <= s.capacity && |s.shared| <= s.capacity
    && s.terminated == CountDone(s.producers)
    && (forall p :: 0 <= p < |s.producers| ==> ProducerOk(s, s.producers[p]))
    && (forall c :: 0 <= c < |s.consumers| ==> ConsumerOk(s, s.consumers[c]))
  }

  ghost predicate Inv<T>(s: State<T>) {
    ThreadsOk(s) && LogsOk(s)
  }

  lemma {:induction false} ByProducerAppend<T>(a: seq<Entry<T>>, b: seq<Entry<T>>, p: nat)
    ensures ByProducer(a + b, p) == ByProducer(a, p) + ByProducer(b, p)
  {
    if a == [] {
      assert a + b == b;
    } else {
      ByProducerAppend(a[1..], b, p);
      assert (a + b)[1..] == a[1..] + b;
    }
  }

  lemma {:induction false} ByConsumerAppend<T>(a: seq<Taken<T>>, b: seq<Taken<T>>, c: nat)
    ensures ByConsumer(a + b, c) == ByConsumer(a, c) + ByConsumer(b, c)
  {
    if a == [] {
      assert a + b == b;
    } else {
      ByConsumerAppend(a[1..], b, c);
      assert (a + b)[1..] == a[1..] + b;
    }
  }

  lemma {:induction false} ByProducerOfTag<T>(p: nat, xs: seq<T>, r: nat)
    ensures ByProducer(Tag(p, xs), r) == if r == p then xs else []
  {
    if xs != [] {
      ByProducerOfTag(p, xs[1..], r);
      assert Tag(p, xs)[1..] == Tag(p, xs[1..]);
    }
  }

  lemma {:induction false} ByConsumerOfTake<T>(c: nat, es: seq<Entry<T>>, r: nat)
    ensures ByConsumer(TakeBy(c, es), r) == if r == c then es else []
  {
    if es != [] {
      ByConsumerOfTake(c, es[1..], r);
      assert TakeBy(c, es)[1..] == TakeBy(c, es[1..]);
    }
  }

  lemma {:induction false} CountDoneUpdate<T>(ps: seq<Producer<T>>, p: nat, q: Producer<T>)
    requires p < |ps|
    ensures CountDone(ps[p := q])
            == CountDone(ps) - (if ps[p].pc.PDone? then 1 else 0) + (if q.pc.PDone? then 1 else 0)
  {
    if p == 0 {
      assert ps[p := q][1..] == ps[1..];
    } else {
      assert ps[p := q][1..] == ps[1..][p - 1 := q];
      CountDoneUpdate(ps[1..], p - 1, q);
    }
  }

  lemma {:induction false} CountDoneWoken<T>(ps: seq<Producer<T>>)
    ensures CountDone(WokenProducers(ps)) == CountDone(ps)
  {
    if ps != [] {
      CountDoneWoken(ps[1..]);
      assert WokenProducers(ps)[1..] == WokenProducers(ps[1..]);
    }
  }

  lemma {:induction false} CountDoneAll<T>(ps: seq<Producer<T>>)
    ensures CountDone(ps) == |ps| <==> forall p :: 0 <= p < |ps| ==> ps[p].pc.PDone?
  {
    if ps != [] {
      CountDoneAll(ps[1..]);
      assert forall p :: 0 < p < |ps| ==> ps[p] == ps[1..][p - 1];
      assert forall p :: 0 <= p < |ps[1..]| ==> ps[1..][p] == ps[p + 1];
    }
  }

  lemma InitInv<T>(s: State<T>)
    requires Init(s)
    ensures Inv(s)
  {
    InitCount(s.producers);
  }

  lemma {:induction false} InitCount<T>(ps: seq<Producer<T>>)
    requires forall p :: 0 <= p < |ps| ==> ps[p].pc.PReady?
    ensures CountDone(ps) == 0
  {
    if ps != [] {
      InitCount(ps[1..]);
    }
  }

  lemma EnqueueKeepsThreads<T>(s: State<T>, p: nat)
    requires Inv(s) && Enabled(s, EnterEnqueue(p))
    ensures ThreadsOk(Enqueue(s, p))
  {
    hide LogsOk, CountDone, Tag;
    var t := Enqueue(s, p);
    CountDoneUpdate(s.producers, p, t.producers[p]);
    CountDoneAll(s.producers);
    forall r | 0 <= r < |t.producers| ensures ProducerOk(t, t.producers[r]) {
      assert ProducerOk(s, s.producers[r]);
    }
    forall c | 0 <= c < |t.consumers| ensures ConsumerOk(t, t.consumers[c]) {
      assert ConsumerOk(s, s.consumers[c]);
      assert s.producers[p].pc.PLocking?;
    }
  }

  lemma LoggedAfterEnqueue<T>(enqueued: seq<Entry<T>>, p: nat, q: Producer<T>, r: nat, q': Producer<T>, moved: nat)
    requires ProducerLogged(enqueued, r, q') && moved <= |q.local| && (r == p ==> q' == q)
    ensures ProducerLogged(enqueued + Tag(p, q.local[..moved]), r,
                           if r == p then q'.(local := q.local[moved..]) else q')
  {
    ByProducerAppend(enqueued, Tag(p, q.local[..moved]), r);
    ByProducerOfTag(p, q.local[..moved], r);
    if r == p {
      assert q.local[..moved] + q.local[moved..] == q.local;
    }
  }

  lemma EnqueueKeepsLogs<T>(s: State<T>, p: nat)
    requires Inv(s) && Enabled(s, EnterEnqueue(p))
    ensures LogsOk(Enqueue(s, p))
  {
    var t := Enqueue(s, p);
    if |s.shared| < s.capacity {
      var q := s.producers[p];
      var moved := |t.shared| - |s.shared|;
      forall r: nat | r < |t.producers| ensures ProducerLogged(t.enqueued, r, t.producers[r]) {
        LoggedAfterEnqueue(s.enqueued, p, q, r, s.producers[r], moved);
      }
      forall c | 0 <= c < |t.consumers| ensures ConsumerLogged(t.dequeued, c, t.consumers[c]) {
        assert ConsumerLogged(s.dequeued, c, s.consumers[c]);
      }
      assert t.enqueued == Entries(t.dequeued) + t.shared;
    }
  }

  lemma DequeueKeepsThreads<T>(s: State<T>, c: nat)
    requires Inv(s) && Enabled(s, EnterDequeue(c))
    ensures ThreadsOk(Dequeue(s, c))
  {
    var t := Dequeue(s, c);
    CountDoneWoken(s.producers);
    forall r | 0 <= r < |t.producers| ensures ProducerOk(t, t.producers[r]) {
      assert ProducerOk(s, s.producers[r]);
    }
    forall r | 0 <= r < |t.consumers| ensures ConsumerOk(t, t.consumers[r]) {
      assert ConsumerOk(s, s.consumers[r]);
    }
  }

  lemma LoggedAfterDequeue<T>(dequeued: seq<Taken<T>>, c: nat, batch: seq<Entry<T>>, r: nat, q: Consumer<T>)
    requires ConsumerLogged(dequeued, r, q)
    ensures ConsumerLogged(dequeued + TakeBy(c, batch), r, if r == c then q.(local := q.local + batch) else q)
  {
    ByConsumerAppend(dequeued, TakeBy(c, batch), r);
    ByConsumerOfTake(c, batch, r);
  }

  lemma SharedSplit<T>(enqueued: seq<Entry<T>>, dequeued: seq<Taken<T>>, shared: seq<Entry<T>>, c: nat, moved: nat)
    requires enqueued == Entries(dequeued) + shared && moved <= |shared|
    ensures enqueued == Entries(dequeued + TakeBy(c, shared[..moved])) + shared[moved..]
  {
    assert Entries(dequeued + TakeBy(c, shared[..moved])) == Entries(dequeued) + shared[..moved];
  }

  lemma DequeueKeepsLogs<T>(s: State<T>, c: nat)
    requires Inv(s) && Enabled(s, EnterDequeue(c))
    ensures LogsOk(Dequeue(s, c))
  {
    var t := Dequeue(s, c);
    if s.shared != [] {
      var moved := |s.shared| - |t.shared|;
      var batch := s.shared[..moved];
      forall r: nat | r < |t.consumers| ensures ConsumerLogged(t.dequeued, r, t.consumers[r]) {
        LoggedAfterDequeue(s.dequeued, c, batch, r, s.consumers[r]);
      }
      forall r | 0 <= r < |t.producers| ensures ProducerLogged(t.enqueued, r, t.producers[r]) {
        assert ProducerLogged(s.enqueued, r, s.producers[r]);
      }
      SharedSplit(s.enqueued, s.dequeued, s.shared, c, moved);
    }
  }

  lemma ProducerStepKeepsInv<T>(s: State<T>, e: Event<T>)
    requires Inv(s) && Enabled(s, e) && ProducerEvent(e) && !e.EnterEnqueue? && !e.CountDown?
    ensures Inv(Apply(s, e))
  {
    hide CountDone, ByProducer, ByConsumer, Entries;
    var t := Apply(s, e);
    var q := t.producers[e.p];
    CountDoneUpdate(s.producers, e.p, q);
    assert ProducerOk(s, s.producers[e.p]) && ProducerLogged(s.enqueued, e.p, s.producers[e.p]);
    assert ProducerOk(t, q);
    assert ProducerLogged(t.enqueued, e.p, q);
    forall r | 0 <= r < |t.producers| ensures ProducerOk(t, t.producers[r]) {
      assert ProducerOk(s, s.producers[r]);
    }
    forall c | 0 <= c < |t.consumers| ensures ConsumerOk(t, t.consumers[c]) {
      assert ConsumerOk(s, s.consumers[c]);
    }
  }

  lemma CountDownKeepsInv<T>(s: State<T>, p: nat)
    requires Inv(s) && Enabled(s, CountDown(p))
    ensures Inv(Apply(s, CountDown(p)))
  {
    hide CountDone, ByProducer, ByConsumer, Entries;
    var t := Apply(s, CountDown(p));
    CountDoneUpdate(s.producers, p, t.producers[p]);
    CountDoneAll(s.producers);
    assert !s.AllTerminated() by {
      assert !s.producers[p].pc.PDone?;
    }
    forall r | 0 <= r < |t.producers| ensures ProducerOk(t, t.producers[r]) {
      assert ProducerOk(s, s.producers[r]);
    }
    forall c | 0 <= c < |t.consumers| ensures ConsumerOk(t, t.consumers[c]) {
      assert ConsumerOk(s, s.consumers[c]);
    }
  }

  lemma ConsumerStepKeepsInv<T>(s: State<T>, e: Event<T>)
    requires Inv(s) && Enabled(s, e) && !ProducerEvent(e) && !e.EnterDequeue?
    ensures Inv(Apply(s, e))
  {
    hide CountDone, ByProducer, ByConsumer, Entries, ProducerLogged;
    var t := Apply(s, e);
    forall r | 0 <= r < |t.producers| ensures ProducerOk(t, t.producers[r]) {
      assert ProducerOk(s, s.producers[r]);
    }
    forall c | 0 <= c < |t.consumers| ensures ConsumerOk(t, t.consumers[c]) {
      assert ConsumerOk(s, s.consumers[c]);
    }
  }

  /** Every step of every thread keeps the invariant. */
  lemma StepKeepsInv<T>(s: State<T>, e: Event<T>)
    requires Inv(s) && Enabled(s, e)
    ensures Inv(Apply(s, e))
  {
    match e
    case EnterEnqueue(p) => EnqueueKeepsThreads(s, p); EnqueueKeepsLogs(s, p);
    case CountDown(p) => CountDownKeepsInv(s, p);
    case EnterDequeue(c) => DequeueKeepsThreads(s, c); DequeueKeepsLogs(s, c);
    case _ =>
      if ProducerEvent(e) {
        ProducerStepKeepsInv(s, e);
      } else {
        ConsumerStepKeepsInv(s, e);
      }
  }

  lemma {:induction false} RunKeepsInv<T>(s: State<T>, es: seq<Event<T>>, t: State<T>)
    requires Inv(s) && Run(s, es, t)
    ensures Inv(t)
    decreases |es|
  {
    if es != [] {
      StepKeepsInv(s, es[0]);
      RunKeepsInv(Apply(s, es[0]), es[1..], t);
    }
  }

  // ---------- what follows for whole runs ----------

  /** In every reachable state the log of the shared ring's input is the log of its output followed
      by what it holds; each producer's pushes are its part of the one log, then its local ring; each
      consumer's part of the other is what it popped, then its local ring. */
  lemma LogsAgree<T>(s: State<T>, es: seq<Event<T>>, t: State<T>)
    requires Init(s) && Run(s, es, t)
    ensures t.enqueued == Entries(t.dequeued) + t.shared
    ensures forall p :: 0 <= p < |t.producers| ==>
              t.producers[p].pushed == ByProducer(t.enqueued, p) + t.producers[p].local
    ensures forall c :: 0 <= c < |t.consumers| ==>
              ByConsumer(t.dequeued, c) == t.consumers[c].popped + t.consumers[c].local
  {
    InitInv(s);
    RunKeepsInv(s, es, t);
    forall p | 0 <= p < |t.producers|
      ensures t.producers[p].pushed == ByProducer(t.enqueued, p) + t.producers[p].local
    {
      assert ProducerLogged(t.enqueued, p, t.producers[p]);
    }
    forall c | 0 <= c < |t.consumers|
      ensures ByConsumer(t.dequeued, c) == t.consumers[c].popped + t.consumers[c].local
    {
      assert ConsumerLogged(t.dequeued, c, t.consumers[c]);
    }
  }

  /** A transfer moves all it can, in every reachable state: an enqueue that finds room empties the local
      ring or fills the shared one, a dequeue that finds something empties the shared ring or fills the
      local one; the limits that are passed never cut a transfer short. */
  lemma TransfersAreFull<T>(s: State<T>, es: seq<Event<T>>, t: State<T>, e: Event<T>)
    requires Init(s) && Run(s, es, t) && Enabled(t, e)
    ensures e.EnterEnqueue? && |t.shared| < t.capacity ==>
              Apply(t, e).producers[e.p].local == [] || |Apply(t, e).shared| == t.capacity
    ensures e.EnterDequeue? && t.shared != [] ==>
              |Apply(t, e).consumers| == |t.consumers|
              && (Apply(t, e).shared == [] || |Apply(t, e).consumers[e.c].local| == t.consumers[e.c].step)
  {
    hide LogsOk;
    InitInv(s);
    RunKeepsInv(s, es, t);
    assert e.EnterEnqueue? ==> ProducerOk(t, t.producers[e.p]);
    assert e.EnterDequeue? ==> ConsumerOk(t, t.consumers[e.c]);
  }

  // A producer that asks for the lock on its own account has a full ring.
  ghost predicate FlushesFull<T>(q: Producer<T>) {
    (q.pc.PLocking? || q.pc.PWaiting?) && q.pc.mode.Flush? ==> |q.local| == q.step
  }

  lemma StepKeepsFlushes<T>(s: State<T>, e: Event<T>)
    requires Enabled(s, e) && forall p :: 0 <= p < |s.producers| ==> FlushesFull(s.producers[p])
    ensures var t := Apply(s, e);
            |t.producers| == |s.producers| && forall p :: 0 <= p < |t.producers| ==> FlushesFull(t.producers[p])
  {
    hide BatchSize, Tag, TakeBy;
    var t := Apply(s, e);
    forall p | 0 <= p < |t.producers| ensures p < |s.producers| && FlushesFull(t.producers[p]) {
      assert FlushesFull(s.producers[p]);
    }
  }

  lemma {:induction false} RunKeepsFlushes<T>(s: State<T>, es: seq<Event<T>>, t: State<T>)
    requires Run(s, es, t) && forall p :: 0 <= p < |s.producers| ==> FlushesFull(s.producers[p])
    ensures forall p :: 0 <= p < |t.producers| ==> FlushesFull(t.producers[p])
    decreases |es|
  {
    if es != [] {
      StepKeepsFlushes(s, es[0]);
      RunKeepsFlushes(Apply(s, es[0]), es[1..], t);
    }
  }

  /** Pushes are batched: as long as its ring has room a producer asks for the lock only when a consumer
      forces it or when it terminates, and a consumer asks only when its ring is empty. */
  lemma LocksAreBatched<T>(s: State<T>, es: seq<Event<T>>, t: State<T>)
    requires Init(s) && Run(s, es, t)
    ensures forall p :: 0 <= p < |t.producers| && (t.producers[p].pc.PLocking? || t.producers[p].pc.PWaiting?) ==>
              !t.producers[p].pc.mode.Flush? || |t.producers[p].local| == t.producers[p].step
    ensures forall c :: 0 <= c < |t.consumers| && (t.consumers[c].pc.CLocking? || t.consumers[c].pc.CWaiting?) ==>
              t.consumers[c].local == []
  {
    hide LogsOk;
    InitInv(s);
    RunKeepsInv(s, es, t);
    RunKeepsFlushes(s, es, t);
    assert forall p :: 0 <= p < |t.producers| ==> FlushesFull(t.producers[p]);
    assert forall c :: 0 <= c < |t.consumers| ==> ConsumerOk(t, t.consumers[c]);
  }

  /** Nobody sleeps through what it waits for: a consumer still waiting means an empty shared ring
      with producers left, a producer still waiting means a full one, so the two never coexist. */
  lemma NoLostWakeUp<T>(s: State<T>, es: seq<Event<T>>, t: State<T>)
    requires Init(s) && Run(s, es, t)
    ensures forall c :: 0 <= c < |t.consumers| && t.consumers[c].pc.CWaiting? ==>
              t.shared == [] && exists p :: 0 <= p < |t.producers| && !t.producers[p].pc.PDone?
    ensures forall p :: 0 <= p < |t.producers| && t.producers[p].pc.PWaiting? ==> |t.shared| == t.capacity
    ensures forall p, c :: 0 <= p < |t.producers| && 0 <= c < |t.consumers| ==>
              !(t.producers[p].pc.PWaiting? && t.consumers[c].pc.CWaiting?)
  {
    InitInv(s);
    RunKeepsInv(s, es, t);
    CountDoneAll(t.producers);
    forall p | 0 <= p < |t.producers| && t.producers[p].pc.PWaiting? ensures |t.shared| == t.capacity {
      assert ProducerOk(t, t.producers[p]);
    }
    forall c | 0 <= c < |t.consumers| && t.consumers[c].pc.CWaiting?
      ensures t.shared == [] && exists p :: 0 <= p < |t.producers| && !t.producers[p].pc.PDone?
    {
      assert ConsumerOk(t, t.consumers[c]);
    }
  }

  /** With at least one consumer the threads never all sleep. */
  lemma NoDeadlock<T>(s: State<T>, es: seq<Event<T>>, t: State<T>)
    requires Init(s) && Run(s, es, t) && |t.consumers| >= 1
    ensures || (exists c :: 0 <= c < |t.consumers| && !t.consumers[c].pc.CWaiting?)
            || (exists p :: 0 <= p < |t.producers| && !t.producers[p].pc.PWaiting? && !t.producers[p].pc.PDone?)
  {
    NoLostWakeUp(s, es, t);
    if t.consumers[0].pc.CWaiting? {
      var p :| 0 <= p < |t.producers| && !t.producers[p].pc.PDone?;
    }
  }

  /** A producer that may push always has room, so the ignored result of the local push is success. */
  lemma PushAlwaysStores<T>(s: State<T>, es: seq<Event<T>>, t: State<T>, p: nat, value: T)
    requires Init(s) && Run(s, es, t) && Enabled(t, Push(p, value))
    ensures Apply(t, Push(p, value)).producers[p].local == t.producers[p].local + [value]
  {
    InitInv(s);
    RunKeepsInv(s, es, t);
    assert ProducerOk(t, t.producers[p]);
  }

  /** A pop starts answering none only by finding the shared ring empty with all producers done. */
  lemma NoneOnlyAtTheEnd<T>(s: State<T>, es: seq<Event<T>>, t: State<T>, e: Event<T>, c: nat)
    requires Init(s) && Run(s, es, t) && Enabled(t, e) && c < |t.consumers|
    requires !t.consumers[c].ended && Apply(t, e).consumers[c].ended
    ensures e == EnterDequeue(c) && t.shared == []
    ensures forall p :: 0 <= p < |t.producers| ==> t.producers[p].pc.PDone? && t.producers[p].local == []
  {
    InitInv(s);
    RunKeepsInv(s, es, t);
    CountDoneAll(t.producers);
    assert ConsumerOk(t, t.consumers[c]);
    assert e == EnterDequeue(c);
    forall p | 0 <= p < |t.producers| ensures t.producers[p].pc.PDone? && t.producers[p].local == [] {
      assert ProducerOk(t, t.producers[p]);
    }
  }

  /** Once a consumer was answered none, it never gets another element. */
  lemma {:induction false} NoneIsFinal<T>(s: State<T>, es: seq<Event<T>>, t: State<T>, c: nat)
    requires Inv(s) && Run(s, es, t) && c < |s.consumers| && s.consumers[c].ended
    ensures c < |t.consumers| && t.consumers[c].ended && t.consumers[c].popped == s.consumers[c].popped
    decreases |es|
  {
    if es != [] {
      StepKeepsInv(s, es[0]);
      assert ConsumerOk(s, s.consumers[c]);
      var u := Apply(s, es[0]);
      assert u.consumers[c].ended && u.consumers[c].popped == s.consumers[c].popped;
      NoneIsFinal(u, es[1..], t, c);
    }
  }

  // Sums over the threads, as multisets of entries.
  ghost function PushedBy<T>(ps: seq<Producer<T>>, n: nat): multiset<Entry<T>>
    requires n <= |ps|
  {
    if n == 0 then multiset{} else PushedBy(ps, n - 1) + multiset(Tag(n - 1, ps[n - 1].pushed))
  }

  ghost function HeldByProducers<T>(ps: seq<Producer<T>>, n: nat): multiset<Entry<T>>
    requires n <= |ps|
  {
    if n == 0 then multiset{} else HeldByProducers(ps, n - 1) + multiset(Tag(n - 1, ps[n - 1].local))
  }

  ghost function PoppedBy<T>(cs: seq<Consumer<T>>, n: nat): multiset<Entry<T>>
    requires n <= |cs|
  {
    if n == 0 then multiset{} else PoppedBy(cs, n - 1) + multiset(cs[n - 1].popped)
  }

  ghost function HeldByConsumers<T>(cs: seq<Consumer<T>>, n: nat): multiset<Entry<T>>
    requires n <= |cs|
  {
    if n == 0 then multiset{} else HeldByConsumers(cs, n - 1) + multiset(cs[n - 1].local)
  }

  ghost function EnqueuedBy<T>(log: seq<Entry<T>>, n: nat): multiset<Entry<T>> {
    if n == 0 then multiset{} else EnqueuedBy(log, n - 1) + multiset(Tag(n - 1, ByProducer(log, n - 1)))
  }

  ghost function DequeuedBy<T>(log: seq<Taken<T>>, n: nat): multiset<Entry<T>> {
    if n == 0 then multiset{} else DequeuedBy(log, n - 1) + multiset(ByConsumer(log, n - 1))
  }

  lemma BagOfCons<X>(x: X, rest: seq<X>)
    ensures multiset([x] + rest) == multiset{x} + multiset(rest)
  {
  }

  // The first entry counts for its producer only.
  lemma TaggedCons<T>(log: seq<Entry<T>>, p: nat)
    requires log != []
    ensures multiset(Tag(p, ByProducer(log, p))) ==
            multiset(Tag(p, ByProducer(log[1..], p))) + if log[0].producer == p then multiset{log[0]} else multiset{}
  {
    hide Tag;
    if log[0].producer == p {
      var rest := ByProducer(log[1..], p);
      TagCons(p, log[0].value, rest);
      BagOfCons(log[0], Tag(p, rest));
    }
  }

  lemma TagCons<T>(p: nat, x: T, rest: seq<T>)
    ensures Tag(p, [x] + rest) == [Entry(p, x)] + Tag(p, rest)
  {
  }

  lemma {:induction false} EnqueuedByCons<T>(log: seq<Entry<T>>, n: nat)
    requires log != []
    ensures EnqueuedBy(log, n) == EnqueuedBy(log[1..], n) + if log[0].producer < n then multiset{log[0]} else multiset{}
  {
    hide Tag, ByProducer;
    if n > 0 {
      EnqueuedByCons(log, n - 1);
      TaggedCons(log, n - 1);
    }
  }

  lemma {:induction false} EnqueuedByNone<T>(n: nat)
    ensures EnqueuedBy<T>([], n) == multiset{}
  {
    if n > 0 {
      EnqueuedByNone<T>(n - 1);
    }
  }

  lemma {:induction false} EnqueuedByAll<T>(log: seq<Entry<T>>, n: nat)
    requires forall i :: 0 <= i < |log| ==> log[i].producer < n
    ensures EnqueuedBy(log, n) == multiset(log)
  {
    hide EnqueuedBy;
    if log == [] {
      EnqueuedByNone<T>(n);
    } else {
      EnqueuedByCons(log, n);
      EnqueuedByAll(log[1..], n);
      BagOfCons(log[0], log[1..]);
      assert log == [log[0]] + log[1..];
    }
  }

  lemma {:induction false} DequeuedByCons<T>(log: seq<Taken<T>>, n: nat)
    requires log != []
    ensures DequeuedBy(log, n)
            == DequeuedBy(log[1..], n) + if log[0].consumer < n then multiset{log[0].entry} else multiset{}
  {
    if n > 0 {
      DequeuedByCons(log, n - 1);
      BagOfCons(log[0].entry, ByConsumer(log[1..], n - 1));
    }
  }

  lemma {:induction false} DequeuedByNone<T>(n: nat)
    ensures DequeuedBy<T>([], n) == multiset{}
  {
    if n > 0 {
      DequeuedByNone<T>(n - 1);
    }
  }

  lemma {:induction false} DequeuedByAll<T>(log: seq<Taken<T>>, n: nat)
    requires forall i :: 0 <= i < |log| ==> log[i].consumer < n
    ensures DequeuedBy(log, n) == multiset(Entries(log))
  {
    hide DequeuedBy;
    if log == [] {
      DequeuedByNone<T>(n);
    } else {
      DequeuedByCons(log, n);
      DequeuedByAll(log[1..], n);
      BagOfCons(log[0].entry, Entries(log[1..]));
      assert Entries(log) == [log[0].entry] + Entries(log[1..]);
    }
  }

  lemma JoinSums<X>(sum: multiset<X>, a: multiset<X>, b: multiset<X>, all: seq<X>, x: seq<X>, y: seq<X>)
    requires sum == a + b && all == x + y
    ensures sum + multiset(all) == (a + multiset(x)) + (b + multiset(y))
  {
    assert multiset(x + y) == multiset(x) + multiset(y);
  }

  lemma {:induction false} ProducerSums<T>(s: State<T>, n: nat)
    requires LogsOk(s) && n <= |s.producers|
    ensures PushedBy(s.producers, n) == EnqueuedBy(s.enqueued, n) + HeldByProducers(s.producers, n)
  {
    hide ByProducer, Entries;
    if n > 0 {
      ProducerSums(s, n - 1);
      var q := s.producers[n - 1];
      assert ProducerLogged(s.enqueued, n - 1, q);
      var log := ByProducer(s.enqueued, n - 1);
      assert Tag(n - 1, log + q.local) == Tag(n - 1, log) + Tag(n - 1, q.local);
      JoinSums(PushedBy(s.producers, n - 1), EnqueuedBy(s.enqueued, n - 1), HeldByProducers(s.producers, n - 1),
               Tag(n - 1, q.pushed), Tag(n - 1, log), Tag(n - 1, q.local));
    }
  }

  lemma {:induction false} ConsumerSums<T>(s: State<T>, n: nat)
    requires LogsOk(s) && n <= |s.consumers|
    ensures DequeuedBy(s.dequeued, n) == PoppedBy(s.consumers, n) + HeldByConsumers(s.consumers, n)
  {
    hide ByConsumer, Entries;
    if n > 0 {
      ConsumerSums(s, n - 1);
      var q := s.consumers[n - 1];
      assert ConsumerLogged(s.dequeued, n - 1, q);
      JoinSums(DequeuedBy(s.dequeued, n - 1), PoppedBy(s.consumers, n - 1), HeldByConsumers(s.consumers, n - 1),
               ByConsumer(s.dequeued, n - 1), q.popped, q.local);
    }
  }

  /** Conservation in every reachable state: what was pushed is what was popped plus what is still
      in a local ring or in the shared ring, counted with multiplicity; nothing is lost or doubled. */
  lemma Conservation<T>(s: State<T>, es: seq<Event<T>>, t: State<T>)
    requires Init(s) && Run(s, es, t)
    ensures PushedBy(t.producers, |t.producers|)
            == HeldByProducers(t.producers, |t.producers|) + multiset(t.shared)
               + HeldByConsumers(t.consumers, |t.consumers|) + PoppedBy(t.consumers, |t.consumers|)
  {
    InitInv(s);
    RunKeepsInv(s, es, t);
    ProducerSums(t, |t.producers|);
    ConsumerSums(t, |t.consumers|);
    EnqueuedByAll(t.enqueued, |t.producers|);
    DequeuedByAll(t.dequeued, |t.consumers|);
    assert multiset(Entries(t.dequeued) + t.shared) == multiset(Entries(t.dequeued)) + multiset(t.shared);
  }

  lemma {:induction false} NothingHeld<T>(s: State<T>, p: nat, c: nat)
    requires p <= |s.producers| && c <= |s.consumers|
    requires forall i :: 0 <= i < p ==> s.producers[i].local == []
    requires forall i :: 0 <= i < c ==> s.consumers[i].local == []
    ensures HeldByProducers(s.producers, p) == multiset{} && HeldByConsumers(s.consumers, c) == multiset{}
    decreases p + c
  {
    if p > 0 {
      NothingHeld(s, p - 1, c);
      assert Tag<T>(p - 1, s.producers[p - 1].local) == [];
    } else if c > 0 {
      NothingHeld(s, p, c - 1);
    }
  }

  /** When every consumer has been answered none, exactly what was pushed has been popped. */
  lemma CompleteDelivery<T>(s: State<T>, es: seq<Event<T>>, t: State<T>)
    requires Init(s) && Run(s, es, t) && |t.consumers| >= 1
    requires forall c :: 0 <= c < |t.consumers| ==> t.consumers[c].ended
    ensures PushedBy(t.producers, |t.producers|) == PoppedBy(t.consumers, |t.consumers|)
  {
    Conservation(s, es, t);
    InitInv(s);
    RunKeepsInv(s, es, t);
    CountDoneAll(t.producers);
    forall c | 0 <= c < |t.consumers| ensures t.consumers[c].local == [] && t.AllTerminated() {
      assert ConsumerOk(t, t.consumers[c]);
    }
    forall p | 0 <= p < |t.producers| ensures t.producers[p].local == [] {
      assert ConsumerOk(t, t.consumers[0]);
      assert ProducerOk(t, t.producers[p]);
    }
    NothingHeld(t, |t.producers|, |t.consumers|);
    assert ConsumerOk(t, t.consumers[0]);
  }

  lemma {:induction false} OnlyConsumer<T>(log: seq<Taken<T>>)
    requires forall i :: 0 <= i < |log| ==> log[i].consumer == 0
    ensures ByConsumer(log, 0) == Entries(log)
  {
    if log != [] {
      OnlyConsumer(log[1..]);
      assert Entries(log) == [log[0].entry] + Entries(log[1..]);
    }
  }

  /** A single consumer receives the elements of every producer in the order they were pushed. */
  lemma SingleConsumerOrder<T>(s: State<T>, es: seq<Event<T>>, t: State<T>, p: nat)
    requires Init(s) && Run(s, es, t) && |t.consumers| == 1 && p < |t.producers|
    ensures ByProducer(t.consumers[0].popped, p) <= t.producers[p].pushed
    ensures t.consumers[0].ended ==> ByProducer(t.consumers[0].popped, p) == t.producers[p].pushed
  {
    InitInv(s);
    RunKeepsInv(s, es, t);
    var q := t.consumers[0];
    OnlyConsumer(t.dequeued);
    assert ConsumerLogged(t.dequeued, 0, q) && ProducerLogged(t.enqueued, p, t.producers[p]);
    assert t.enqueued == q.popped + (q.local + t.shared);
    ByProducerAppend(q.popped, q.local + t.shared, p);
    assert ConsumerOk(t, q) && ProducerOk(t, t.producers[p]);
    if q.ended {
      CountDoneAll(t.producers);
    }
  }

  // ---------- order with many consumers ----------

  /** The elements of a occur in b in the same order. */
  ghost predicate Subsequence<X>(a: seq<X>, b: seq<X>) {
    if a == [] then true
    else if b == [] then false
    else (a[0] == b[0] && Subsequence(a[1..], b[1..])) || Subsequence(a, b[1..])
  }

  lemma {:induction false} SubsequenceOfLonger<X>(a: seq<X>, b: seq<X>, c: seq<X>)
    requires Subsequence(a, b)
    ensures Subsequence(a, b + c)
    decreases |b|
  {
    if a != [] {
      assert (b + c)[1..] == b[1..] + c;
      if a[0] == b[0] && Subsequence(a[1..], b[1..]) {
        SubsequenceOfLonger(a[1..], b[1..], c);
      } else {
        SubsequenceOfLonger(a, b[1..], c);
      }
    }
  }

  lemma {:induction false} SubsequenceOfPart<X>(a: seq<X>, c: seq<X>, b: seq<X>)
    requires Subsequence(a + c, b)
    ensures Subsequence(a, b)
    decreases |b|
  {
    if a != [] {
      var ac := a + c;
      assert ac[1..] == a[1..] + c;
      if ac[0] == b[0] && Subsequence(ac[1..], b[1..]) {
        SubsequenceOfPart(a[1..], c, b[1..]);
      } else {
        SubsequenceOfPart(a, c, b[1..]);
      }
    }
  }

  lemma SubsequenceCons<X>(x: X, a: seq<X>, b: seq<X>)
    requires Subsequence(a, b)
    ensures Subsequence([x] + a, [x] + b) && Subsequence(a, [x] + b)
  {
    assert ([x] + a)[1..] == a && ([x] + b)[1..] == b;
  }

  lemma TakenCons<T>(log: seq<Taken<T>>, c: nat, p: nat)
    requires log != []
    ensures Entries(log) == [log[0].entry] + Entries(log[1..])
    ensures ByProducer(Entries(log), p) ==
            (if log[0].entry.producer == p then [log[0].entry.value] else []) + ByProducer(Entries(log[1..]), p)
    ensures ByProducer(ByConsumer(log, c), p) ==
            (if log[0].consumer == c && log[0].entry.producer == p then [log[0].entry.value] else [])
            + ByProducer(ByConsumer(log[1..], c), p)
  {
    var e, es := log[0].entry, ByConsumer(log[1..], c);
    assert Entries(log)[1..] == Entries(log[1..]) && ([e] + es)[1..] == es;
  }

  // What a consumer took of a producer's elements, among all that were taken of them.
  lemma {:induction false} TakenInOrder<T>(log: seq<Taken<T>>, c: nat, p: nat)
    ensures Subsequence(ByProducer(ByConsumer(log, c), p), ByProducer(Entries(log), p))
  {
    if log != [] {
      hide Subsequence, ByProducer, ByConsumer, Entries;
      TakenInOrder(log[1..], c, p);
      TakenCons(log, c, p);
      var all, mine := ByProducer(Entries(log[1..]), p), ByProducer(ByConsumer(log[1..], c), p);
      SubsequenceCons(log[0].entry.value, mine, all);
      assert [] + all == all && [] + mine == mine;
    }
  }

  /** With any number of consumers, each gets the elements of a producer in the order they were pushed:
      what it popped of them is a subsequence of the pushes. */
  lemma ConsumersKeepOrder<T>(s: State<T>, es: seq<Event<T>>, t: State<T>, p: nat, c: nat)
    requires Init(s) && Run(s, es, t) && p < |t.producers| && c < |t.consumers|
    ensures Subsequence(ByProducer(t.consumers[c].popped, p), t.producers[p].pushed)
  {
    hide Init, Run, Subsequence, ByProducer, ByConsumer, Entries;
    LogsAgree(s, es, t);
    var q := t.consumers[c];
    TakenInOrder(t.dequeued, c, p);
    ByProducerAppend(q.popped, q.local, p);
    SubsequenceOfPart(ByProducer(q.popped, p), ByProducer(q.local, p), ByProducer(Entries(t.dequeued), p));
    ByProducerAppend(Entries(t.dequeued), t.shared, p);
    SubsequenceOfLonger(ByProducer(q.popped, p), ByProducer(Entries(t.dequeued), p), ByProducer(t.shared, p));
    SubsequenceOfLonger(ByProducer(q.popped, p), ByProducer(t.enqueued, p), t.producers[p].local);
  }
}
