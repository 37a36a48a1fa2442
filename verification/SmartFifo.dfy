/** A queue as a chain of chunks: producers link filled chunks at the tail, one consumer at a time
    takes ranges from the head. A consumer that finds the chain empty waits on a semaphore, which then
    counts at least the linked elements; one that finds elements takes them without asking it, so the
    value may exceed what is linked. All steps that other threads can see are steps here. */
module SmartFifo {
  import opened Wrappers
  import opened Sequences

  // ---------- state ----------

  /** The consumer that has the lock. `want` is what it still asks for; `credit` is what it took from
      the semaphore and has not popped yet. */
  datatype Phase<T> =
    | Out
    | Check(want: nat, credit: nat)
    | Emptied(want: nat, credit: nat, hasNext: bool)
    | Waiting(want: nat)
    | Tried(want: nat, seen: int)
    | Second(want: nat, credit: nat, found: bool)
    | Closing(want: nat, credit: nat)
    | Popping(want: nat, credit: nat, ranges: seq<seq<T>>)
    | Moving(want: nat, credit: nat, ranges: seq<seq<T>>)

  /** The producer that has the lock: linked, then visible as the tail, then to be posted. */
  datatype Publishing = Free | Linked(who: nat, n: nat) | Tailed(who: nat, n: nat)

  datatype Producer<T> = Producer(chunk: seq<T>, size: nat, left: bool, done: bool, pushed: seq<T>)

  /** Answers go to the consumers named in `askers`; `asker` has the lock. The fields from `posted` to
      `overDone` are the books: what was posted, how much of what was announced exceeds what was linked,
      what consumers took from the semaphore, and the part of links and excess that belongs to
      completed pushes. */
  datatype State<T> = State(
    chunks: seq<seq<T>>, owners: seq<nat>, producers: seq<Producer<T>>, publishing: Publishing, tail: nat,
    head: nat, taken: nat, value: int, finished: bool, phase: Phase<T>, answers: seq<seq<seq<T>>>,
    posted: nat, over: nat, took: int, completed: nat, overDone: nat, asker: nat, askers: seq<nat>)

  datatype Step<T> =
    | Push(p: nat, x: T, newSize: nat) | PushImmediate(p: nat, newSize: nat) | LastChunk(p: nat)
    | StoreTail | Post | Done(p: nat) | Finish
    | Enter(who: nat, want: nat) | Look | LookTerminated | Try | Resolve(timeout: bool)
    | LookAgain | LookClosing | Pop | Move

  predicate Terminated<T>(s: State<T>) {
    forall p :: 0 <= p < |s.producers| ==> s.producers[p].done
  }

  function Init<T>(sizes: seq<nat>): (s: State<T>) {
    State([[]], [0], seq(|sizes|, p requires 0 <= p < |sizes| => Producer([], sizes[p], false, false, [])),
          Free, 0, 0, 0, 0, false, Out, [], 0, 0, 0, 0, 0, 0, [])
  }

  function HasNext<T>(s: State<T>): (b: bool) {
    s.head + 1 < |s.chunks|
  }

  function Available<T>(s: State<T>): (n: nat)
    requires s.head < |s.chunks| && s.taken <= |s.chunks[s.head]|
  {
    |s.chunks[s.head]| - s.taken
  }

  predicate Shape<T>(s: State<T>) {
    && s.head < |s.chunks| == |s.owners| && s.taken <= |s.chunks[s.head]|
  }

  // A chunk that is full when an element comes in.
  predicate Overflows<T>(s: State<T>, p: nat)
    requires p < |s.producers|
  {
    |s.producers[p].chunk| == s.producers[p].size
  }

  predicate Enabled<T>(s: State<T>, step: Step<T>)
    requires Shape(s)
  {
    match step
    case Push(p, _, newSize) =>
      && p < |s.producers| && !s.producers[p].left && newSize > 0
      && (Overflows(s, p) ==> s.publishing.Free?)
    case PushImmediate(p, newSize) => p < |s.producers| && !s.producers[p].left && newSize > 0 && s.publishing.Free?
    case LastChunk(p) => p < |s.producers| && !s.producers[p].left && s.publishing.Free?
    case StoreTail => s.publishing.Linked?
    case Post => s.publishing.Tailed?
    case Done(p) =>
      p < |s.producers| && s.producers[p].left && !s.producers[p].done && (s.publishing.Free? || s.publishing.who != p)
    case Finish => Terminated(s) && !s.finished
    case Enter(_, want) => s.phase.Out? && want > 0
    case Look => s.phase.Check?
    case LookTerminated => s.phase.Emptied? && (s.phase.hasNext ==> HasNext(s))
    case Try => s.phase.Waiting?
    case Resolve(_) => s.phase.Tried?
    case LookAgain => s.phase.Second?
    case LookClosing => s.phase.Closing?
    case Pop => s.phase.Popping?
    case Move => s.phase.Moving? && (s.head == s.tail || HasNext(s))
  }

  // Link chunks of a producer and remember what is to be posted for them.
  function Link<T>(s: State<T>, p: nat, cs: seq<seq<T>>, n: nat): (t: State<T>) {
    s.(chunks := s.chunks + cs, owners := s.owners + seq(|cs|, _ => p), publishing := Linked(p, n),
       over := s.over + if n >= |Flat(cs)| then n - |Flat(cs)| else 0)
  }

  function Min(a: int, b: int): (m: int) { if a < b then a else b }

  function Answered<T>(s: State<T>, ranges: seq<seq<T>>): (t: State<T>) {
    s.(phase := Out, answers := s.answers + [ranges], askers := s.askers + [s.asker])
  }

  function Next<T>(s: State<T>, step: Step<T>): (t: State<T>)
    requires Shape(s) && Enabled(s, step)
  {
    match step
    case Push(p, x, newSize) =>
      var q := s.producers[p];
      if Overflows(s, p) then
        Link(s.(producers := s.producers[p := q.(chunk := [], size := newSize, pushed := q.pushed + [x])]),
             p, [q.chunk, [x]], q.size + 1)
      else s.(producers := s.producers[p := q.(chunk := q.chunk + [x], pushed := q.pushed + [x])])
    case PushImmediate(p, newSize) =>
      var q := s.producers[p];
      Link(s.(producers := s.producers[p := q.(chunk := [], size := newSize)]), p, [q.chunk], q.size)
    case LastChunk(p) =>
      var q := s.producers[p];
      Link(s.(producers := s.producers[p := q.(chunk := [], left := true)]), p, [q.chunk], |q.chunk|)
    case StoreTail => s.(tail := |s.chunks| - 1, publishing := Tailed(s.publishing.who, s.publishing.n))
    case Post =>
      s.(value := s.value + s.publishing.n, posted := s.posted + s.publishing.n, publishing := Free,
         completed := |Flat(s.chunks)|, overDone := s.over)
    case Done(p) => s.(producers := s.producers[p := s.producers[p].(done := true)])
    case Finish => s.(finished := true)
    case Enter(who, want) => s.(phase := Check(want, 0), asker := who)
    case Look =>
      var Check(want, credit) := s.phase;
      s.(phase := if Available(s) == 0 then Emptied(want, credit, HasNext(s)) else Second(want, credit, true))
    case LookTerminated =>
      var Emptied(want, credit, hasNext) := s.phase;
      if Terminated(s) then s.(phase := Second(want, credit, false))
      else if hasNext then s.(head := s.head + 1, taken := 0, phase := Check(want, credit))
      else s.(phase := Waiting(want))
    case Try => s.(value := s.value - s.phase.want, phase := Tried(s.phase.want, s.value))
    case Resolve(timeout) =>
      var Tried(want, seen) := s.phase;
      if s.finished then s.(phase := Check(want, 0), took := s.took + want)
      else if seen <= 0 then s.(value := s.value + want, phase := if timeout then Out else Waiting(want))
      else
        var got := Min(seen, want);
        s.(value := s.value + want - got, took := s.took + got, phase := Check(want, got))
    case LookAgain =>
      var Second(want, credit, found) := s.phase;
      s.(phase := if Terminated(s) then Closing(want, credit) else Popping(want, credit, []))
    case LookClosing =>
      var Closing(want, credit) := s.phase;
      if Available(s) > 0 then s.(phase := Popping(want, credit, []))
      else if HasNext(s) then s.(head := s.head + 1, taken := 0, phase := Second(want, credit, false))
      else Answered(s, [])
    case Pop =>
      var Popping(want, credit, ranges) := s.phase;
      var n := Min(Available(s), want);
      var r := ranges + [s.chunks[s.head][s.taken..s.taken + n]];
      var over := n == want || !HasNext(s);
      var t := s.(taken := s.taken + n);
      if over then Answered(t, r) else t.(phase := Moving(want - n, if credit > n then credit - n else 0, r))
    case Move =>
      var Moving(want, credit, ranges) := s.phase;
      if s.head == s.tail then Answered(s, ranges)
      else s.(head := s.head + 1, taken := 0, phase := Popping(want, credit, ranges))
  }

  // ---------- invariants ----------

  // What has left the chain.
  function Given<T>(s: State<T>): (g: seq<T>)
    requires Shape(s)
  {
    Flat(s.chunks[..s.head]) + s.chunks[s.head][..s.taken]
  }

  // What is linked up to the stored tail.
  function UpToTail<T>(s: State<T>): (n: nat)
    requires s.tail < |s.chunks|
  {
    |Flat(s.chunks[..s.tail + 1])|
  }

  function InFlight(p: Publishing): (n: nat) {
    if p.Free? then 0 else p.n
  }

  ghost predicate ChainOk<T>(s: State<T>) {
    && Shape(s) && s.tail < |s.chunks| && (!s.publishing.Linked? ==> s.tail == |s.chunks| - 1)
  }

  function RangesInHand<T>(phase: Phase<T>): (r: seq<seq<T>>) {
    if phase.Popping? || phase.Moving? then phase.ranges else []
  }

  function Handed<T>(answers: seq<seq<seq<T>>>): (s: seq<T>) {
    if answers == [] then [] else Handed(answers[..|answers| - 1]) + Flat(answers[|answers| - 1])
  }

  ghost predicate HandedOk<T>(s: State<T>)
    requires Shape(s)
  {
    && Given(s) == Handed(s.answers) + Flat(RangesInHand(s.phase))
    && |s.askers| == |s.answers|
    && forall i :: 0 <= i < |s.answers| && s.answers[i] != [] ==> s.answers[i][0] != []
  }

  // The books of the semaphore.
  ghost predicate Booked<T>(s: State<T>)
    requires ChainOk(s)
  {
    && s.posted + InFlight(s.publishing) == |Flat(s.chunks)| + s.over
    && s.posted == s.completed + s.overDone && s.completed <= UpToTail(s) && s.completed <= |Flat(s.chunks)|
    && s.overDone <= s.over && (s.publishing.Free? ==> s.completed == |Flat(s.chunks)| && s.overDone == s.over)
    && s.value + (if s.phase.Tried? then s.phase.want else 0) == s.posted - s.took
    && (!s.finished ==> s.took <= s.posted)
    && (s.finished ==> Terminated(s))
  }

  // What was taken from the semaphore is popped, or a completed push posted more than it linked, or
  // it is credit.
  ghost predicate Covered<T>(s: State<T>, credit: nat)
    requires Shape(s)
  {
    !s.finished ==> s.took <= |Given(s)| + s.overDone + credit
  }

  ghost predicate PhaseOk<T>(s: State<T>)
    requires Shape(s)
  {
    match s.phase
    case Out => Covered(s, 0)
    case Check(w, c) => c <= w && w > 0 && Covered(s, c)
    case Emptied(w, c, hn) =>
      && c <= w && w > 0 && s.taken == |s.chunks[s.head]| && (if hn then HasNext(s) && Covered(s, c) else Covered(s, 0))
    case Waiting(w) => w > 0 && Covered(s, 0)
    case Tried(w, seen) => w > 0 && Covered(s, 0) && (!s.finished ==> seen <= s.posted - s.took)
    case Second(w, c, found) => c <= w && w > 0 && Covered(s, c) && (if found then Available(s) > 0 else Terminated(s))
    case Closing(w, c) => c <= w && w > 0 && Covered(s, c) && Terminated(s)
    case Popping(w, c, rs) => c <= w && w > 0 && Covered(s, c) && (if rs == [] then Available(s) > 0 else rs[0] != [])
    case Moving(w, c, rs) =>
      && c <= w && w > 0 && Covered(s, c) && s.taken == |s.chunks[s.head]| && HasNext(s) && rs != [] && rs[0] != []
  }

  // The chunks of a producer, in order.
  function Of<T>(chunks: seq<seq<T>>, owners: seq<nat>, p: nat): (s: seq<T>)
    requires |chunks| == |owners|
  {
    if chunks == [] then []
    else Of(chunks[..|chunks| - 1], owners[..|owners| - 1], p)
         + if owners[|owners| - 1] == p then chunks[|chunks| - 1] else []
  }

  ghost predicate ProducersOk<T>(s: State<T>)
    requires Shape(s)
  {
    forall p :: 0 <= p < |s.producers| ==>
      var q := s.producers[p];
      && q.size > 0 && |q.chunk| <= q.size && (q.left ==> q.chunk == []) && (q.done ==> q.left)
      && q.pushed == Of(s.chunks, s.owners, p) + q.chunk
  }

  // A producer that is done is not publishing.
  ghost predicate PublisherOk<T>(s: State<T>) {
    !s.publishing.Free? ==> s.publishing.who < |s.producers| && !s.producers[s.publishing.who].done
  }

  ghost predicate Inv<T>(s: State<T>) {
    ChainOk(s) && HandedOk(s) && Booked(s) && PhaseOk(s) && ProducersOk(s) && PublisherOk(s)
  }

  // ---------- lengths along the chain ----------

  // Where the consumer is, compared with everything linked.
  lemma GivenIsPrefix<T>(s: State<T>)
    requires Shape(s)
    ensures Given(s) <= Flat(s.chunks)
    ensures Available(s) == 0 && !HasNext(s) ==> Given(s) == Flat(s.chunks)
    ensures Available(s) == 0 && s.head == s.tail ==> |Given(s)| == UpToTail(s)
  {
    FlatUpTo(s.chunks, s.head);
    FlatSplit(s.chunks, s.head + 1);
    assert s.chunks[s.head] == s.chunks[s.head][..s.taken] + s.chunks[s.head][s.taken..];
    assert s.chunks[..|s.chunks|] == s.chunks;
  }

  lemma SameGiven<T>(s: State<T>, t: State<T>)
    requires Shape(s) && Shape(t) && s.chunks == t.chunks && s.head == t.head && s.taken == t.taken
    ensures Given(s) == Given(t)
  {
  }

  // Moving on from an exhausted chunk gives nothing away and takes nothing back.
  lemma GivenOfMove<T>(s: State<T>)
    requires Shape(s) && Available(s) == 0 && HasNext(s)
    ensures Given(s.(head := s.head + 1, taken := 0)) == Given(s)
  {
    FlatUpTo(s.chunks, s.head);
    assert s.chunks[s.head][..s.taken] == s.chunks[s.head];
  }

  lemma MovedGiven<T>(s: State<T>, t: State<T>)
    requires Shape(s) && Shape(t) && s.chunks == t.chunks
    requires (t.head == s.head && t.taken == s.taken)
             || (Available(s) == 0 && HasNext(s) && t.head == s.head + 1 && t.taken == 0)
    ensures Given(t) == Given(s)
  {
    if t.head != s.head {
      GivenOfMove(s);
    }
  }

  lemma GivenOfPop<T>(s: State<T>, n: nat)
    requires Shape(s) && n <= Available(s)
    ensures Given(s.(taken := s.taken + n)) == Given(s) + s.chunks[s.head][s.taken..s.taken + n]
  {
    assert s.chunks[s.head][..s.taken + n] == s.chunks[s.head][..s.taken] + s.chunks[s.head][s.taken..s.taken + n];
  }

  // ---------- producers' steps ----------

  lemma OfOne<T>(chunks: seq<seq<T>>, owners: seq<nat>, c: seq<T>, p: nat, q: nat)
    requires |chunks| == |owners|
    ensures Of(chunks + [c], owners + [p], q) == Of(chunks, owners, q) + if p == q then c else []
  {
    assert (chunks + [c])[..|chunks|] == chunks && (owners + [p])[..|owners|] == owners;
  }

  lemma {:induction false} OfAdd<T>(chunks: seq<seq<T>>, owners: seq<nat>, cs: seq<seq<T>>, p: nat, q: nat)
    requires |chunks| == |owners|
    ensures Of(chunks + cs, owners + seq(|cs|, _ => p), q) == Of(chunks, owners, q) + if p == q then Flat(cs) else []
  {
    hide Of;
    var os := seq(|cs|, _ => p);
    if cs == [] {
      assert chunks + cs == chunks && owners + os == owners;
    } else {
      var n := |cs| - 1;
      OfAdd(chunks, owners, cs[..n], p, q);
      OfOne(chunks + cs[..n], owners + seq(n, _ => p), cs[n], p, q);
      assert chunks + cs == chunks + cs[..n] + [cs[n]] && owners + os == owners + seq(n, _ => p) + [p];
    }
  }

  lemma LinkAddsData<T>(s: State<T>, p: nat, cs: seq<seq<T>>, n: nat)
    requires ChainOk(s) && s.publishing.Free? && n >= |Flat(cs)|
    ensures var t := Link(s, p, cs, n);
            && Shape(t) && Given(t) == Given(s) && t.tail < |t.chunks| && UpToTail(t) == UpToTail(s) == |Flat(s.chunks)|
            && |Flat(t.chunks)| + t.over == |Flat(s.chunks)| + s.over + n
  {
    hide Flat;
    var t := Link(s, p, cs, n);
    FlatAdd(s.chunks, cs);
    assert t.chunks[..s.head] == s.chunks[..s.head] && t.chunks[s.head] == s.chunks[s.head];
    assert t.chunks[..s.tail + 1] == s.chunks[..s.tail + 1];
    assert s.chunks[..s.tail + 1] == s.chunks;
  }

  lemma LinkKeepsChain<T>(s: State<T>, p: nat, cs: seq<seq<T>>, n: nat)
    requires ChainOk(s) && s.publishing.Free? && cs != [] && n >= |Flat(cs)| && Booked(s) && HandedOk(s) && PhaseOk(s)
    requires !Terminated(s)
    ensures var t := Link(s, p, cs, n); ChainOk(t) && Booked(t) && HandedOk(t) && PhaseOk(t) && Given(t) == Given(s)
  {
    hide Flat, Handed, Given, UpToTail;
    LinkAddsData(s, p, cs, n);
  }

  // The three ways a chunk gets linked: full, ahead of time, and as the last one.
  lemma LinkingKeepsInv<T>(s: State<T>, p: nat, q: Producer<T>, cs: seq<seq<T>>, n: nat)
    requires Inv(s) && s.publishing.Free? && p < |s.producers| && !s.producers[p].left && cs != [] && n >= |Flat(cs)|
    requires q.size > 0 && q.chunk == [] && !q.done && q.pushed == Of(s.chunks, s.owners, p) + Flat(cs)
    ensures Inv(Link(s.(producers := s.producers[p := q]), p, cs, n))
  {
    hide Flat, Of, Handed, Given, UpToTail;
    var r := s.(producers := s.producers[p := q]);
    assert !s.producers[p].done && !r.producers[p].done;
    SameForConsumer(s, r);
    LinkKeepsChain(r, p, cs, n);
    var t := Link(r, p, cs, n);
    forall i | 0 <= i < |t.producers|
      ensures t.producers[i].pushed == Of(t.chunks, t.owners, i) + t.producers[i].chunk
    {
      OfAdd(s.chunks, s.owners, cs, p, i);
    }
  }

  // The producers' own data is nothing to the consumer, as long as none becomes done.
  lemma SameForConsumer<T>(s: State<T>, r: State<T>)
    requires ChainOk(s) && HandedOk(s) && Booked(s) && PhaseOk(s) && r == s.(producers := r.producers)
    requires Terminated(s) ==> Terminated(r)
    ensures ChainOk(r) && HandedOk(r) && Booked(r) && PhaseOk(r) && Given(r) == Given(s)
  {
  }

  lemma PushKeepsInv<T>(s: State<T>, step: Step<T>)
    requires Inv(s) && Enabled(s, step) && step.Push?
    ensures Inv(Next(s, step))
  {
    hide Flat, Of, Handed, Given, UpToTail, HandedOk, Booked, PhaseOk;
    var p, x := step.p, step.x;
    var q := s.producers[p];
    if Overflows(s, p) {
      var cs := [q.chunk, [x]];
      FlatSingle(q.chunk);
      FlatOne([q.chunk], [x]);
      assert cs == [q.chunk] + [[x]];
      LinkingKeepsInv(s, p, q.(chunk := [], size := step.newSize, pushed := q.pushed + [x]), cs, q.size + 1);
    } else {
      SameForConsumer(s, Next(s, step));
    }
  }

  lemma ProducerStepKeepsInv<T>(s: State<T>, step: Step<T>)
    requires Inv(s) && Enabled(s, step) && (step.PushImmediate? || step.LastChunk? || step.Done?)
    ensures Inv(Next(s, step))
  {
    hide Flat, Of, Handed, Given, UpToTail, HandedOk, Booked, PhaseOk;
    var p := step.p;
    var q := s.producers[p];
    FlatSingle(q.chunk);
    match step
    case PushImmediate(_, newSize) =>
      LinkingKeepsInv(s, p, q.(chunk := [], size := newSize), [q.chunk], q.size);
    case LastChunk(_) =>
      LinkingKeepsInv(s, p, q.(chunk := [], left := true), [q.chunk], |q.chunk|);
    case Done(_) =>
      SameForConsumer(s, Next(s, step));
  }

  lemma PublishStepKeepsInv<T>(s: State<T>, step: Step<T>)
    requires Inv(s) && Enabled(s, step) && (step.StoreTail? || step.Post? || step.Finish?)
    ensures Inv(Next(s, step))
  {
    hide Flat, Of, Handed, Given;
    assert s.chunks[..|s.chunks|] == s.chunks;
    SameGiven(s, Next(s, step));
  }

  // ---------- the consumer's steps ----------

  // The consumer leaves the producers alone.
  lemma SameForProducers<T>(s: State<T>, t: State<T>)
    requires Inv(s) && Shape(t) && s.chunks == t.chunks && s.owners == t.owners
    requires s.producers == t.producers && s.publishing == t.publishing && s.tail == t.tail
    ensures ChainOk(t) && ProducersOk(t) && PublisherOk(t) && (Terminated(t) <==> Terminated(s))
    ensures UpToTail(t) == UpToTail(s)
  {
  }

  lemma LookKeepsInv<T>(s: State<T>, step: Step<T>)
    requires Inv(s) && Enabled(s, step) && (step.Enter? || step.Look? || step.LookTerminated?)
    ensures Inv(Next(s, step))
  {
    hide Flat, Handed, Of, Given, ProducersOk, PublisherOk, Terminated, UpToTail;
    SameForProducers(s, Next(s, step));
    GivenIsPrefix(s);
    MovedGiven(s, Next(s, step));
  }

  lemma WaitKeepsInv<T>(s: State<T>, step: Step<T>)
    requires Inv(s) && Enabled(s, step) && (step.Try? || step.Resolve?)
    ensures Inv(Next(s, step))
  {
    hide Flat, Handed, Of, Given, ProducersOk, PublisherOk, Terminated, UpToTail;
    SameForProducers(s, Next(s, step));
    MovedGiven(s, Next(s, step));
  }

  lemma HandedOne<T>(answers: seq<seq<seq<T>>>, r: seq<seq<T>>)
    ensures Handed(answers + [r]) == Handed(answers) + Flat(r)
  {
    assert (answers + [r])[..|answers|] == answers;
  }

  lemma PopKeepsHanded<T>(s: State<T>, step: Step<T>)
    requires Inv(s) && Enabled(s, step) && step.Pop?
    ensures Shape(Next(s, step)) && HandedOk(Next(s, step))
  {
    hide Flat, Handed, Given, Booked, ProducersOk, PublisherOk, Covered;
    var ranges := s.phase.ranges;
    var n := Min(Available(s), s.phase.want);
    var part := s.chunks[s.head][s.taken..s.taken + n];
    GivenOfPop(s, n);
    SameGiven(s.(taken := s.taken + n), Next(s, step));
    FlatOne(ranges, part);
    HandedOne(s.answers, ranges + [part]);
    FlatNothing<T>();
    assert (ranges + [part])[0] == if ranges == [] then part else ranges[0];
  }

  lemma PopKeepsInv<T>(s: State<T>, step: Step<T>)
    requires Inv(s) && Enabled(s, step) && step.Pop?
    ensures Inv(Next(s, step))
  {
    hide Flat, Handed, Of, Given, HandedOk, ProducersOk, PublisherOk, Terminated, UpToTail;
    PopKeepsHanded(s, step);
    SameForProducers(s, Next(s, step));
    var Popping(want, credit, ranges) := s.phase;
    var n := Min(Available(s), want);
    GivenOfPop(s, n);
    GivenIsPrefix(s.(taken := s.taken + n));
    SameGiven(s.(taken := s.taken + n), Next(s, step));
    assert (ranges + [s.chunks[s.head][s.taken..s.taken + n]])[0] != [];
  }

  lemma TakeKeepsInv<T>(s: State<T>, step: Step<T>)
    requires Inv(s) && Enabled(s, step)
    requires step.LookAgain? || step.LookClosing? || step.Move?
    ensures Inv(Next(s, step))
  {
    hide Flat, Handed, Of, Given, ProducersOk, PublisherOk, Terminated, UpToTail;
    SameForProducers(s, Next(s, step));
    FlatNothing<T>();
    GivenIsPrefix(s);
    MovedGiven(s, Next(s, step));
    HandedOne(s.answers, RangesInHand(s.phase));
  }

  lemma StepKeepsInv<T>(s: State<T>, step: Step<T>)
    requires Inv(s) && Enabled(s, step)
    ensures Inv(Next(s, step))
  {
    match step
    case Push(_, _, _) => PushKeepsInv(s, step);
    case Pop => PopKeepsInv(s, step);
    case LookAgain => TakeKeepsInv(s, step);
    case LookClosing => TakeKeepsInv(s, step);
    case Move => TakeKeepsInv(s, step);
    case Enter(_, _) => LookKeepsInv(s, step);
    case Look => LookKeepsInv(s, step);
    case LookTerminated => LookKeepsInv(s, step);
    case Try => WaitKeepsInv(s, step);
    case Resolve(_) => WaitKeepsInv(s, step);
    case StoreTail => PublishStepKeepsInv(s, step);
    case Post => PublishStepKeepsInv(s, step);
    case Finish => PublishStepKeepsInv(s, step);
    case _ => ProducerStepKeepsInv(s, step);
  }

  // ---------- main results ----------

  ghost predicate Sizes(sizes: seq<nat>) {
    forall p :: 0 <= p < |sizes| ==> sizes[p] > 0
  }

  ghost predicate Run<T>(sizes: seq<nat>, states: seq<State<T>>, steps: seq<Step<T>>) {
    && Sizes(sizes) && |states| == |steps| + 1 && states[0] == Init(sizes)
    && forall i :: 0 <= i < |steps| ==>
         Shape(states[i]) && Enabled(states[i], steps[i]) && states[i + 1] == Next(states[i], steps[i])
  }

  lemma InitInv<T>(sizes: seq<nat>)
    requires Sizes(sizes)
    ensures Inv<T>(Init(sizes))
  {
    var s: State<T> := Init(sizes);
    FlatSingle<T>([]);
    assert s.chunks[..1] == s.chunks && s.chunks[..0] == [];
    assert forall p :: Of(s.chunks, s.owners, p) == [] by {
      forall p ensures Of(s.chunks, s.owners, p) == [] {
        OfOne<T>([], [], [], 0, p);
        assert s.chunks == [] + [[]] && s.owners == [] + [0];
      }
    }
  }

  lemma {:induction false} RunKeepsInv<T>(sizes: seq<nat>, states: seq<State<T>>, steps: seq<Step<T>>, k: nat)
    requires Run(sizes, states, steps) && k < |states|
    ensures Inv(states[k])
  {
    if k == 0 {
      InitInv<T>(sizes);
    } else {
      RunKeepsInv(sizes, states, steps, k - 1);
      StepKeepsInv(states[k - 1], steps[k - 1]);
    }
  }

  /** What the consumers were handed, answer after answer and range after range, is a prefix of what
      the producers linked, and no answer that holds ranges starts with an empty one. */
  lemma HandedOutInOrder<T>(sizes: seq<nat>, states: seq<State<T>>, steps: seq<Step<T>>, k: nat)
    requires Run(sizes, states, steps) && k < |states|
    ensures Handed(states[k].answers) <= Flat(states[k].chunks)
    ensures forall i :: 0 <= i < |states[k].answers| && states[k].answers[i] != [] ==> states[k].answers[i][0] != []
  {
    RunKeepsInv(sizes, states, steps, k);
    GivenIsPrefix(states[k]);
  }

  /** Nothing a producer pushed is lost or moved: it is its part of the linked chunks, then its own
      chunk. */
  lemma PushedIsLinkedOrLocal<T>(sizes: seq<nat>, states: seq<State<T>>, steps: seq<Step<T>>, k: nat, p: nat)
    requires Run(sizes, states, steps) && k < |states| && p < |states[k].producers|
    ensures Shape(states[k])
    ensures states[k].producers[p].pushed == Of(states[k].chunks, states[k].owners, p) + states[k].producers[p].chunk
  {
    RunKeepsInv(sizes, states, steps, k);
  }

  ghost predicate Cuts<T>(step: Step<T>, p: nat) {
    (step.PushImmediate? || step.LastChunk?) && step.p == p
  }

  // What a step does to a producer's chunk, while the producer neither pushes ahead of time nor leaves.
  lemma ChunkOfStep<T>(s: State<T>, step: Step<T>, p: nat)
    requires Shape(s) && Enabled(s, step) && p < |s.producers| && !Cuts(step, p)
    ensures var t := Next(s, step);
            && |t.producers| == |s.producers|
            && var q, r := s.producers[p], t.producers[p];
               if r.pushed == q.pushed then r.chunk == q.chunk && r.size == q.size
               else |r.pushed| == |q.pushed| + 1
                    && if |q.chunk| < q.size then |r.chunk| == |q.chunk| + 1 && r.size == q.size
                       else |q.chunk| == q.size ==> r.chunk == []
  {
    hide Flat;
  }

  lemma {:induction false} ProducersStay<T>(sizes: seq<nat>, states: seq<State<T>>, steps: seq<Step<T>>, k: nat)
    requires Run(sizes, states, steps) && k < |states|
    ensures |states[k].producers| == |sizes|
  {
    hide Flat;
    if k > 0 {
      ProducersStay(sizes, states, steps, k - 1);
      assert states[k] == Next(states[k - 1], steps[k - 1]);
    }
  }

  // A producer's chunk collects what it pushes until it is full.
  lemma {:induction false} ChunkFills<T>(sizes: seq<nat>, states: seq<State<T>>, steps: seq<Step<T>>,
                                         j: nat, k: nat, p: nat)
    requires Run(sizes, states, steps) && j <= k < |states| && p < |states[j].producers| && p < |states[k].producers|
    requires states[j].producers[p].chunk == [] && forall i :: j <= i < k ==> !Cuts(steps[i], p)
    requires var q := states[j].producers[p]; |states[k].producers[p].pushed| <= |q.pushed| + q.size
    ensures var q, r := states[j].producers[p], states[k].producers[p];
            r.size == q.size && |r.chunk| == |r.pushed| - |q.pushed|
  {
    hide Inv, Enabled, Next;
    if j < k {
      RunKeepsInv(sizes, states, steps, k - 1);
      InvShape(states[k - 1]);
      ProducersStay(sizes, states, steps, k - 1);
      ProducersStay(sizes, states, steps, k);
      ChunkOfStep(states[k - 1], steps[k - 1], p);
      ChunkFills(sizes, states, steps, j, k - 1, p);
    }
  }

  /** Pushes are batched: from an empty chunk of size n on, a producer's first n elements leave its part of
      the chain alone, and the next one brings all of them into it, unless the producer pushes ahead of
      time or leaves. */
  lemma ChunksAreLinkedWhenFull<T>(sizes: seq<nat>, states: seq<State<T>>, steps: seq<Step<T>>,
                                   j: nat, k: nat, p: nat)
    requires Run(sizes, states, steps) && j <= k < |states| && p < |states[j].producers| && p < |states[k].producers|
    requires states[j].producers[p].chunk == [] && forall i :: j <= i < k ==> !Cuts(steps[i], p)
    requires var q := states[j].producers[p]; |states[k].producers[p].pushed| <= |q.pushed| + q.size
    ensures Shape(states[j]) && Shape(states[k])
    ensures |Of(states[k].chunks, states[k].owners, p)| == |Of(states[j].chunks, states[j].owners, p)|
    ensures k < |steps| && steps[k].Push? && steps[k].p == p
            && |states[k].producers[p].pushed| == |states[j].producers[p].pushed| + states[j].producers[p].size ==>
              Shape(states[k + 1]) && p < |states[k + 1].producers|
              && Of(states[k + 1].chunks, states[k + 1].owners, p) == states[k + 1].producers[p].pushed
  {
    hide Flat, HandedOk, Booked, PhaseOk, Given, Of, Next, Enabled;
    RunKeepsInv(sizes, states, steps, j);
    RunKeepsInv(sizes, states, steps, k);
    ChunkFills(sizes, states, steps, j, k, p);
    if k < |steps| && steps[k].Push? && steps[k].p == p {
      ChunkOfStep(states[k], steps[k], p);
      RunKeepsInv(sizes, states, steps, k + 1);
      PushGrows(states[k], steps[k]);
    }
  }

  lemma PushGrows<T>(s: State<T>, step: Step<T>)
    requires Shape(s) && Enabled(s, step) && step.Push?
    ensures var t := Next(s, step);
            |t.producers| == |s.producers| && |t.producers[step.p].pushed| == |s.producers[step.p].pushed| + 1
  {
    hide Flat;
  }

  ghost predicate AtEnd<T>(s: State<T>)
    requires Shape(s)
  {
    Terminated(s) && Available(s) == 0 && !HasNext(s)
  }

  lemma StepKeepsEnd<T>(s: State<T>, step: Step<T>)
    requires Inv(s) && Enabled(s, step) && Shape(Next(s, step))
    requires [] in s.answers ==> AtEnd(s)
    ensures [] in Next(s, step).answers ==> AtEnd(Next(s, step))
  {
    hide Flat, Handed, Of, Given, Booked, Covered;
    var t := Next(s, step);
    if [] in t.answers && [] !in s.answers {
      assert t.answers == s.answers + [t.answers[|s.answers|]];
    }
  }

  lemma {:induction false} RunKeepsEnd<T>(sizes: seq<nat>, states: seq<State<T>>, steps: seq<Step<T>>, k: nat)
    requires Run(sizes, states, steps) && k < |states|
    ensures Shape(states[k]) && ([] in states[k].answers ==> AtEnd(states[k]))
  {
    hide HandedOk, Booked, PhaseOk, ProducersOk, PublisherOk;
    RunKeepsInv(sizes, states, steps, k);
    if k > 0 {
      RunKeepsEnd(sizes, states, steps, k - 1);
      RunKeepsInv(sizes, states, steps, k - 1);
      StepKeepsEnd(states[k - 1], steps[k - 1]);
    }
  }

  /** An empty answer is given only when every producer is done and everything any of them pushed has
      been handed out, and from then on it stays so. */
  lemma EmptyAnswerOnlyAtTheEnd<T>(sizes: seq<nat>, states: seq<State<T>>, steps: seq<Step<T>>, k: nat)
    requires Run(sizes, states, steps) && k < |states| && [] in states[k].answers
    ensures Terminated(states[k])
    ensures Handed(states[k].answers) + Flat(RangesInHand(states[k].phase)) == Flat(states[k].chunks)
    ensures Shape(states[k]) && forall p :: 0 <= p < |states[k].producers| ==>
              states[k].producers[p].pushed == Of(states[k].chunks, states[k].owners, p)
  {
    RunKeepsInv(sizes, states, steps, k);
    RunKeepsEnd(sizes, states, steps, k);
    GivenIsPrefix(states[k]);
  }

  function CreditOf<T>(phase: Phase<T>): (c: nat) {
    match phase
    case Check(_, c) => c
    case Emptied(_, c, _) => c
    case Second(_, c, _) => c
    case Closing(_, c) => c
    case Popping(_, c, _) => c
    case Moving(_, c, _) => c
    case _ => 0
  }

  /** The semaphore never undercounts before the end: its value, the posts on their way and what the
      consumer in the lock has taken from it without popping yet cover every element still linked. */
  lemma SemaphoreNeverUndercounts<T>(sizes: seq<nat>, states: seq<State<T>>, steps: seq<Step<T>>, k: nat)
    requires Run(sizes, states, steps) && k < |states| && !states[k].finished && !states[k].phase.Tried?
    ensures Shape(states[k])
    ensures var s := states[k];
            s.value + InFlight(s.publishing) + CreditOf(s.phase) >= |Flat(s.chunks)| - |Given(s)|
  {
    RunKeepsInv(sizes, states, steps, k);
  }

  // The step is one that other threads take while a consumer is inside an attempt.
  ghost predicate Meanwhile<T>(steps: seq<Step<T>>, j: nat, k: nat)
    requires k <= |steps|
  {
    forall i :: j <= i < k ==> !steps[i].Resolve?
  }

  // While it is there, the attempt stays what it was and the end stays declared.
  lemma {:induction false} AttemptStays<T>(sizes: seq<nat>, states: seq<State<T>>, steps: seq<Step<T>>, j: nat, k: nat)
    requires Run(sizes, states, steps) && j <= k < |states| && states[j].phase.Tried? && Meanwhile(steps, j, k)
    ensures states[k].phase == states[j].phase && states[k].took == states[j].took
    ensures states[j].finished ==> states[k].finished
  {
    if j < k {
      AttemptStays(sizes, states, steps, j, k - 1);
    }
  }

  /** A consumer does not stay blocked. When completed pushes have left elements, or the end has been
      declared, an attempt made then leaves the wait, whatever pushes are under way and whatever the
      other threads do before the attempt is over. */
  lemma WaiterGetsThrough<T>(sizes: seq<nat>, states: seq<State<T>>, steps: seq<Step<T>>, j: nat, k: nat)
    requires Run(sizes, states, steps) && j < k < |steps| && Shape(states[j])
    requires steps[j].Try? && steps[k].Resolve? && Meanwhile(steps, j, k)
    requires states[j].finished || |Given(states[j])| < states[j].completed
    ensures states[k + 1].phase.Check?
    ensures |Given(states[j])| < states[j].completed ==>
              Shape(states[k + 1]) && |Given(states[k + 1])| < states[k + 1].completed
  {
    hide Given, HandedOk, ProducersOk, PublisherOk;
    RunKeepsInv(sizes, states, steps, j);
    AttemptStays(sizes, states, steps, j + 1, k);
    forall i | j <= i <= k ensures !steps[i].Pop? {
      if j < i < k {
        AttemptStays(sizes, states, steps, j + 1, i);
      }
    }
    GivenStays(sizes, states, steps, j, k + 1);
  }

  /** What an attempt takes from the semaphore: as much as was asked for, but no more than was there when
      it was made, and nothing if there was nothing; whatever else is borrowed goes back. The consumer
      leaves the wait with what it took as its credit. */
  lemma AttemptTakes<T>(sizes: seq<nat>, states: seq<State<T>>, steps: seq<Step<T>>, j: nat, k: nat)
    requires Run(sizes, states, steps) && j < k < |steps| && !states[k].finished
    requires steps[j].Try? && steps[k].Resolve? && Meanwhile(steps, j, k)
    ensures states[j].phase.Waiting?
    ensures var s, t, want := states[j], states[k + 1], states[j].phase.want;
            var got := if s.value <= 0 then 0 else if s.value < want then s.value else want;
            && t.took == s.took + got && t.value == s.value + (t.posted - s.posted) - got
            && (if s.value > 0 then t.phase == Check(want, got) else t.phase == Waiting(want) || t.phase.Out?)
  {
    hide Flat, Given, HandedOk, ProducersOk, PublisherOk, PhaseOk;
    RunKeepsInv(sizes, states, steps, j);
    RunKeepsInv(sizes, states, steps, k + 1);
    AttemptStays(sizes, states, steps, j + 1, k);
  }

  // Outside of pops nothing leaves the chain, and what completed pushes linked only grows.
  lemma {:induction false} GivenStays<T>(sizes: seq<nat>, states: seq<State<T>>, steps: seq<Step<T>>, j: nat, k: nat)
    requires Run(sizes, states, steps) && j <= k < |states| && forall i :: j <= i < k ==> !steps[i].Pop?
    ensures Shape(states[j]) && Shape(states[k])
    ensures |Given(states[k])| == |Given(states[j])| && states[j].completed <= states[k].completed
  {
    hide Inv, Given;
    RunKeepsInv(sizes, states, steps, k);
    InvShape(states[k]);
    if j < k {
      GivenStays(sizes, states, steps, j, k - 1);
      RunKeepsInv(sizes, states, steps, k - 1);
      GivenOfStep(states[k - 1], steps[k - 1]);
      CompletedGrows(states[k - 1], steps[k - 1]);
    }
  }

  lemma InvShape<T>(s: State<T>)
    requires Inv(s)
    ensures Shape(s)
  {
  }

  lemma CompletedGrows<T>(s: State<T>, step: Step<T>)
    requires Inv(s) && Enabled(s, step)
    ensures Next(s, step).completed >= s.completed
  {
    hide Flat, HandedOk, PhaseOk, ProducersOk, PublisherOk;
  }

  // The consumer in the lock is on its way to an answer without another wait.
  ghost predicate Serving<T>(s: State<T>)
    requires Shape(s)
  {
    match s.phase
    case Check(_, _) => |Given(s)| < s.completed
    case Emptied(_, _, hasNext) => hasNext && |Given(s)| < s.completed
    case Second(_, _, _) => |Given(s)| < s.completed
    case Closing(_, _) => |Given(s)| < s.completed
    case Popping(_, _, _) => true
    case Moving(_, _, _) => true
    case _ => false
  }

  lemma StepKeepsServing<T>(s: State<T>, step: Step<T>)
    requires Inv(s) && Enabled(s, step) && Serving(s)
    ensures var t := Next(s, step);
            && Shape(t)
            && if t.answers == s.answers then Serving(t)
               else t.phase.Out? && exists r :: r != [] && t.answers == s.answers + [r]
  {
    hide Flat, Handed, Of, HandedOk, PhaseOk, ProducersOk, PublisherOk, Given;
    var t := Next(s, step);
    GivenOfStep(s, step);
    GivenIsPrefix(s);
    if t.answers != s.answers {
      var r := t.answers[|s.answers|];
      RangesOfAnswer(s, step);
      assert t.answers == s.answers + [r];
    }
  }

  // A request that is being served ends with a range.
  lemma RangesOfAnswer<T>(s: State<T>, step: Step<T>)
    requires Inv(s) && Enabled(s, step) && Serving(s) && Next(s, step).answers != s.answers
    ensures |Next(s, step).answers| == |s.answers| + 1 && Next(s, step).answers[|s.answers|] != []
  {
    hide Flat, Handed, Of, HandedOk, ProducersOk, PublisherOk, Given;
    GivenIsPrefix(s);
  }

  lemma CheckServes<T>(s: State<T>)
    requires Shape(s) && s.phase.Check? && |Given(s)| < s.completed
    ensures Serving(s)
  {
  }

  /** And it does not wait again before it is answered: from the attempt on, while its request is open,
      the consumer is on its way to an answer, and the answer holds elements. */
  lemma {:induction false} ServedWithoutWaiting<T>(sizes: seq<nat>, states: seq<State<T>>, steps: seq<Step<T>>,
                                                   j: nat, k: nat)
    requires Run(sizes, states, steps) && j <= k < |states| && Shape(states[j]) && states[j].phase.Check?
    requires |Given(states[j])| < states[j].completed
    requires forall i :: j <= i < k ==> states[i].answers == states[j].answers
    ensures Shape(states[k])
    ensures if states[k].answers == states[j].answers then Serving(states[k])
            else states[k].phase.Out? && exists r :: r != [] && states[k].answers == states[j].answers + [r]
  {
    hide Inv, Serving, Given, Next, Enabled, Shape;
    if j == k {
      CheckServes(states[j]);
    } else {
      ServedWithoutWaiting(sizes, states, steps, j, k - 1);
      RunKeepsInv(sizes, states, steps, k - 1);
      StepKeepsServing(states[k - 1], steps[k - 1]);
    }
  }

  predicate OfConsumer<T>(step: Step<T>) {
    match step
    case Push(_, _, _) => false
    case PushImmediate(_, _) => false
    case LastChunk(_) => false
    case StoreTail => false
    case Post => false
    case Done(_) => false
    case Finish => false
    case _ => true
  }

  function TakenByConsumer<T>(steps: seq<Step<T>>): (n: nat) {
    if steps == [] then 0
    else TakenByConsumer(steps[..|steps| - 1]) + if OfConsumer(steps[|steps| - 1]) then 1 else 0
  }

  // How far a consumer that is being served is from its answer.
  function Distance<T>(s: State<T>): (n: nat)
    requires Shape(s)
  {
    8 * (|s.chunks| - s.head)
    + match s.phase
      case Check(_, _) => 6
      case Emptied(_, _, _) => 5
      case Second(_, _, _) => 4
      case Closing(_, _) => 3
      case Popping(_, _, _) => 2
      case _ => 1
  }

  lemma StepNearsAnswer<T>(s: State<T>, step: Step<T>)
    requires Inv(s) && Enabled(s, step) && Serving(s) && Next(s, step).answers == s.answers
    ensures var t := Next(s, step);
            && Shape(t) && |t.chunks| >= |s.chunks|
            && Distance(t) + (if OfConsumer(step) then 1 else 0) <= Distance(s) + 8 * (|t.chunks| - |s.chunks|)
  {
    hide Flat, Handed, Of, HandedOk, Booked, ProducersOk, PublisherOk, Given;
    StepKeepsServing(s, step);
  }

  /** It is answered soon: between its attempt and its answer a consumer takes at most as many steps as
      its distance from the end of the chain allows, and eight more for each chunk linked meanwhile. */
  lemma {:induction false} ServedSoon<T>(sizes: seq<nat>, states: seq<State<T>>, steps: seq<Step<T>>, j: nat, k: nat)
    requires Run(sizes, states, steps) && j <= k < |states| && Shape(states[j]) && states[j].phase.Check?
    requires |Given(states[j])| < states[j].completed
    requires forall i :: j <= i <= k ==> states[i].answers == states[j].answers
    ensures Shape(states[k])
    ensures TakenByConsumer(steps[j..k]) + Distance(states[k])
            <= Distance(states[j]) + 8 * (|states[k].chunks| - |states[j].chunks|)
  {
    hide Inv, Serving, Given, Next, Enabled, Shape, Distance;
    if j < k {
      ServedSoon(sizes, states, steps, j, k - 1);
      ServedWithoutWaiting(sizes, states, steps, j, k - 1);
      RunKeepsInv(sizes, states, steps, k - 1);
      assert states[k] == Next(states[k - 1], steps[k - 1]) && states[k - 1].answers == states[j].answers;
      StepNearsAnswer(states[k - 1], steps[k - 1]);
      assert steps[j..k] == steps[j..k - 1] + [steps[k - 1]];
    }
  }

  /** Nobody is stuck. The consumer in the lock can always go on, and so can a producer in the other lock;
      when that is free every producer can push, push ahead of time or leave. */
  lemma NobodyIsStuck<T>(sizes: seq<nat>, states: seq<State<T>>, steps: seq<Step<T>>, k: nat,
                         p: nat, x: T, newSize: nat)
    requires Run(sizes, states, steps) && k < |states| && p < |states[k].producers| && newSize > 0
    ensures Shape(states[k])
    ensures var s := states[k];
            && (!s.phase.Out? ==> exists step :: OfConsumer(step) && Enabled(s, step))
            && (!s.publishing.Free? ==> Enabled(s, StoreTail) || Enabled(s, Post))
            && (s.publishing.Free? && !s.producers[p].left ==>
                  Enabled(s, Push(p, x, newSize)) && Enabled(s, PushImmediate(p, newSize)) && Enabled(s, LastChunk(p)))
            && (s.publishing.Free? && s.producers[p].left && !s.producers[p].done ==> Enabled(s, Done(p)))
  {
    hide Flat, Given, HandedOk, Booked, ProducersOk;
    RunKeepsInv(sizes, states, steps, k);
    var s := states[k];
    if !s.phase.Out? {
      var step: Step<T> := match s.phase {
        case Check(_, _) => Look
        case Emptied(_, _, _) => LookTerminated
        case Waiting(_) => Try
        case Tried(_, _) => Resolve(false)
        case Second(_, _, _) => LookAgain
        case Closing(_, _) => LookClosing
        case Popping(_, _, _) => Pop
        case _ => Move
      };
      assert OfConsumer(step) && Enabled(s, step);
    }
  }

  // ---------- how much an answer holds ----------

  // What an open request still asks for.
  function WantOf<T>(phase: Phase<T>): (n: nat) {
    match phase
    case Out => 0
    case Check(w, _) => w
    case Emptied(w, _, _) => w
    case Waiting(w) => w
    case Tried(w, _) => w
    case Second(w, _, _) => w
    case Closing(w, _) => w
    case Popping(w, _, _) => w
    case Moving(w, _, _) => w
  }

  // A request for so many, made when this much had been given, is open: the ranges in hand are what
  // has been given since, and the rest is still wanted.
  ghost predicate Open<T>(s: State<T>, want: nat, given: seq<T>)
    requires Shape(s)
  {
    && !s.phase.Out? && Given(s) == given + Flat(RangesInHand(s.phase))
    && |Flat(RangesInHand(s.phase))| + WantOf(s.phase) == want
  }

  // The consumer is at the end of what it can see: the chunk it is at has nothing left, and is the
  // last one or the stored tail.
  ghost predicate Exhausted<T>(s: State<T>)
    requires Shape(s)
  {
    Available(s) == 0 && (!HasNext(s) || s.head == s.tail)
  }

  // The request was answered with these ranges.
  ghost predicate Filled<T>(t: State<T>, want: nat, given: seq<T>, r: seq<seq<T>>)
    requires Shape(t)
  {
    && t.phase.Out? && Given(t) == given + Flat(r) && |Flat(r)| <= want && (|Flat(r)| == want || Exhausted(t))
    && (r == [] ==> Terminated(t))
  }

  lemma PopFills<T>(s: State<T>, want: nat, given: seq<T>)
    requires Inv(s) && Enabled(s, Pop) && Open(s, want, given)
    ensures var t := Next(s, Pop);
            && Shape(t)
            && if t.answers == s.answers then Open(t, want, given)
               else exists r :: t.answers == s.answers + [r] && Filled(t, want, given, r)
  {
    hide Flat, Handed, Of, Given, Booked, HandedOk, ProducersOk, PublisherOk, Covered, Terminated;
    var t, n := Next(s, Pop), Min(Available(s), s.phase.want);
    var piece := s.chunks[s.head][s.taken..s.taken + n];
    GivenOfPop(s, n);
    SameGiven(s.(taken := s.taken + n), t);
    FlatOne(s.phase.ranges, piece);
    assert given + Flat(s.phase.ranges) + piece == given + (Flat(s.phase.ranges) + piece);
    if t.answers != s.answers {
      var r := s.phase.ranges + [piece];
      assert t.answers == s.answers + [r] && Filled(t, want, given, r);
    }
  }

  lemma OthersFill<T>(s: State<T>, step: Step<T>, want: nat, given: seq<T>)
    requires Inv(s) && Enabled(s, step) && Open(s, want, given) && !step.Pop?
    ensures var t := Next(s, step);
            && Shape(t)
            && if t.answers == s.answers then t.phase.Out? || Open(t, want, given)
               else exists r :: t.answers == s.answers + [r] && Filled(t, want, given, r)
  {
    hide Flat, Handed, Of, Given, Booked, HandedOk, ProducersOk, PublisherOk, Covered;
    var t := Next(s, step);
    FlatNothing<T>();
    if t.head == s.head {
      LongerChain(s, t);
    } else {
      MovedGiven(s, t);
    }
    if t.answers != s.answers {
      var r := if step.Move? then s.phase.ranges else [];
      assert t.answers == s.answers + [r] && Filled(t, want, given, r);
    }
  }

  lemma EnterOpens<T>(s: State<T>, step: Step<T>)
    requires Shape(s) && Enabled(s, step) && step.Enter?
    ensures var t := Next(s, step);
            && Shape(t) && Open(t, step.want, Given(s))
            && t.answers == s.answers && t.askers == s.askers && t.asker == step.who
  {
    FlatNothing<T>();
    SameGiven(s, Next(s, step));
  }

  // Only the consumer in the lock is answered, and an answer lets it go.
  lemma WhoIsAnswered<T>(s: State<T>, step: Step<T>)
    requires Shape(s) && Enabled(s, step) && !step.Enter?
    ensures var t := Next(s, step);
            && t.asker == s.asker && (s.phase.Out? || t.answers != s.answers ==> t.phase.Out?)
            && (t.answers != s.answers ==> !s.phase.Out?)
            && t.askers == if t.answers == s.answers then s.askers else s.askers + [s.asker]
  {
  }

  // From its entry on a request is open until it is answered or times out.
  lemma {:induction false} RequestIsOpen<T>(sizes: seq<nat>, states: seq<State<T>>, steps: seq<Step<T>>,
                                            j: nat, k: nat)
    requires Run(sizes, states, steps) && j < k < |states| && steps[j].Enter? && !states[k].phase.Out?
    requires forall i :: j < i < k ==> !steps[i].Enter?
    ensures Shape(states[j]) && Shape(states[k]) && Open(states[k], steps[j].want, Given(states[j]))
    ensures states[k].asker == steps[j].who
    ensures states[k].answers == states[j].answers && states[k].askers == states[j].askers
  {
    hide Inv, Given, Next, Enabled, Shape, Filled, Open;
    var s, step := states[k - 1], steps[k - 1];
    RunKeepsInv(sizes, states, steps, k - 1);
    InvShape(s);
    if k == j + 1 {
      EnterOpens(s, step);
    } else {
      WhoIsAnswered(s, step);
      RequestIsOpen(sizes, states, steps, j, k - 1);
      if step.Pop? {
        PopFills(s, steps[j].want, Given(states[j]));
      } else {
        OthersFill(s, step, steps[j].want, Given(states[j]));
      }
    }
  }

  /** An answer holds what its request asked for: exactly the elements that left the chain meanwhile, as
      many as wanted; fewer only if the consumer has taken everything up to the end of the chain or the
      stored tail, and none only when all producers are done. It goes to the consumer that asked. */
  lemma AnswerFillsRequest<T>(sizes: seq<nat>, states: seq<State<T>>, steps: seq<Step<T>>, j: nat, k: nat)
    requires Run(sizes, states, steps) && j < k < |steps| && steps[j].Enter?
    requires (forall i :: j < i <= k ==> !steps[i].Enter?) && states[k + 1].answers != states[k].answers
    ensures Shape(states[j]) && Shape(states[k + 1])
    ensures |states[k + 1].answers| == |states[j].answers| + 1
    ensures var t, r, want := states[k + 1], states[k + 1].answers[|states[j].answers|], steps[j].want;
            && t.answers == states[j].answers + [r] && t.askers == states[j].askers + [steps[j].who]
            && Given(t) == Given(states[j]) + Flat(r) && |Flat(r)| <= want
            && (|Flat(r)| < want ==> Available(t) == 0 && (!HasNext(t) || t.head == t.tail))
            && (r == [] ==> Terminated(t))
  {
    hide Inv, Given, Next, Enabled, Shape, Open;
    var s, step := states[k], steps[k];
    RunKeepsInv(sizes, states, steps, j);
    InvShape(states[j]);
    RunKeepsInv(sizes, states, steps, k);
    InvShape(s);
    WhoIsAnswered(s, step);
    RequestIsOpen(sizes, states, steps, j, k);
    if step.Pop? {
      PopFills(s, steps[j].want, Given(states[j]));
    } else {
      OthersFill(s, step, steps[j].want, Given(states[j]));
    }
  }

  /** A request goes unanswered only if an attempt that found nothing has timed out. */
  lemma UnansweredOnlyByTimeout<T>(sizes: seq<nat>, states: seq<State<T>>, steps: seq<Step<T>>, j: nat, k: nat)
    requires Run(sizes, states, steps) && j < k < |steps| && !states[k].phase.Out? && states[k + 1].phase.Out?
    requires steps[j].Try? && Meanwhile(steps, j, k) && states[k + 1].answers == states[k].answers
    ensures steps[k] == Resolve(true) && !states[k].finished && states[j].value <= 0
  {
    hide Flat, Inv, Given;
    AttemptStays(sizes, states, steps, j + 1, k);
  }

  /** What `completed` stands for: the elements linked by the pushes that have posted. It changes with
      a post alone, and between pushes it is all that is linked. */
  lemma CompletedIsLinked<T>(sizes: seq<nat>, states: seq<State<T>>, steps: seq<Step<T>>, k: nat)
    requires Run(sizes, states, steps) && k < |states|
    ensures states[k].publishing.Free? ==> states[k].completed == |Flat(states[k].chunks)|
    ensures k > 0 ==>
              states[k].completed == if steps[k - 1].Post? then |Flat(states[k].chunks)| else states[k - 1].completed
  {
    hide Flat, HandedOk, PhaseOk, ProducersOk, PublisherOk;
    RunKeepsInv(sizes, states, steps, k);
    if k > 0 {
      assert states[k] == Next(states[k - 1], steps[k - 1]);
    }
  }

  /** The two inconsistencies the code checks for never occur: the tail has no successor when a
      producer links to it, and a chunk that is left has one. */
  lemma ChecksNeverFail<T>(sizes: seq<nat>, states: seq<State<T>>, steps: seq<Step<T>>, k: nat)
    requires Run(sizes, states, steps) && k < |states|
    ensures states[k].publishing.Free? ==> states[k].tail + 1 == |states[k].chunks|
    ensures states[k].phase.Moving? || (states[k].phase.Emptied? && states[k].phase.hasNext) ==> HasNext(states[k])
  {
    hide HandedOk, Booked, ProducersOk, PublisherOk;
    RunKeepsInv(sizes, states, steps, k);
  }

  // ---------- what the semaphore counts ----------

  // The value, with what is on its way to it and what an attempt has borrowed from it.
  function Counted<T>(s: State<T>): (c: int) {
    s.value + InFlight(s.publishing) + if s.phase.Tried? then s.phase.want else 0
  }

  function Unpopped<T>(s: State<T>): (n: int)
    requires Shape(s)
  {
    |Flat(s.chunks)| - |Given(s)|
  }

  /** In every reachable state the semaphore is off by what was posted beyond the links and what was
      popped, less what was taken from it. */
  lemma SemaphoreLedger<T>(sizes: seq<nat>, states: seq<State<T>>, steps: seq<Step<T>>, k: nat)
    requires Run(sizes, states, steps) && k < |states|
    ensures Shape(states[k])
    ensures Counted(states[k]) - Unpopped(states[k]) == states[k].over + |Given(states[k])| - states[k].took
  {
    RunKeepsInv(sizes, states, steps, k);
  }

  // What a chunk pushed ahead of time lacks of a full one.
  function Missing<T>(s: State<T>, step: Step<T>): (n: int)
    requires Shape(s) && Enabled(s, step)
  {
    if step.PushImmediate? then s.producers[step.p].size - |s.producers[step.p].chunk| else 0
  }

  // What a pop removes although the consumer has not taken it from the semaphore.
  function Untaken<T>(s: State<T>, step: Step<T>): (n: nat)
    requires Shape(s) && Enabled(s, step)
  {
    if step.Pop? && Min(Available(s), s.phase.want) > s.phase.credit
    then Min(Available(s), s.phase.want) - s.phase.credit else 0
  }

  // How much the semaphore counts beyond the linked elements, the credit of the consumer included.
  function Excess<T>(s: State<T>): (e: int)
    requires Shape(s)
  {
    Counted(s) + CreditOf(s.phase) - Unpopped(s)
  }

  lemma OverOfStep<T>(s: State<T>, step: Step<T>)
    requires Inv(s) && Enabled(s, step)
    ensures Next(s, step).over == s.over + Missing(s, step) && Missing(s, step) >= 0
  {
    match step
    case Push(p, x, _) =>
      var q := s.producers[p];
      FlatAdd<T>([q.chunk], [[x]]);
      FlatSingle(q.chunk);
      FlatSingle([x]);
      assert [q.chunk, [x]] == [q.chunk] + [[x]];
    case PushImmediate(p, _) => FlatSingle(s.producers[p].chunk);
    case LastChunk(p) => FlatSingle(s.producers[p].chunk);
    case _ =>
  }

  // What is linked later does not change what has been given.
  lemma LongerChain<T>(s: State<T>, t: State<T>)
    requires Shape(s) && Shape(t) && s.head == t.head && s.taken == t.taken && s.chunks <= t.chunks
    ensures Given(t) == Given(s)
  {
    assert t.chunks[..s.head] == s.chunks[..s.head] && t.chunks[s.head] == s.chunks[s.head];
  }

  lemma GivenOfStep<T>(s: State<T>, step: Step<T>)
    requires Inv(s) && Enabled(s, step)
    ensures Shape(Next(s, step))
    ensures |Given(Next(s, step))| == |Given(s)| + if step.Pop? then Min(Available(s), s.phase.want) else 0
  {
    hide Flat, Handed, Of, Given, Booked, HandedOk, ProducersOk, PublisherOk, Covered;
    var t := Next(s, step);
    if step.Pop? {
      var n := Min(Available(s), s.phase.want);
      GivenOfPop(s, n);
      SameGiven(s.(taken := s.taken + n), t);
    } else if t.head == s.head {
      LongerChain(s, t);
    } else {
      MovedGiven(s, t);
    }
  }

  /** Before the end, the excess grows by exactly what an early push lacks and by what is popped
      untaken; a step that does neither can only lower it. It is never negative. */
  lemma ExcessOfStep<T>(s: State<T>, step: Step<T>)
    requires Inv(s) && Enabled(s, step) && !Next(s, step).finished
    ensures Shape(Next(s, step))
    ensures 0 <= Excess(Next(s, step)) <= Excess(s) + Missing(s, step) + Untaken(s, step)
    ensures Missing(s, step) + Untaken(s, step) > 0 ==>
              Excess(Next(s, step)) == Excess(s) + Missing(s, step) + Untaken(s, step)
  {
    hide Flat, Handed, Of, Given, HandedOk, ProducersOk, PublisherOk;
    StepKeepsInv(s, step);
    OverOfStep(s, step);
    GivenOfStep(s, step);
  }

  /** Exactly when the count is exact. Up to a state before the end the semaphore has counted the
      linked elements precisely, the consumer's credit included, if and only if no chunk was pushed
      ahead of time with elements missing and no element was popped that had not been taken first. */
  lemma {:induction false} CountIsExactIff<T>(sizes: seq<nat>, states: seq<State<T>>, steps: seq<Step<T>>, k: nat)
    requires Run(sizes, states, steps) && k < |states| && !states[k].finished
    ensures forall j :: 0 <= j <= k ==> Shape(states[j])
    ensures (forall j :: 0 <= j <= k ==> Excess(states[j]) == 0) <==>
            (forall i :: 0 <= i < k ==> Missing(states[i], steps[i]) == 0 && Untaken(states[i], steps[i]) == 0)
  {
    hide Excess, Missing, Untaken, Inv;
    RunKeepsInv(sizes, states, steps, k);
    if k == 0 {
      NoExcessAtFirst<T>(sizes);
    } else {
      assert !states[k - 1].finished;
      CountIsExactIff(sizes, states, steps, k - 1);
      RunKeepsInv(sizes, states, steps, k - 1);
      ExcessOfStep(states[k - 1], steps[k - 1]);
      OverOfStep(states[k - 1], steps[k - 1]);
    }
  }

  lemma NoExcessAtFirst<T>(sizes: seq<nat>)
    ensures Shape<T>(Init(sizes)) && Excess<T>(Init(sizes)) == 0
  {
    FlatSingle<T>([]);
  }

  ghost predicate Takes<T>(s: State<T>, step: Step<T>, t: State<T>) {
    Shape(s) && Enabled(s, step) && t == Next(s, step)
  }

  // Two elements fill the producer's chunk, the third links it and a chunk for itself.
  lemma ThreePushes(s0: State<int>) returns (s1: State<int>, s2: State<int>, s3: State<int>)
    requires s0 == Init([2])
    ensures Takes(s0, Push(0, 1, 2), s1) && Takes(s1, Push(0, 2, 2), s2) && Takes(s2, Push(0, 3, 2), s3)
    ensures s3 == State([[], [1, 2], [3]], [0, 0, 0], [Producer([], 2, false, false, [1, 2, 3])], Linked(0, 3),
                        0, 0, 0, 0, false, Out, [], 0, 0, 0, 0, 0, 0, [])
  {
    s1 := Next(s0, Push(0, 1, 2));
    assert s1.producers[0] == Producer([1], 2, false, false, [1]);
    s2 := Next(s1, Push(0, 2, 2));
    assert [1] + [2] == [1, 2];
    assert s2.producers[0] == Producer([1, 2], 2, false, false, [1, 2]);
    s3 := Next(s2, Push(0, 3, 2));
    FlatOne<int>([[1, 2]], [3]);
    FlatSingle<int>([1, 2]);
    assert [[1, 2], [3]] == [[1, 2]] + [[3]];
    assert s3.chunks == [[], [1, 2], [3]] && s3.owners == [0, 0, 0];
    assert [1, 2] + [3] == [1, 2, 3];
    assert s3.producers == [Producer([], 2, false, false, [1, 2, 3])];
  }

  lemma ThreeLinked(chunks: seq<seq<int>>)
    requires chunks == [[], [1, 2], [3]]
    ensures |Flat(chunks)| == 3 && |Flat(chunks[..1])| == 0
  {
    FlatUpTo(chunks, 0);
    FlatUpTo(chunks, 1);
    FlatUpTo(chunks, 2);
    assert chunks[..3] == chunks && chunks[..0] == [];
  }

  // The chain of the witness, as a state in which a request for two has got to a phase.
  function Witness(publishing: Publishing, tail: nat, head: nat, value: nat, phase: Phase<int>): (s: State<int>) {
    State([[], [1, 2], [3]], [0, 0, 0], [Producer([], 2, false, false, [1, 2, 3])], publishing, tail,
          head, 0, value, false, phase, [], value, 0, 0, value, 0, 0, [])
  }

  lemma Published()
    ensures Takes(Witness(Linked(0, 3), 0, 0, 0, Out), StoreTail, Witness(Tailed(0, 3), 2, 0, 0, Out))
    ensures Takes(Witness(Tailed(0, 3), 2, 0, 0, Out), Post, Witness(Free, 2, 0, 3, Out))
  {
    ThreeLinked([[], [1, 2], [3]]);
    hide Flat;
  }

  lemma Asked()
    ensures Takes(Witness(Free, 2, 0, 3, Out), Enter(0, 2), Witness(Free, 2, 0, 3, Check(2, 0)))
    ensures Takes(Witness(Free, 2, 0, 3, Check(2, 0)), Look, Witness(Free, 2, 0, 3, Emptied(2, 0, true)))
    ensures Takes(Witness(Free, 2, 0, 3, Emptied(2, 0, true)), LookTerminated, Witness(Free, 2, 1, 3, Check(2, 0)))
  {
    hide Flat;
    assert !Witness(Free, 2, 0, 3, Out).producers[0].done;
    assert !Terminated(Witness(Free, 2, 0, 3, Emptied(2, 0, true)));
  }

  lemma Found()
    ensures Takes(Witness(Free, 2, 1, 3, Check(2, 0)), Look, Witness(Free, 2, 1, 3, Second(2, 0, true)))
    ensures Takes(Witness(Free, 2, 1, 3, Second(2, 0, true)), LookAgain, Witness(Free, 2, 1, 3, Popping(2, 0, [])))
  {
    hide Flat;
    assert !Witness(Free, 2, 1, 3, Second(2, 0, true)).producers[0].done;
    assert !Terminated(Witness(Free, 2, 1, 3, Second(2, 0, true)));
  }

  lemma ConsumerSteps(s3: State<int>) returns (ts: seq<State<int>>)
    requires s3 == Witness(Linked(0, 3), 0, 0, 0, Out)
    ensures |ts| == 9 && ts[0] == s3
    ensures Takes(s3, StoreTail, ts[1]) && Takes(ts[1], Post, ts[2]) && Takes(ts[2], Enter(0, 2), ts[3])
    ensures Takes(ts[3], Look, ts[4]) && Takes(ts[4], LookTerminated, ts[5]) && Takes(ts[5], Look, ts[6])
    ensures Takes(ts[6], LookAgain, ts[7]) && Takes(ts[7], Pop, ts[8])
    ensures ts[8] == s3.(tail := 2, publishing := Free, value := 3, posted := 3, completed := 3, head := 1, taken := 2,
                         answers := [[[1, 2]]], askers := [0])
  {
    hide Takes;
    Published();
    Asked();
    Found();
    var s10 := Witness(Free, 2, 1, 3, Popping(2, 0, []));
    var s11 := s10.(taken := 2, phase := Out, answers := [[[1, 2]]], askers := [0]);
    LastPop(s10, s11);
    ts := [s3, Witness(Tailed(0, 3), 2, 0, 0, Out), Witness(Free, 2, 0, 3, Out), Witness(Free, 2, 0, 3, Check(2, 0)),
           Witness(Free, 2, 0, 3, Emptied(2, 0, true)), Witness(Free, 2, 1, 3, Check(2, 0)),
           Witness(Free, 2, 1, 3, Second(2, 0, true)), s10, s11];
  }

  /** The count need not be exact without early pushes: a consumer that finds the chain filled pops
      without waiting. Three elements, a consumer that asks for two and gets them, and the value is
      still three with one element left. */
  lemma PoppingWithoutWaiting() returns (states: seq<State<int>>, steps: seq<Step<int>>)
    ensures Run([2], states, steps) && |steps| == 11
    ensures forall i :: 0 <= i < |steps| ==> !steps[i].PushImmediate?
    ensures var s := states[11];
            s.publishing.Free? && s.phase.Out? && s.over == 0 && s.value == 3
            && Shape(s) && |Given(s)| == 2 && |Flat(s.chunks)| == 3
  {
    hide Flat, Given, Next, Enabled, Shape, Takes;
    steps := [Push(0, 1, 2), Push(0, 2, 2), Push(0, 3, 2), StoreTail, Post,
              Enter(0, 2), Look, LookTerminated, Look, LookAgain, Pop];
    var s0: State<int> := Init([2]);
    var s1, s2, s3 := ThreePushes(s0);
    var ts := ConsumerSteps(s3);
    states := [s0, s1, s2] + ts;
    ThreeLinked(s3.chunks);
    TwoGiven(ts[8]);
    assert states[11] == ts[8];
    forall i | 0 <= i < |steps| ensures Takes(states[i], steps[i], states[i + 1]) {
      assert i > 2 ==> states[i] == ts[i - 3] && states[i + 1] == ts[i - 2];
    }
    RunOfTakes([2], states, steps);
  }

  lemma RunOfTakes<T>(sizes: seq<nat>, states: seq<State<T>>, steps: seq<Step<T>>)
    requires Sizes(sizes) && |states| == |steps| + 1 && states[0] == Init(sizes)
    requires forall i {:trigger steps[i]} :: 0 <= i < |steps| ==> Takes(states[i], steps[i], states[i + 1])
    ensures Run(sizes, states, steps)
  {
    forall i | 0 <= i < |steps|
      ensures Shape(states[i]) && Enabled(states[i], steps[i]) && states[i + 1] == Next(states[i], steps[i])
    {
      assert Takes(states[i], steps[i], states[i + 1]);
    }
  }

  lemma LastPop(s: State<int>, t: State<int>)
    requires s.chunks == [[], [1, 2], [3]] && |s.owners| == 3 && s.head == 1 && s.taken == 0 && s.answers == []
    requires s.asker == 0 && s.askers == [] && s.phase == Popping(2, 0, [])
    requires t == s.(taken := 2, phase := Out, answers := [[[1, 2]]], askers := [0])
    ensures Takes(s, Pop, t)
  {
    assert s.chunks[1][0..2] == [1, 2];
    assert [] + [s.chunks[1][0..2]] == [[1, 2]];
    assert Next(s, Pop).answers == [[[1, 2]]] && Next(s, Pop).askers == [0];
  }

  lemma TwoGiven(s: State<int>)
    requires s.chunks == [[], [1, 2], [3]] && |s.owners| == 3 && s.head == 1 && s.taken == 2
    ensures Shape(s) && |Given(s)| == 2
  {
    ThreeLinked(s.chunks);
  }

  // ---------- walking through an answer ----------

  // The step to state k answers the request of this consumer.
  ghost predicate Closes<T>(states: seq<State<T>>, k: nat, who: nat, answer: seq<seq<T>>) {
    && 0 < k < |states| && states[k].answers == states[k - 1].answers + [answer]
    && states[k].askers == states[k - 1].askers + [who]
  }

  /** The elements of the last answer and a cursor on them. */
  class Elements<T> {
    var ranges: seq<seq<T>>
    var currentRange: nat
    var currentIndex: nat

    // The cursor is never at the end of a range or on an empty one.
    ghost predicate Valid()
      reads this
    {
      && (ranges != [] ==> ranges[0] != [])
      && currentRange <= |ranges|
      && (if currentRange == |ranges| then currentIndex == 0 else currentIndex < |ranges[currentRange]|)
    }

    ghost function Rest(): (s: seq<T>)
      reads this
      requires Valid()
    {
      if currentRange == |ranges| then [] else ranges[currentRange][currentIndex..] + Flat(ranges[currentRange + 1..])
    }

    constructor ()
      ensures Valid() && Rest() == []
    {
      ranges, currentRange, currentIndex := [], 0, 0;
    }

    method Set(rs: seq<seq<T>>)
      requires rs != [] ==> rs[0] != []
      modifies this
      ensures Valid() && ranges == rs && Rest() == Flat(rs)
    {
      ranges, currentRange, currentIndex := rs, 0, 0;
      if rs != [] {
        FlatFirst(rs[0], rs[1..]);
        assert rs == [rs[0]] + rs[1..];
      }
    }

    method NextElement() returns (r: Option<T>)
      requires Valid()
      modifies this`currentRange, this`currentIndex
      ensures Valid()
      ensures old(Rest()) == [] ==> r == None && Rest() == []
      ensures old(Rest()) != [] ==> r == Some(old(Rest())[0]) && Rest() == old(Rest())[1..]
    {
      hide Flat;
      if currentRange == |ranges| {
        return None;
      }
      ghost var rest := Rest();
      r := Some(ranges[currentRange][currentIndex]);
      currentIndex := currentIndex + 1;
      if currentIndex == |ranges[currentRange]| {
        assert rest[1..] == Flat(ranges[currentRange + 1..]);
        SkipEmpty();
      }
    }

    // On to the next range that holds something.
    method SkipEmpty()
      requires currentRange < |ranges| && currentIndex == |ranges[currentRange]| && ranges[0] != []
      modifies this`currentRange, this`currentIndex
      ensures Valid() && Rest() == old(Flat(ranges[currentRange + 1..]))
    {
      hide Flat;
      currentRange := currentRange + 1;
      currentIndex := 0;
      while currentRange != |ranges| && |ranges[currentRange]| == 0
        invariant currentRange <= |ranges| && currentIndex == 0
        invariant Flat(ranges[currentRange..]) == old(Flat(ranges[currentRange + 1..]))
      {
        FlatFirst(ranges[currentRange], ranges[currentRange + 1..]);
        assert ranges[currentRange..] == [ranges[currentRange]] + ranges[currentRange + 1..];
        currentRange := currentRange + 1;
      }
      if currentRange < |ranges| {
        FlatFirst(ranges[currentRange], ranges[currentRange + 1..]);
        assert ranges[currentRange..] == [ranges[currentRange]] + ranges[currentRange + 1..];
      } else {
        FlatNothing<T>();
      }
    }

    /** The pop of a consumer. It asks the chain only when its last answer is used up; `answer` is then
        what the chain answers it, in some run of all threads. Elements come out one by one in the order
        of its answers, and none only when all producers are done and everything is handed out. */
    method PopElement(who: nat, answer: seq<seq<T>>, ghost sizes: seq<nat>, ghost states: seq<State<T>>,
                      ghost steps: seq<Step<T>>, ghost k: nat)
      returns (r: Option<T>, asked: bool)
      requires Valid() && Run(sizes, states, steps) && (Rest() == [] ==> Closes(states, k, who, answer))
      modifies this
      ensures Valid() && (asked <==> old(Rest()) == [])
      ensures r == None <==> asked && answer == []
      ensures r.Some? ==> [r.value] + Rest() == if asked then Flat(answer) else old(Rest())
      ensures r == None ==> k < |states| && Terminated(states[k])
                            && Handed(states[k].answers) + Flat(RangesInHand(states[k].phase)) == Flat(states[k].chunks)
    {
      hide Run, Handed, Shape, Given, Flat;
      asked := ranges == [] || currentRange == |ranges|;
      if asked {
        ghost var n := |states[k].answers| - 1;
        HandedOutInOrder(sizes, states, steps, k);
        assert answer == states[k].answers[n];
        if answer == [] {
          EmptyAnswerOnlyAtTheEnd(sizes, states, steps, k);
        } else {
          assert answer == [answer[0]] + answer[1..];
          FlatFirst(answer[0], answer[1..]);
        }
        Set(answer);
      }
      r := NextElement();
    }
  }
}
