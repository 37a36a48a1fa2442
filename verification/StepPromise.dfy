/** A promise that publishes a growing index only every `step` indices. One producer sets, each
    consumer caches the last index it has seen published. */
module StepPromise {

  // A difference of indices as the comparison with the unsigned step sees it.
  function AsUnsigned(d: int): (u: nat) {
    d % 0x1_0000_0000
  }

  /** Does setting this index publish it? */
  predicate Publishes(current: int, index: int, step: nat) {
    step == 1 || AsUnsigned(index - current) >= step
  }

  function AfterSet(current: int, index: int, step: nat): (published: int) {
    if Publishes(current, index, step) then index else current
  }

  const MAX_INDEX := 0x7fff_fffe

  predicate Step(step: nat) {
    0 < step < 0x8000_0000
  }

  /** Setting increasing indices publishes one of them, and lags by less than the step. */
  lemma LagIsBelowStep(current: int, index: int, step: nat)
    requires Step(step) && -1 <= current < index <= MAX_INDEX
    ensures current <= AfterSet(current, index, step) <= index
    ensures index - AfterSet(current, index, step) < step
    ensures AfterSet(current, index, step) == (if index - current >= step then index else current)
  {
  }

  /** Not so when the index does not grow: the unsigned comparison then publishes at once, and what
      was published shrinks. */
  lemma SettingBackPublishes(current: int, index: int, step: nat)
    requires Step(step) && -1 <= index < current <= MAX_INDEX
    ensures AfterSet(current, index, step) == index < current
  {
  }

  // ---------- one promise, its producer and its consumers, step by step ----------

  /** What a consumer is doing: not in get; in get and about to look; asleep; past the wait. */
  datatype Getter = Idle | Asking(index: int) | Asleep(index: int) | Ready(index: int)

  datatype Answer = Answer(thread: nat, index: int, published: int)

  datatype State = State(strong: int, current: int, weak: seq<int>, getters: seq<Getter>, last: int,
                         answers: seq<Answer>)

  /** Sleeping belongs to the variant with the condition variable, the others spin. */
  datatype Action =
    | Set(index: int) | SetImmediate(index: int)
    | Call(thread: nat, index: int) | Cached(thread: nat) | Look(thread: nat)
    | Sleep(thread: nat) | Refresh(thread: nat)

  function Init(threads: nat): (s: State) {
    State(-1, -1, seq(threads, _ => -1), seq(threads, _ => Idle), -1, [])
  }

  function Woken(gs: seq<Getter>): (r: seq<Getter>)
    ensures |r| == |gs|
    ensures forall t :: 0 <= t < |gs| ==> r[t] == if gs[t].Asleep? then Asking(gs[t].index) else gs[t]
  {
    seq(|gs|, t requires 0 <= t < |gs| => if gs[t].Asleep? then Asking(gs[t].index) else gs[t])
  }

  function Publish(s: State, index: int): (t: State) {
    s.(strong := index, current := index, getters := Woken(s.getters))
  }

  ghost predicate Shape(s: State) {
    |s.weak| == |s.getters|
  }

  // The producer sets increasing indices.
  ghost predicate Enabled(step: nat, s: State, a: Action)
    requires Shape(s)
  {
    match a
    case Set(i) => s.last < i <= MAX_INDEX
    case SetImmediate(i) => s.last < i <= MAX_INDEX
    case Call(t, i) => t < |s.getters| && s.getters[t] == Idle
    case Cached(t) => t < |s.getters| && s.getters[t].Asking? && s.weak[t] >= s.getters[t].index
    case Look(t) => t < |s.getters| && s.getters[t].Asking? && s.strong >= s.getters[t].index
    case Sleep(t) =>
      && t < |s.getters| && s.getters[t].Asking?
      && s.weak[t] < s.getters[t].index && s.strong < s.getters[t].index
    case Refresh(t) => t < |s.getters| && s.getters[t].Ready?
  }

  function Next(step: nat, s: State, a: Action): (t: State)
    requires Shape(s) && Enabled(step, s, a)
  {
    match a
    case Set(i) =>
      var s := s.(last := i);
      if Publishes(s.current, i, step) then Publish(s, i) else s
    case SetImmediate(i) => Publish(s.(last := i), i)
    case Call(t, i) => s.(getters := s.getters[t := Asking(i)])
    case Cached(t) =>
      s.(getters := s.getters[t := Idle], answers := s.answers + [Answer(t, s.getters[t].index, s.strong)])
    case Look(t) => s.(getters := s.getters[t := Ready(s.getters[t].index)])
    case Sleep(t) => s.(getters := s.getters[t := Asleep(s.getters[t].index)])
    case Refresh(t) =>
      s.(weak := s.weak[t := s.strong], getters := s.getters[t := Idle],
         answers := s.answers + [Answer(t, s.getters[t].index, s.strong)])
  }

  ghost predicate Inv(step: nat, s: State) {
    && Shape(s) && s.strong == s.current
    && -1 <= s.strong <= s.last <= MAX_INDEX && s.last - s.strong < step
    && (forall t :: 0 <= t < |s.weak| ==> s.weak[t] <= s.strong)
    && (forall t :: 0 <= t < |s.getters| ==>
          match s.getters[t]
          case Ready(i) => i <= s.strong
          case Asleep(i) => s.strong < i
          case _ => true)
    && (forall k :: 0 <= k < |s.answers| ==> s.answers[k].index <= s.answers[k].published <= s.strong)
  }

  lemma StepKeepsInv(step: nat, s: State, a: Action)
    requires Step(step) && Inv(step, s) && Enabled(step, s, a)
    ensures Inv(step, Next(step, s, a)) && s.strong <= Next(step, s, a).strong
  {
    if a.Set? {
      LagIsBelowStep(s.current, a.index, step);
    }
  }

  ghost predicate Run(step: nat, threads: nat, states: seq<State>, actions: seq<Action>) {
    && |states| == |actions| + 1 && states[0] == Init(threads)
    && forall i :: 0 <= i < |actions| ==>
         Shape(states[i]) && Enabled(step, states[i], actions[i]) && states[i + 1] == Next(step, states[i], actions[i])
  }

  /** In every run: what is published lags the last set index by less than the step, no cache is
      ahead of it, every answered get saw its index published, and nobody sleeps on an index that is
      published already. */
  lemma {:induction false} RunKeepsInv(step: nat, threads: nat, states: seq<State>, actions: seq<Action>, k: nat)
    requires Step(step) && Run(step, threads, states, actions) && k < |states|
    ensures Inv(step, states[k])
  {
    if k > 0 {
      RunKeepsInv(step, threads, states, actions, k - 1);
      StepKeepsInv(step, states[k - 1], actions[k - 1]);
    }
  }

  lemma {:induction false} PublishedNeverShrinks(step: nat, threads: nat, states: seq<State>, actions: seq<Action>,
                                                 j: nat, k: nat)
    requires Step(step) && Run(step, threads, states, actions) && j <= k < |states|
    ensures states[j].strong <= states[k].strong
  {
    if j < k {
      PublishedNeverShrinks(step, threads, states, actions, j, k - 1);
      RunKeepsInv(step, threads, states, actions, k - 1);
      StepKeepsInv(step, states[k - 1], actions[k - 1]);
    }
  }

  /** Sets are batched: in every run a set publishes its index exactly from a distance of a step on, and
      otherwise neither publishes nor wakes anybody. */
  lemma SetsAreBatched(step: nat, threads: nat, states: seq<State>, actions: seq<Action>, k: nat)
    requires Step(step) && Run(step, threads, states, actions) && k < |actions| && actions[k].Set?
    ensures var s, t, i := states[k], states[k + 1], actions[k].index;
            if i - s.strong >= step then t.strong == i else t.strong == s.strong && t.getters == s.getters
  {
    RunKeepsInv(step, threads, states, actions, k);
    LagIsBelowStep(states[k].current, actions[k].index, step);
  }

  /** A look is worth its price: from then on that thread is served from its cache whatever had been
      published when it looked. */
  lemma {:induction false} CachedForGood(step: nat, threads: nat, states: seq<State>, actions: seq<Action>,
                                         j: nat, k: nat, t: nat)
    requires Step(step) && Run(step, threads, states, actions) && j < k < |states| && actions[j] == Refresh(t)
    ensures t < |states[k].weak| == |states[k].getters| && states[k].weak[t] >= states[j].strong
    ensures states[k].getters[t].Asking? && states[k].getters[t].index <= states[j].strong ==>
              Enabled(step, states[k], Cached(t))
  {
    RunKeepsInv(step, threads, states, actions, k - 1);
    assert states[k] == Next(step, states[k - 1], actions[k - 1]);
    if j < k - 1 {
      CachedForGood(step, threads, states, actions, j, k - 1, t);
    }
  }

  /** After the closing set of index n, in whatever state the run is then, a get of an index up to n
      never blocks: it is not asleep and its next step is there. */
  lemma ClosingSetReleasesGetters(step: nat, threads: nat, states: seq<State>, actions: seq<Action>, j: nat, k: nat,
                                  t: nat)
    requires Step(step) && Run(step, threads, states, actions) && j < k < |states|
    requires actions[j].SetImmediate? && t < |states[k].getters|
    requires !states[k].getters[t].Idle? && states[k].getters[t].index <= actions[j].index
    ensures Shape(states[k]) && states[k].strong >= actions[j].index
    ensures Enabled(step, states[k], Look(t)) || Enabled(step, states[k], Refresh(t))
  {
    RunKeepsInv(step, threads, states, actions, k);
    PublishedNeverShrinks(step, threads, states, actions, j + 1, k);
  }

  // ---------- the object ----------

  class Promise {
    const step: nat
    var strong: int
    var current: int
    var weak: array<int>

    ghost predicate Valid()
      reads this, weak
    {
      && Step(step) && strong == current
      && forall t :: 0 <= t < weak.Length ==> weak[t] <= strong
    }

    constructor (step: nat, threads: nat)
      requires Step(step)
      ensures Valid() && fresh(weak) && weak.Length == threads && this.step == step && strong == -1
      ensures weak[..] == Init(threads).weak
    {
      this.step := step;
      strong, current := -1, -1;
      weak := new int[threads](_ => -1);
    }

    method Set(index: int)
      requires Valid() && current < index <= MAX_INDEX && current >= -1
      modifies this
      ensures Valid() && weak == old(weak) && strong == AfterSet(old(strong), index, step)
    {
      LagIsBelowStep(current, index, step);
      if step == 1 || AsUnsigned(index - current) >= step {
        current := index;
        strong := index;
      }
    }

    method SetImmediate(index: int)
      requires Valid() && current <= index
      modifies this
      ensures Valid() && weak == old(weak) && strong == index
    {
      current := index;
      strong := index;
    }

    /** Called where the wait would end: the cache is asked first and refreshed only when it is too
        old. */
    method Get(thread: nat, index: int)
      requires Valid() && thread < weak.Length && index <= strong
      modifies weak
      ensures Valid() && weak[thread] >= index
      ensures weak[thread] == if old(weak[thread]) >= index then old(weak[thread]) else strong
      ensures forall t :: 0 <= t < weak.Length && t != thread ==> weak[t] == old(weak[t])
    {
      if weak[thread] < index {
        var readyIndex := strong;
        assert readyIndex >= index;
        weak[thread] := strong;
      }
    }
  }
}
