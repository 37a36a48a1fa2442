/** Deduplicate, compress and write as steps on shared chunk headers, in any order the pipeline
    allows, and what the decoder makes of the archive they leave. */
module Dedup {
  import opened Wrappers
  import opened Chunks
  import opened HashTables
  import opened Archive

  // ---------- headers and steps ----------

  datatype Progress = Uncompressed | Compressed | Flushed

  /** A chunk's header: before deduplication, the original of its sum, or a reference to it. */
  datatype Header = Raw | Original(state: Progress) | Duplicate(ref: nat)

  /** The chunks in input order and how they are summed and compressed. */
  datatype Job = Job(data: seq<Bytes>, kind: bv8, codec: Codec) {
    function Sum(i: nat): (k: Key)
      requires i < |data|
    {
      codec.digest(data[i])
    }

    function DataRecord(i: nat): (r: Record)
      requires i < |data|
    {
      Data(codec.Compressed(kind, data[i]))
    }
  }

  datatype State = State(headers: seq<Header>, index: map<Key, nat>, written: nat, out: seq<Record>)

  datatype Step = Deduplicate(i: nat) | Compress(i: nat) | Write

  function Init(job: Job): (s: State) {
    State(seq(|job.data|, _ => Raw), map[], 0, [])
  }

  // The chunk whose header a chunk's writer looks at.
  function OriginOf(h: Header, i: nat): (o: nat) {
    if h.Duplicate? then h.ref else i
  }

  /** A chunk is written in its turn; the writer waits for the data of its original. */
  predicate Enabled(job: Job, s: State, step: Step)
    requires |s.headers| == |job.data|
  {
    match step
    case Deduplicate(i) => i < |s.headers| && s.headers[i].Raw?
    case Compress(i) => i < |s.headers| && s.headers[i] == Original(Uncompressed)
    case Write =>
      && s.written < |s.headers| && !s.headers[s.written].Raw?
      && var o := OriginOf(s.headers[s.written], s.written);
         o < |s.headers| && s.headers[o].Original? && s.headers[o].state != Uncompressed
  }

  function Next(job: Job, s: State, step: Step): (t: State)
    requires |s.headers| == |job.data| && Enabled(job, s, step)
  {
    match step
    case Deduplicate(i) =>
      if job.Sum(i) in s.index
      then s.(headers := s.headers[i := Duplicate(s.index[job.Sum(i)])])
      else s.(headers := s.headers[i := Original(Uncompressed)], index := s.index[job.Sum(i) := i])
    case Compress(i) => s.(headers := s.headers[i := Original(Compressed)])
    case Write =>
      var o := OriginOf(s.headers[s.written], s.written);
      if s.headers[o].state == Compressed
      then s.(headers := s.headers[o := Original(Flushed)], written := s.written + 1,
              out := s.out + [job.DataRecord(o)])
      else s.(written := s.written + 1, out := s.out + [Fingerprint(job.Sum(o))])
  }

  /** The states of a run. */
  ghost predicate Run(job: Job, states: seq<State>, steps: seq<Step>) {
    && |states| == |steps| + 1 && states[0] == Init(job)
    && forall i :: 0 <= i < |steps| ==>
         |states[i].headers| == |job.data| && Enabled(job, states[i], steps[i])
         && states[i + 1] == Next(job, states[i], steps[i])
  }

  // ---------- what every step keeps ----------

  // Headers and the database agree: one original per sum, found under its sum.
  ghost predicate Deduplicated(job: Job, s: State) {
    && |s.headers| == |job.data|
    && (forall d :: d in s.index ==>
          s.index[d] < |job.data| && s.headers[s.index[d]].Original? && job.Sum(s.index[d]) == d)
    && (forall i :: 0 <= i < |s.headers| && !s.headers[i].Raw? ==>
          job.Sum(i) in s.index
          && (s.headers[i].Original? ==> s.index[job.Sum(i)] == i)
          && (s.headers[i].Duplicate? ==> s.index[job.Sum(i)] == s.headers[i].ref))
  }

  // The original of a chunk that has been deduplicated.
  function Origin(job: Job, s: State, i: nat): (o: nat)
    requires Deduplicated(job, s) && i < |job.data| && !s.headers[i].Raw?
    ensures o < |job.data| && s.headers[o].Original? && job.Sum(o) == job.Sum(i)
    ensures o == OriginOf(s.headers[i], i) == s.index[job.Sum(i)]
  {
    s.index[job.Sum(i)]
  }

  // The first of the written chunks with its sum carries the data, the others the sum.
  ghost predicate FirstOfSum(job: Job, j: nat)
    requires j < |job.data|
  {
    forall i :: 0 <= i < j ==> job.Sum(i) != job.Sum(j)
  }

  ghost predicate Recorded(job: Job, s: State)
    requires Deduplicated(job, s)
  {
    && s.written == |s.out| <= |job.data|
    && (forall j :: 0 <= j < s.written ==> !s.headers[j].Raw? && s.out[j] == RecordOf(job, s, j))
  }

  ghost function RecordOf(job: Job, s: State, j: nat): (r: Record)
    requires Deduplicated(job, s) && j < |job.data| && !s.headers[j].Raw?
  {
    if FirstOfSum(job, j) then job.DataRecord(Origin(job, s, j)) else Fingerprint(job.Sum(j))
  }

  ghost predicate SumWritten(job: Job, k: Key, written: nat)
    requires written <= |job.data|
  {
    exists j :: 0 <= j < written && job.Sum(j) == k
  }

  // An original is flushed once a chunk with its sum has been written.
  ghost predicate FlushedByFirst(job: Job, s: State)
    requires Deduplicated(job, s) && s.written <= |job.data|
  {
    forall o :: 0 <= o < |s.headers| && s.headers[o].Original? ==>
      (s.headers[o].state == Flushed <==> SumWritten(job, job.Sum(o), s.written))
  }

  ghost predicate Inv(job: Job, s: State) {
    Deduplicated(job, s) && Recorded(job, s) && FlushedByFirst(job, s)
  }

  lemma InitInv(job: Job)
    ensures Inv(job, Init(job))
  {
  }

  // No step changes the origin of a chunk.
  ghost predicate OriginsStay(job: Job, s: State, t: State)
    requires Deduplicated(job, s) && Deduplicated(job, t)
  {
    forall i :: 0 <= i < |job.data| && !s.headers[i].Raw? ==>
             !t.headers[i].Raw? && Origin(job, t, i) == Origin(job, s, i)
  }

  lemma StepKeepsDeduplicated(job: Job, s: State, step: Step)
    requires Deduplicated(job, s) && Enabled(job, s, step)
    ensures Deduplicated(job, Next(job, s, step)) && OriginsStay(job, s, Next(job, s, step))
  {
    if step.Deduplicate? {
      DeduplicateKeepsDeduplicated(job, s, step.i);
    } else {
      var o := if step.Write? then OriginOf(s.headers[s.written], s.written) else step.i;
      var t := Next(job, s, step);
      assert t.headers == s.headers[o := t.headers[o]];
    }
  }

  lemma DeduplicateKeepsDeduplicated(job: Job, s: State, i: nat)
    requires Deduplicated(job, s) && Enabled(job, s, Deduplicate(i))
    ensures var t := Next(job, s, Deduplicate(i)); Deduplicated(job, t) && OriginsStay(job, s, t)
  {
  }

  lemma WhatWriteDoes(job: Job, s: State)
    requires Inv(job, s) && Enabled(job, s, Write)
    ensures var t, w, o := Next(job, s, Write), s.written, Origin(job, s, s.written);
            t == State(s.headers[o := Original(Flushed)], s.index, w + 1, s.out + [RecordOf(job, s, w)])
  {
    var w := s.written;
    var o := Origin(job, s, w);
    assert FirstOfSum(job, w) <==> !SumWritten(job, job.Sum(w), w);
    assert s.headers[o].state == Flushed ==> s.headers[o := Original(Flushed)] == s.headers;
  }

  lemma WriteKeepsRecorded(job: Job, s: State)
    requires Inv(job, s) && Enabled(job, s, Write)
    ensures var t := Next(job, s, Write); Deduplicated(job, t) && Recorded(job, t)
  {
    hide RecordOf, FlushedByFirst, OriginsStay;
    StepKeepsDeduplicated(job, s, Write);
    WhatWriteDoes(job, s);
    RecordsStay(job, s, Next(job, s, Write));
  }

  lemma RecordsStay(job: Job, s: State, t: State)
    requires Deduplicated(job, s) && Deduplicated(job, t) && OriginsStay(job, s, t)
    ensures forall j :: 0 <= j < |job.data| && !s.headers[j].Raw? ==> RecordOf(job, t, j) == RecordOf(job, s, j)
  {
    hide Deduplicated;
  }

  lemma OriginOfOriginal(job: Job, s: State, i: nat)
    requires Deduplicated(job, s) && i < |job.data| && !s.headers[i].Raw?
    ensures forall o :: 0 <= o < |job.data| && s.headers[o].Original? && job.Sum(o) == job.Sum(i) ==>
              o == Origin(job, s, i)
  {
  }

  lemma WriteKeepsFlushed(job: Job, s: State)
    requires Inv(job, s) && Enabled(job, s, Write)
    ensures var t := Next(job, s, Write); Deduplicated(job, t) && t.written <= |job.data| && FlushedByFirst(job, t)
  {
    hide Next, RecordOf, Recorded, OriginsStay;
    StepKeepsDeduplicated(job, s, Write);
    WhatWriteDoes(job, s);
    var t, w, o := Next(job, s, Write), s.written, Origin(job, s, s.written);
    OriginOfOriginal(job, s, w);
    forall q | 0 <= q < |t.headers| && t.headers[q].Original?
      ensures t.headers[q].state == Flushed <==> SumWritten(job, job.Sum(q), t.written)
    {
      if job.Sum(w) == job.Sum(q) {
        assert q == o;
      } else {
        assert t.headers[q] == s.headers[q];
        assert SumWritten(job, job.Sum(q), t.written) <==> SumWritten(job, job.Sum(q), w);
      }
    }
  }

  lemma OthersKeepRecorded(job: Job, s: State, step: Step)
    requires Inv(job, s) && Enabled(job, s, step) && !step.Write?
    ensures var t := Next(job, s, step); Deduplicated(job, t) && Recorded(job, t)
  {
    hide RecordOf, FlushedByFirst, OriginsStay;
    StepKeepsDeduplicated(job, s, step);
    RecordsStay(job, s, Next(job, s, step));
  }

  lemma OthersKeepFlushed(job: Job, s: State, step: Step)
    requires Inv(job, s) && Enabled(job, s, step) && !step.Write?
    ensures var t := Next(job, s, step); Deduplicated(job, t) && t.written <= |job.data| && FlushedByFirst(job, t)
  {
    hide RecordOf, OriginsStay;
    StepKeepsDeduplicated(job, s, step);
  }

  lemma StepKeepsInv(job: Job, s: State, step: Step)
    requires Inv(job, s) && Enabled(job, s, step)
    ensures Inv(job, Next(job, s, step))
  {
    hide Deduplicated, Recorded, FlushedByFirst, Next, Enabled;
    if step.Write? {
      WriteKeepsRecorded(job, s);
      WriteKeepsFlushed(job, s);
    } else {
      OthersKeepRecorded(job, s, step);
      OthersKeepFlushed(job, s, step);
    }
  }

  /** Whatever the interleaving. */
  lemma {:induction false} RunKeepsInv(job: Job, states: seq<State>, steps: seq<Step>, k: nat)
    requires Run(job, states, steps) && k < |states|
    ensures Inv(job, states[k])
  {
    if k == 0 {
      InitInv(job);
    } else {
      RunKeepsInv(job, states, steps, k - 1);
      StepKeepsInv(job, states[k - 1], steps[k - 1]);
    }
  }

  // ---------- main results about the records ----------

  /** At every moment a sum that has been seen has exactly one original, and the duplicates of that
      sum refer to it. */
  lemma OneOriginalPerSum(job: Job, states: seq<State>, steps: seq<Step>, k: nat, i: nat)
    requires Run(job, states, steps) && k < |states| && i < |job.data|
    requires |states[k].headers| == |job.data| && !states[k].headers[i].Raw?
    ensures exists o :: 0 <= o < |job.data| && states[k].headers[o].Original? && job.Sum(o) == job.Sum(i)
                        && (forall q ::
                              0 <= q < |job.data| && job.Sum(q) == job.Sum(i) && !states[k].headers[q].Raw? ==>
                              (states[k].headers[q].Original? && q == o) || states[k].headers[q] == Duplicate(o))
  {
    RunKeepsInv(job, states, steps, k);
    var o := Origin(job, states[k], i);
  }

  /** The data records are those of the first chunk of each sum, so no sum has two. */
  lemma DataRecordsAreFirsts(job: Job, states: seq<State>, steps: seq<Step>, k: nat, j: nat)
    requires Run(job, states, steps) && k < |states| && j < |states[k].out|
    ensures j < |job.data| && (states[k].out[j].Data? <==> FirstOfSum(job, j))
  {
    RunKeepsInv(job, states, steps, k);
  }

  /** A fingerprint record comes after a data record whose contents have that sum. */
  lemma FingerprintsFollowData(job: Job, states: seq<State>, steps: seq<Step>, k: nat, j: nat)
    requires Run(job, states, steps) && k < |states| && j < |states[k].out|
    requires states[k].out[j].Fingerprint?
    ensures exists i, o :: 0 <= i < j && 0 <= o < |job.data| && states[k].out[i] == job.DataRecord(o)
                           && states[k].out[j].sha1 == job.Sum(o)
  {
    var s := states[k];
    RunKeepsInv(job, states, steps, k);
    var i := FirstWith(job, j);
    assert s.out[i] == job.DataRecord(Origin(job, s, i));
  }

  // The first chunk with the sum of chunk j.
  lemma {:induction false} FirstWith(job: Job, j: nat) returns (i: nat)
    requires j < |job.data|
    ensures i <= j && job.Sum(i) == job.Sum(j) && FirstOfSum(job, i)
    ensures FirstOfSum(job, j) ==> i == j
  {
    if FirstOfSum(job, j) {
      i := j;
    } else {
      var p :| 0 <= p < j && job.Sum(p) == job.Sum(j);
      i := FirstWith(job, p);
    }
  }

  // ---------- no run is stuck, and every run ends ----------

  ghost predicate Finished(job: Job, s: State) {
    s.written == |job.data|
  }

  lemma SomethingCanHappen(job: Job, s: State) returns (step: Step)
    requires Inv(job, s) && !Finished(job, s)
    ensures Enabled(job, s, step)
  {
    if s.headers[s.written].Raw? {
      step := Deduplicate(s.written);
    } else {
      var o := Origin(job, s, s.written);
      step := if s.headers[o].state == Uncompressed then Compress(o) else Write;
    }
  }

  function Weight(hs: seq<Header>): (n: nat) {
    if hs == [] then 0 else
      Weight(hs[..|hs| - 1]) + match hs[|hs| - 1] { case Raw => 2 case Original(Uncompressed) => 1 case _ => 0 }
  }

  lemma {:induction false} WeightOfChange(hs: seq<Header>, i: nat, h: Header)
    requires i < |hs|
    ensures Weight(hs[i := h]) == Weight(hs) - Weight([hs[i]]) + Weight([h])
  {
    assert [hs[i]][..0] == [] && [h][..0] == [];
    var n := |hs| - 1;
    if i < n {
      WeightOfChange(hs[..n], i, h);
      assert hs[i := h][..n] == hs[..n][i := h];
    } else {
      assert hs[i := h][..n] == hs[..n];
    }
  }

  function ToDo(job: Job, s: State): (n: int) {
    Weight(s.headers) + |job.data| - s.written
  }

  lemma StepMakesProgress(job: Job, s: State, step: Step)
    requires |s.headers| == |job.data| && s.written <= |job.data| && Enabled(job, s, step)
    ensures 0 <= ToDo(job, Next(job, s, step)) < ToDo(job, s)
  {
    var o := if step.Write? then OriginOf(s.headers[s.written], s.written) else step.i;
    WeightOfChange(s.headers, o, Next(job, s, step).headers[o]);
    assert [s.headers[o]][..0] == [] && [Next(job, s, step).headers[o]][..0] == [];
    assert s.headers[o := s.headers[o]] == s.headers;
  }

  /** No run takes more than three steps per chunk. */
  lemma {:induction false} RunsAreShort(job: Job, states: seq<State>, steps: seq<Step>, k: nat)
    requires Run(job, states, steps) && k < |states|
    ensures k + ToDo(job, states[k]) <= 3 * |job.data|
  {
    if k == 0 {
      WeightOfRaw(|job.data|);
    } else {
      RunsAreShort(job, states, steps, k - 1);
      RunKeepsInv(job, states, steps, k - 1);
      StepMakesProgress(job, states[k - 1], steps[k - 1]);
    }
  }

  lemma {:induction false} WeightOfRaw(n: nat)
    ensures Weight(seq(n, _ => Raw)) == 2 * n
  {
    if n > 0 {
      WeightOfRaw(n - 1);
      assert seq(n, _ => Raw)[..n - 1] == seq(n - 1, _ => Raw);
    }
  }

  // ---------- what the decoder makes of it ----------

  // The sizes the encoder can write: a record's length fits the int that write returns.
  ghost predicate Writable(job: Job) {
    forall i :: 0 <= i < |job.data| ==> |job.codec.Compressed(job.kind, job.data[i])| < 0x8000_0000
  }

  function ArchiveOf(job: Job, s: State): (file: Bytes) {
    FileHeader(job.kind) + Serialized(s.out)
  }

  // The originals of the chunks written.
  function Origins(job: Job, s: State): (os: seq<nat>)
    requires Inv(job, s)
    ensures |os| == s.written && forall i :: 0 <= i < |os| ==> os[i] < |job.data|
  {
    seq(s.written, i requires 0 <= i < s.written => Origin(job, s, i))
  }

  // Originals and records fit: chunks of one sum share one original, which has that sum.
  ghost predicate Explains(job: Job, os: seq<nat>, out: seq<Record>) {
    && |os| == |out| <= |job.data|
    && (forall i :: 0 <= i < |os| ==> os[i] < |job.data| && job.Sum(os[i]) == job.Sum(i))
    && (forall i, j :: 0 <= i < |os| && 0 <= j < |os| && job.Sum(i) == job.Sum(j) ==> os[i] == os[j])
    && (forall i :: 0 <= i < |os| ==>
          out[i] == if FirstOfSum(job, i) then job.DataRecord(os[i]) else Fingerprint(job.Sum(i)))
  }

  lemma RecordsExplained(job: Job, s: State)
    requires Inv(job, s)
    ensures Explains(job, Origins(job, s), s.out)
  {
  }

  // The data of the originals, chunk by chunk.
  function DataOf(job: Job, os: seq<nat>): (ds: seq<Bytes>)
    requires forall i :: 0 <= i < |os| ==> os[i] < |job.data|
    ensures |ds| == |os|
  {
    seq(|os|, i requires 0 <= i < |os| => job.data[os[i]])
  }

  ghost predicate AllDecodable(job: Job, ds: seq<Bytes>) {
    forall i :: 0 <= i < |ds| ==> job.codec.Decodable(job.kind, ds[i])
  }

  // The decoder knows the sums of the first chunks, each with the data it gives back for it.
  ghost predicate Knows(job: Job, ds: seq<Bytes>, known: map<Key, Bytes>)
    requires |ds| <= |job.data|
  {
    && (forall i :: 0 <= i < |ds| ==> job.Sum(i) in known && known[job.Sum(i)] == ds[i])
    && (forall d :: d in known ==> SumWritten(job, d, |ds|))
  }

  lemma KnowsOneMore(job: Job, ds: seq<Bytes>, x: Bytes, known: map<Key, Bytes>)
    requires |ds| < |job.data| && Knows(job, ds, known)
    requires forall i :: 0 <= i < |ds| && job.Sum(i) == job.Sum(|ds|) ==> ds[i] == x
    ensures Knows(job, ds + [x], known[job.Sum(|ds|) := x])
  {
    var j := |ds|;
    forall d | d in known ensures SumWritten(job, d, j + 1) {
      assert SumWritten(job, d, j);
    }
  }

  lemma DecodableData(codec: Codec, kind: bv8, d: Decoded, data: Bytes)
    requires codec.Inverse(kind) && |codec.Compressed(kind, data)| < 0x8000_0000
    ensures var r := Take(codec, kind, d, Data(codec.Compressed(kind, data)));
            && (r.Ok? <==> codec.Decodable(kind, data))
            && (r.Ok? ==> r.value == Decoded(d.known[codec.digest(data) := data], d.chunks + [data]))
  {
    if kind != COMPRESS_NONE {
      assert codec.uncompress(kind, codec.compress(kind, data)) == Some(data);
    }
  }

  lemma ExplainsLess(job: Job, os: seq<nat>, out: seq<Record>)
    requires Explains(job, os, out) && os != []
    ensures var n := |os| - 1;
            && |os| == |out| && Explains(job, os[..n], out[..n]) && NextRecord(job, DataOf(job, os[..n]), os[n], out[n])
            && DataOf(job, os) == DataOf(job, os[..n]) + [job.data[os[n]]]
  {
    var n := |os| - 1;
    assert os == os[..n] + [os[n]];
    assert forall i :: 0 <= i < n ==> os[..n][i] == os[i] && out[..n][i] == out[i];
  }

  // After the originals' data ds the next record is the data of original o, or its sum.
  ghost predicate NextRecord(job: Job, ds: seq<Bytes>, o: nat, r: Record) {
    && |ds| < |job.data| && o < |job.data| && job.Sum(o) == job.Sum(|ds|)
    && (forall i :: 0 <= i < |ds| && job.Sum(i) == job.Sum(|ds|) ==> ds[i] == job.data[o])
    && r == if FirstOfSum(job, |ds|) then job.DataRecord(o) else Fingerprint(job.Sum(|ds|))
  }

  // What the decoder has when it has taken the records of the chunks: their originals' data.
  ghost predicate Given(job: Job, ds: seq<Bytes>, r: Result<Decoded, Failure>)
    requires |ds| <= |job.data|
  {
    && (r.Ok? <==> AllDecodable(job, ds))
    && (r.Ok? ==> r.value.chunks == ds && Knows(job, ds, r.value.known))
  }

  lemma {:induction false} TakeAllOfRun(job: Job, os: seq<nat>, out: seq<Record>)
    requires Explains(job, os, out) && job.codec.Inverse(job.kind) && Writable(job)
    ensures Given(job, DataOf(job, os), TakeAll(job.codec, job.kind, out))
  {
    if os != [] {
      hide Given, NextRecord, Take, Writable, Codec.Inverse;
      var n := |os| - 1;
      ExplainsLess(job, os, out);
      TakeAllOfRun(job, os[..n], out[..n]);
      TakeOneOfRun(job, DataOf(job, os[..n]), os[n], out[n], TakeAll(job.codec, job.kind, out[..n]));
    }
  }

  lemma TakeOneOfRun(job: Job, ds: seq<Bytes>, o: nat, r: Record, t: Result<Decoded, Failure>)
    requires NextRecord(job, ds, o, r) && job.codec.Inverse(job.kind) && Writable(job) && Given(job, ds, t)
    ensures Given(job, ds + [job.data[o]], match t case Err(f) => Err(f) case Ok(d) => Take(job.codec, job.kind, d, r))
  {
    var sum, x := job.Sum(|ds|), job.data[o];
    hide Codec.Decodable, Knows, Codec.Inverse;
    assert AllDecodable(job, ds + [x]) <==> AllDecodable(job, ds) && job.codec.Decodable(job.kind, x) by {
      assert forall i :: 0 <= i < |ds| ==> (ds + [x])[i] == ds[i];
      assert (ds + [x])[|ds|] == x;
    }
    if t.Ok? {
      DecodableData(job.codec, job.kind, t.value, x);
      KnowsOneMore(job, ds, x, t.value.known);
      if !FirstOfSum(job, |ds|) {
        AlreadyKnown(job, ds, x, t.value.known);
        assert t.value.known[sum := x] == t.value.known;
      }
    }
  }

  lemma AlreadyKnown(job: Job, ds: seq<Bytes>, x: Bytes, known: map<Key, Bytes>)
    requires |ds| < |job.data| && Knows(job, ds, known) && AllDecodable(job, ds) && !FirstOfSum(job, |ds|)
    requires forall i :: 0 <= i < |ds| && job.Sum(i) == job.Sum(|ds|) ==> ds[i] == x
    ensures job.Sum(|ds|) in known && known[job.Sum(|ds|)] == x && job.codec.Decodable(job.kind, x)
  {
    var i :| 0 <= i < |ds| && job.Sum(i) == job.Sum(|ds|);
  }

  lemma RecordsAreReadable(job: Job, os: seq<nat>, out: seq<Record>)
    requires Explains(job, os, out) && Writable(job)
    ensures forall i :: 0 <= i < |out| ==> Readable(out[i])
  {
    hide Readable;
    forall i | 0 <= i < |out| ensures Readable(out[i]) {
      SmallIsReadable(out[i]);
    }
  }

  /** The decoder gives back, chunk by chunk, the data of the originals; it fails exactly when one of
      them is beyond it. */
  lemma DecodedOfRun(job: Job, states: seq<State>, steps: seq<Step>, k: nat)
    requires Run(job, states, steps) && k < |states| && job.codec.Inverse(job.kind) && Writable(job)
    ensures Inv(job, states[k])
    ensures var s := states[k];
            var r, ds := DecodedFile(job.codec, ArchiveOf(job, s)), DataOf(job, Origins(job, s));
            (r.Ok? <==> AllDecodable(job, ds)) && (r.Ok? ==> r.value == ds)
  {
    hide Readable;
    var s := states[k];
    RunKeepsInv(job, states, steps, k);
    RecordsExplained(job, s);
    TakeAllOfRun(job, Origins(job, s), s.out);
    RecordsAreReadable(job, Origins(job, s), s.out);
    DecodedOfSerialized(job.codec, job.kind, s.out);
  }

  // No two different chunks of the input have the same sum.
  ghost predicate NoCollision(job: Job) {
    forall i, j :: 0 <= i < |job.data| && 0 <= j < |job.data| && job.Sum(i) == job.Sum(j) ==> job.data[i] == job.data[j]
  }

  lemma OriginalDataIsInput(job: Job, os: seq<nat>, out: seq<Record>)
    requires Explains(job, os, out) && |os| == |job.data|
    ensures DataOf(job, os) == job.data <==> NoCollision(job)
  {
    var ds := DataOf(job, os);
    assert forall i :: 0 <= i < |os| ==> ds[i] == job.data[os[i]];
    if NoCollision(job) {
      assert ds == job.data;
    }
  }

  /** The archive of a finished run decodes to the input exactly when no two different chunks
      collide and every chunk is within the decoder's reach; the schedule does not matter. */
  lemma RoundTripIff(job: Job, states: seq<State>, steps: seq<Step>, k: nat)
    requires Run(job, states, steps) && k < |states| && job.codec.Inverse(job.kind) && Writable(job)
    requires Finished(job, states[k])
    ensures DecodedFile(job.codec, ArchiveOf(job, states[k])) == Ok(job.data) <==>
            NoCollision(job) && AllDecodable(job, job.data)
  {
    var s := states[k];
    DecodedOfRun(job, states, steps, k);
    RecordsExplained(job, s);
    OriginalDataIsInput(job, Origins(job, s), s.out);
  }

  /** The run on a single chunk. */
  lemma SingleChunkRun(job: Job) returns (states: seq<State>, steps: seq<Step>)
    requires |job.data| == 1
    ensures Run(job, states, steps) && |steps| == 3 && Finished(job, states[3])
  {
    var index := map[job.Sum(0) := 0];
    var s0 := Init(job);
    var s1 := State([Original(Uncompressed)], index, 0, []);
    var s2 := State([Original(Compressed)], index, 0, []);
    var s3 := State([Original(Flushed)], index, 1, [job.DataRecord(0)]);
    hide Job.Sum, Job.DataRecord;
    assert Next(job, s0, Deduplicate(0)) == s1 by {
      assert s0.headers[0 := Original(Uncompressed)] == s1.headers && map[][job.Sum(0) := 0] == index;
    }
    assert Next(job, s1, Compress(0)) == s2 by {
      assert s1.headers[0 := Original(Compressed)] == s2.headers;
    }
    assert Next(job, s2, Write) == s3 by {
      assert s2.headers[0 := Original(Flushed)] == s3.headers;
    }
    states, steps := [s0, s1, s2, s3], [Deduplicate(0), Compress(0), Write];
  }

  /** The decoder's buffer is a real limit: whatever the library and the sums, a run on one chunk above
      it ends with an archive that does not decode. */
  lemma LargeChunkIsLost(job: Job, chunk: Bytes) returns (states: seq<State>, steps: seq<Step>)
    requires job.data == [chunk] && |chunk| > UNCOMPRESS_BOUND && job.kind != COMPRESS_NONE
    requires job.codec.Inverse(job.kind) && |job.codec.compress(job.kind, chunk)| < 0x8000_0000
    ensures Run(job, states, steps) && |steps| == 3 && Finished(job, states[3]) && NoCollision(job)
    ensures DecodedFile(job.codec, ArchiveOf(job, states[3])).Err?
  {
    states, steps := SingleChunkRun(job);
    SingleChunkIsLost(job, states, steps);
  }

  // The finished archive of a single chunk above the buffer.
  lemma SingleChunkIsLost(job: Job, states: seq<State>, steps: seq<Step>)
    requires |job.data| == 1 && |job.data[0]| > UNCOMPRESS_BOUND && job.kind != COMPRESS_NONE
    requires job.codec.Inverse(job.kind) && Writable(job)
    requires Run(job, states, steps) && Finished(job, states[|steps|])
    ensures DecodedFile(job.codec, ArchiveOf(job, states[|steps|])).Err?
  {
    hide DecodedFile, ArchiveOf, Inv, Codec.Inverse;
    DecodedOfRun(job, states, steps, |steps|);
    var ds := DataOf(job, Origins(job, states[|steps|]));
    assert ds[0] == job.data[0];
    assert !job.codec.Decodable(job.kind, ds[0]);
  }

  /** What one pass in input order writes. */
  ghost function SerialRecords(job: Job): (rs: seq<Record>)
    ensures |rs| == |job.data|
  {
    seq(|job.data|, i requires 0 <= i < |job.data| =>
      if FirstOfSum(job, i) then job.DataRecord(i) else Fingerprint(job.Sum(i)))
  }

  /** Every schedule writes the same file as the serial encoder, byte for byte. */
  lemma ParallelEqualsSerial(job: Job, states: seq<State>, steps: seq<Step>, k: nat)
    requires Run(job, states, steps) && k < |states| && NoCollision(job)
    requires Finished(job, states[k])
    ensures states[k].out == SerialRecords(job)
    ensures ArchiveOf(job, states[k]) == FileHeader(job.kind) + Serialized(SerialRecords(job))
  {
    var s := states[k];
    RunKeepsInv(job, states, steps, k);
    forall j | 0 <= j < |job.data| ensures s.out[j] == SerialRecords(job)[j] {
      assert job.Sum(Origin(job, s, j)) == job.Sum(j);
    }
    assert |s.out| == |job.data|;
  }
}
