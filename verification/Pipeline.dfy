/** From a file to its archive and back: cut, put in order, deduplicate, compress, write, decode. */
module Pipeline {
  import opened Sequences
  import opened Chunks
  import opened Archive
  import opened Dedup
  import Reorder
  import Chunking

  /** The data of the chunks, in the order in which the writer gets them. */
  function Datas(cs: seq<Chunk>): (ds: seq<Bytes>)
    ensures |ds| == |cs|
  {
    seq(|cs|, i requires 0 <= i < |cs| => cs[i].data)
  }

  lemma {:induction false} DatasAreTheData(cs: seq<Chunk>)
    ensures Flat(Datas(cs)) == Reorder.DataOf(cs)
  {
    if cs != [] {
      var n := |cs| - 1;
      DatasAreTheData(cs[..n]);
      assert Datas(cs)[..n] == Datas(cs[..n]);
    }
  }

  // ---------- from any arrival order to the writer's order ----------

  // What the reorder stage has written when all chunks of the plan have arrived, in some order.
  ghost predicate WrittenFor(plan: Reorder.Plan, arrivals: seq<Chunk>, written: seq<Chunk>) {
    && Reorder.Arrivals(plan, arrivals) && Reorder.Complete(plan, arrivals)
    && exists s :: Reorder.Frontier(plan, arrivals, s) && written == Reorder.Before(plan, s)
  }

  /** Either variant of the stage on any complete arrival order: if it stays inside its table it has
      written the chunks in the order of the input and the flush succeeds. */
  method PutInOrder(ghost plan: Reorder.Plan, arrivals: seq<Chunk>, ahead: bool)
    returns (written: seq<Chunk>, ok: bool, overrun: bool)
    requires Reorder.Arrivals(plan, arrivals) && Reorder.Complete(plan, arrivals)
    ensures overrun <==> if ahead then Reorder.AheadOverruns(plan, arrivals) else Reorder.CachedOverruns(plan, arrivals)
    ensures !overrun ==> ok && WrittenFor(plan, arrivals, written)
  {
    var reached;
    if ahead {
      written, ok, overrun, reached := Reorder.RunWriteAhead(plan, arrivals);
    } else {
      written, ok, overrun, reached := Reorder.RunCached(plan, arrivals);
    }
    if !overrun {
      Reorder.VariantsAgree(plan, arrivals, arrivals, reached, reached);
    }
  }

  lemma WrittenInOrder(plan: Reorder.Plan, arrivals: seq<Chunk>, written: seq<Chunk>)
    requires WrittenFor(plan, arrivals, written)
    ensures written == Reorder.InOrder(plan)
  {
    var s :| Reorder.Frontier(plan, arrivals, s) && written == Reorder.Before(plan, s);
    Reorder.FrontierOfComplete(plan, arrivals, s);
  }

  /** What the encoder works on: the chunks in the order in which they are written. */
  function JobOf(written: seq<Chunk>, kind: bv8, codec: Codec): (job: Job) {
    Job(Datas(written), kind, codec)
  }

  lemma JobHoldsTheFile(file: Bytes, tab: seq<bv32>, win: seq<bv32>, arrivals: seq<Chunk>, written: seq<Chunk>)
    requires Chunking.Tables(tab, win) && WrittenFor(Chunking.PlanOf(file, tab, win), arrivals, written)
    ensures Flat(Datas(written)) == file
    ensures forall i :: 0 <= i < |written| ==> 0 < |Datas(written)[i]| <= |file|
  {
    var plan := Chunking.PlanOf(file, tab, win);
    WrittenInOrder(plan, arrivals, written);
    Chunking.CutsRestoreTheFile(file, tab, win);
    DatasAreTheData(written);
    Reorder.BeforeIsOrder(plan, Reorder.End(plan));
    forall i | 0 <= i < |written| ensures 0 < |written[i].data| <= |file| {
      assert written[i] in written;
      PartIsSmaller(Datas(written), i);
    }
  }

  lemma {:induction false} PartIsSmaller(ds: seq<Bytes>, i: nat)
    requires i < |ds|
    ensures |ds[i]| <= |Flat(ds)|
  {
    if i < |ds| - 1 {
      PartIsSmaller(ds[..|ds| - 1], i);
    }
  }

  // ---------- from a file to its archive and back ----------

  /** A file is cut, its chunks arrive at the writer in any order, and the stages run in any
      interleaving: the archive of the finished run decodes to the file, if no two different chunks
      of it have the same sum and the decoder's buffer holds each chunk. */
  lemma ArchiveRestoresTheFile(file: Bytes, tab: seq<bv32>, win: seq<bv32>, arrivals: seq<Chunk>, written: seq<Chunk>,
                               kind: bv8, codec: Codec, states: seq<State>, steps: seq<Step>, k: nat)
    requires Chunking.Tables(tab, win) && WrittenFor(Chunking.PlanOf(file, tab, win), arrivals, written)
    requires codec.Inverse(kind)
    requires var job := JobOf(written, kind, codec);
             && Run(job, states, steps) && k < |states| && Finished(job, states[k])
             && Writable(job) && NoCollision(job) && AllDecodable(job, job.data)
    ensures var r := DecodedFile(codec, ArchiveOf(JobOf(written, kind, codec), states[k]));
            r.Ok? && Flat(r.value) == file
  {
    JobHoldsTheFile(file, tab, win, arrivals, written);
    RoundTripIff(JobOf(written, kind, codec), states, steps, k);
  }

  /** Without compression nothing about the chunks is left to ask: a file below 2 GiB comes back
      whenever its chunks do not collide. */
  lemma UncompressedArchiveRestoresTheFile(file: Bytes, tab: seq<bv32>, win: seq<bv32>, arrivals: seq<Chunk>,
                                           written: seq<Chunk>, codec: Codec, states: seq<State>, steps: seq<Step>,
                                           k: nat)
    requires Chunking.Tables(tab, win) && WrittenFor(Chunking.PlanOf(file, tab, win), arrivals, written)
    requires |file| < 0x8000_0000
    requires var job := JobOf(written, COMPRESS_NONE, codec);
             Run(job, states, steps) && k < |states| && Finished(job, states[k]) && NoCollision(job)
    ensures var r := DecodedFile(codec, ArchiveOf(JobOf(written, COMPRESS_NONE, codec), states[k]));
            r.Ok? && Flat(r.value) == file
  {
    JobHoldsTheFile(file, tab, win, arrivals, written);
    ArchiveRestoresTheFile(file, tab, win, arrivals, written, COMPRESS_NONE, codec, states, steps, k);
  }

  /** With a compression library there are files that do not come back, of every size above the
      decoder's buffer: a file without anchors is one chunk. They do not depend on the library or the
      sums; every library that inverts, and compresses the file to below 2 GiB, loses them. */
  lemma LargeFile(n: nat, tab: seq<bv32>, win: seq<bv32>) returns (file: Bytes)
    requires Chunking.Tables(tab, win) && n > UNCOMPRESS_BOUND
    ensures |file| == n && Chunking.PlanOf(file, tab, win) == [[file]]
    ensures forall kind: bv8, codec: Codec ::
              kind != COMPRESS_NONE && codec.Inverse(kind) && |codec.compress(kind, file)| < 0x8000_0000 ==>
              Lost(file, tab, win, kind, codec)
  {
    file := Chunking.FileWithoutAnchors(n, tab, win);
    forall kind: bv8, codec: Codec |
      kind != COMPRESS_NONE && codec.Inverse(kind) && |codec.compress(kind, file)| < 0x8000_0000
      ensures Lost(file, tab, win, kind, codec)
    {
      LargeFileIsLost(file, tab, win, kind, codec);
    }
  }

  // Some finished run on the file leaves an archive that does not decode, though no sums collide.
  ghost predicate Lost(file: Bytes, tab: seq<bv32>, win: seq<bv32>, kind: bv8, codec: Codec)
    requires Chunking.Tables(tab, win)
  {
    exists arrivals, written, states, steps :: LostIn(file, tab, win, kind, codec, arrivals, written, states, steps)
  }

  ghost predicate LostIn(file: Bytes, tab: seq<bv32>, win: seq<bv32>, kind: bv8, codec: Codec,
                         arrivals: seq<Chunk>, written: seq<Chunk>, states: seq<State>, steps: seq<Step>)
    requires Chunking.Tables(tab, win)
  {
    var job := JobOf(written, kind, codec);
    && WrittenFor(Chunking.PlanOf(file, tab, win), arrivals, written)
    && Run(job, states, steps) && Finished(job, states[|steps|]) && NoCollision(job)
    && DecodedFile(codec, ArchiveOf(job, states[|steps|])).Err?
  }

  lemma LargeFileIsLost(file: Bytes, tab: seq<bv32>, win: seq<bv32>, kind: bv8, codec: Codec)
    requires Chunking.Tables(tab, win) && Chunking.PlanOf(file, tab, win) == [[file]] && |file| > UNCOMPRESS_BOUND
    requires kind != COMPRESS_NONE && codec.Inverse(kind) && |codec.compress(kind, file)| < 0x8000_0000
    ensures Lost(file, tab, win, kind, codec)
  {
    hide Codec.Inverse, Run, DecodedFile, ArchiveOf, Finished, NoCollision, Chunking.PlanOf;
    var chunk := OnlyChunk(file);
    var job := JobOf([chunk], kind, codec);
    assert job.data == [file];
    var states, steps := LargeChunkIsLost(job, file);
    assert LostIn(file, tab, win, kind, codec, [chunk], [chunk], states, steps);
  }

  lemma OnlyChunk(file: Bytes) returns (chunk: Chunk)
    ensures chunk.data == file && WrittenFor([[file]], [chunk], [chunk])
  {
    var plan: Reorder.Plan := [[file]];
    chunk := Reorder.ChunkAt(plan, Seqno(0, 0));
    Reorder.BeforeSucc(plan, Seqno(0, 0));
    assert Reorder.Frontier(plan, [chunk], Reorder.End(plan));
  }
}
