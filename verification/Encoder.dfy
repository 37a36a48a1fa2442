/** The three stages working on shared chunk objects and the chunk database; each call is one step of
    the abstract run. */
module Encoder {
  import opened Wrappers
  import opened Chunks
  import opened HashTables
  import opened Archive
  import opened Dedup

  class ChunkObject {
    var isDuplicate: bool
    var state: Progress
    var sha1: Key
    var uncompressedData: Option<Bytes>
    var compressedData: Option<Bytes>
    var original: ChunkObject?

    constructor (data: Bytes)
      ensures uncompressedData == Some(data) && state == Uncompressed
    {
      isDuplicate, state, sha1, original := false, Uncompressed, seq(SHA1_LEN, _ => 0), null;
      uncompressedData, compressedData := Some(data), None;
    }
  }

  // A chunk object holds what its abstract header says. A buffer that was given back is None.
  ghost predicate Mirrors(job: Job, chunks: seq<ChunkObject>, c: ChunkObject, h: Header, i: nat)
    reads c
    requires i < |job.data|
  {
    match h
    case Raw => c.uncompressedData == Some(job.data[i])
    case Original(p) =>
      && !c.isDuplicate && c.state == p && c.sha1 == job.Sum(i)
      && (p == Uncompressed ==> c.uncompressedData == Some(job.data[i]))
      && (p == Compressed ==> c.compressedData == Some(job.codec.Compressed(job.kind, job.data[i])))
    case Duplicate(r) =>
      c.isDuplicate && c.sha1 == job.Sum(i) && r < |chunks| && c.original == chunks[r]
  }

  ghost predicate IndexOfChunks(contents: map<Key, ChunkObject>, chunks: seq<ChunkObject>, index: map<Key, nat>) {
    && (forall d :: d in contents <==> d in index)
    && (forall d :: d in index ==> index[d] < |chunks| && contents[d] == chunks[index[d]])
  }

  lemma IndexLookUp(contents: map<Key, ChunkObject>, chunks: seq<ChunkObject>, index: map<Key, nat>, d: Key, i: nat)
    requires IndexOfChunks(contents, chunks, index) && i < |chunks|
    ensures d in contents <==> d in index
    ensures d in index ==> index[d] < |chunks| && contents[d] == chunks[index[d]]
    ensures IndexOfChunks(contents[d := chunks[i]], chunks, index[d := i])
  {
  }

  class Encoder {
    ghost const job: Job
    ghost const chunks: seq<ChunkObject>
    const codec: Codec
    const kind: bv8
    const cache: HashTable<ChunkObject>
    var file: Bytes
    ghost var Abstract: State

    ghost predicate Linked()
      reads this, chunks
    {
      && job.codec == codec && job.kind == kind
      && |chunks| == |job.data| == |Abstract.headers|
      && (forall i, j :: 0 <= i < j < |chunks| ==> chunks[i] != chunks[j])
      && (forall i :: 0 <= i < |chunks| ==> Mirrors(job, chunks, chunks[i], Abstract.headers[i], i))
    }

    // The database maps a sum to the object of its original.
    ghost predicate Indexed()
      reads this, cache, cache.table
    {
      && cache.Valid() && IndexOfChunks(cache.Contents, chunks, Abstract.index)
    }

    ghost predicate Valid()
      reads this, chunks, cache, cache.table
    {
      Linked() && Indexed() && Inv(job, Abstract) && file == ArchiveOf(job, Abstract)
    }

    constructor (codec: Codec, kind: bv8, ghost data: seq<Bytes>, ghost chunks: seq<ChunkObject>)
      requires |chunks| == |data| && forall i :: 0 <= i < |data| ==> chunks[i].uncompressedData == Some(data[i])
      requires forall i, j :: 0 <= i < j < |chunks| ==> chunks[i] != chunks[j]
      ensures Valid() && Abstract == Init(job) && job == Job(data, kind, codec) && this.chunks == chunks
      ensures fresh(cache) && fresh(cache.table)
    {
      job := Job(data, kind, codec);
      this.chunks, this.codec, this.kind := chunks, codec, kind;
      var size := TableSize(65536);
      cache := new HashTable<ChunkObject>(size.value);
      file := FileHeader(kind);
      Abstract := Init(Job(data, kind, codec));
      new;
      InitInv(job);
      assert file == ArchiveOf(job, Abstract);
    }

    /** Sum the chunk and look it up: a miss enters it as the original, a hit keeps a reference and
        gives the data back. Search and insertion happen under the one lock of the sum's bucket. */
    method Deduplicate(chunk: ChunkObject, ghost i: nat) returns (isDuplicate: bool)
      requires Valid() && i < |chunks| && chunk == chunks[i] && Enabled(job, Abstract, Step.Deduplicate(i))
      modifies this`Abstract, chunk, cache, cache.table
      ensures Valid() && Abstract == Next(job, old(Abstract), Step.Deduplicate(i))
      ensures isDuplicate <==> job.Sum(i) in old(Abstract).index
    {
      hide Inv, Next, Enabled, ArchiveOf, HashTable.Valid, IndexOfChunks;
      DeduplicateStep(job, Abstract, i);
      IndexLookUp(cache.Contents, chunks, Abstract.index, job.Sum(i), i);
      Abstract := Next(job, Abstract, Step.Deduplicate(i));
      chunk.sha1 := codec.digest(chunk.uncompressedData.value);
      var entry := cache.Search(chunk.sha1);
      isDuplicate := entry.Some?;
      chunk.isDuplicate := isDuplicate;
      if !isDuplicate {
        chunk.state := Uncompressed;
        cache.Insert(chunk.sha1, chunk);
      } else {
        chunk.original := entry.value;
        chunk.uncompressedData := None;
      }
    }

    /** Compress an original; afterwards only the compressed data is there. */
    method Compress(chunk: ChunkObject, ghost i: nat)
      requires Valid() && i < |chunks| && chunk == chunks[i] && Enabled(job, Abstract, Step.Compress(i))
      modifies this`Abstract, chunk
      ensures Valid() && Abstract == Next(job, old(Abstract), Step.Compress(i))
    {
      hide Inv, Next, Enabled, ArchiveOf, HashTable.Valid;
      CompressStep(job, Abstract, i);
      chunk.compressedData := Some(codec.Compressed(kind, chunk.uncompressedData.value));
      chunk.uncompressedData := None;
      chunk.state := Compressed;
      Abstract := Next(job, Abstract, Step.Compress(i));
    }

    /** Write the chunk whose turn it is. The wait for the original's data is the guard. */
    method WriteChunk(chunk: ChunkObject)
      requires Valid() && Enabled(job, Abstract, Write) && chunk == chunks[Abstract.written]
      modifies this, chunks
      ensures Valid() && Abstract == Next(job, old(Abstract), Write)
    {
      hide Inv, Next, Enabled, ArchiveOf, HashTable.Valid;
      ghost var o := WriteStep(job, Abstract);
      var origin := chunk;
      if chunk.isDuplicate {
        origin := chunk.original;
      }
      assert origin == chunks[o];
      if origin.state == Compressed {
        file := file + WriteFile(Data(origin.compressedData.value));
        origin.compressedData := None;
        origin.state := Flushed;
      } else {
        file := file + WriteFile(Fingerprint(origin.sha1));
      }
      Abstract := Next(job, Abstract, Write);
    }
  }

  // ---------- what the steps are, as far as the objects show ----------

  lemma DeduplicateStep(job: Job, s: State, i: nat)
    requires Inv(job, s) && Enabled(job, s, Step.Deduplicate(i))
    ensures i < |s.headers| && s.headers[i] == Raw
    ensures var t, hit := Next(job, s, Step.Deduplicate(i)), job.Sum(i) in s.index;
            && Inv(job, t) && ArchiveOf(job, t) == ArchiveOf(job, s)
            && t.headers == s.headers[i := if hit then Duplicate(s.index[job.Sum(i)]) else Original(Uncompressed)]
            && t.index == if hit then s.index else s.index[job.Sum(i) := i]
  {
    StepKeepsInv(job, s, Step.Deduplicate(i));
  }

  lemma CompressStep(job: Job, s: State, i: nat)
    requires Inv(job, s) && Enabled(job, s, Step.Compress(i))
    ensures i < |s.headers| && s.headers[i] == Original(Uncompressed)
    ensures var t := Next(job, s, Step.Compress(i));
            && Inv(job, t) && ArchiveOf(job, t) == ArchiveOf(job, s)
            && t.headers == s.headers[i := Original(Compressed)] && t.index == s.index
  {
    StepKeepsInv(job, s, Step.Compress(i));
  }

  lemma WriteStep(job: Job, s: State) returns (o: nat)
    requires Inv(job, s) && Enabled(job, s, Write)
    ensures s.written < |s.headers| == |job.data| && !s.headers[s.written].Raw?
    ensures o < |s.headers| && o == OriginOf(s.headers[s.written], s.written)
    ensures s.headers[o] == Original(Compressed) || s.headers[o] == Original(Flushed)
    ensures var t := Next(job, s, Write);
            var r := if s.headers[o] == Original(Compressed) then job.DataRecord(o) else Fingerprint(job.Sum(o));
            && Inv(job, t) && ArchiveOf(job, t) == ArchiveOf(job, s) + WriteFile(r)
            && t.headers == s.headers[o := Original(Flushed)] && t.index == s.index
  {
    hide Recorded, FlushedByFirst, WriteFile, Serialized, Job.DataRecord;
    StepKeepsInv(job, s, Write);
    WhatWriteDoes(job, s);
    o := Origin(job, s, s.written);
    SerializedOneMore(s.out,
                      if s.headers[o] == Original(Compressed) then job.DataRecord(o) else Fingerprint(job.Sum(o)));
  }

  lemma SerializedOneMore(rs: seq<Record>, r: Record)
    ensures Serialized(rs + [r]) == Serialized(rs) + WriteFile(r)
  {
    assert (rs + [r])[..|rs|] == rs;
  }
}
