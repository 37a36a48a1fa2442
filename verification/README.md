# A verified model of the batched queues and of the deduplicating compressor built on them

The repository holds synchronisation structures that move data in batches, and programs that use them:
a deduplicating compressor whose stages are joined by such queues, and a heat kernel whose threads
follow each other in a wavefront. This project models the data logic and the protocols of these parts
and proves what they are meant to guarantee. Objects that the program updates in place are classes and
arrays here; what runs concurrently is a step system whose steps are the atomic actions of the code;
both meet in specification functions.

How the modules follow the program:

- **Queues.** `Rings` is the ring buffer with one free cell and its resize in place, `BatchedQueue` the
  critical sections and the calls of one thread, `QueueProtocol` the interleaving of any number of
  producers and consumers, with waiting sets and logs; `QueueRefinement` shows that the calls on arrays
  are the steps of that protocol. `SmartFifo` is the chain of chunks with its
  counting semaphore, down to the order of link, tail store and post.
- **Cutting.** `Rabin` is the table-driven polynomial hash over GF(2) against its bit-serial
  definition; `Chunking` the buffered fragmenter and the refiner against one pass over the whole file;
  `MBuffers` the shared, reference-counted regions that the pieces live in.
- **Deduplication and archive.** `HashTables` is the chunk database. `Dedup` has deduplicate, compress
  and write as steps in any order, `Encoder` the same stages on shared chunk objects, one call a step.
  `Archive` is the file format and the decoder. `Pipeline` joins cutting, the reorder stage on any
  complete arrival order, encoding and decoding.
- **Ordering.** `BinHeap`, `SearchTree` and `ChunkCache` are the cache of early chunks, a tree of
  heaps; `Reorder` is the stage that puts chunks in order, in its two variants.
- **Wavefront.** `Heat` is the matrix and what any order of updates gives if cells come after the
  cells they read; `Wavefront` the threads under the alternating bit, the counter or step promises;
  `StepPromise` the promise that publishes every few indices.
- **Digest.** `Sha1Block` is the compression function with its schedule of 80 words and the unrolled
  and the small block function; `Sha1` the streaming context (FIPS 180-4, sections 5.1.1, 6.1.2 and
  6.1.3); `Sha1Example` works out one known digest.
- `Wrappers`, `Sequences` and `Chunks` hold what several modules share.

What the reader may take away, hardest first:

- Every finished run of the encoder on a file, whatever the order in which chunks reach the writer and
  whatever the interleaving, leaves an archive that decodes to the file
  (`Pipeline.ArchiveRestoresTheFile`, `Dedup.RoundTripIff`), and it is the archive of the serial encoder
  byte for byte (`Dedup.ParallelEqualsSerial`). The conditions: no two different chunks of the file share
  a digest; each chunk fits the decoder's buffer of 10,000,000 bytes if a compression library is used;
  compressed chunks are below 2 GiB; and the reorder stage has not looked outside its table.
- Nothing is lost, doubled or reordered by the queues, and nobody sleeps through what it waits for
  (`QueueProtocol.Conservation`, `ConsumersKeepOrder`, `NoLostWakeUp`; `SmartFifo.HandedOutInOrder`,
  `SemaphoreNeverUndercounts`, `WaiterGetsThrough`, `ServedSoon`, `EmptyAnswerOnlyAtTheEnd`). Transfers
  move all they can, and an answer of the chunk chain holds exactly what was asked for, unless nothing
  more was linked (`QueueProtocol.TransfersAreFull`, `SmartFifo.AnswerFillsRequest`).
- The reorder stage has written exactly the longest prefix that has arrived, after every arrival
  (`Reorder.Reorderer.Arrive`), and its two variants write the same file (`Reorder.VariantsAgree`).
- Every schedule the three wavefront synchronisers allow gives the matrix of the sequential loops, and
  every run that is continued as long as it can be finishes within a bound
  (`Wavefront.RunsAreRespectful`, `MaximalRunsFinish`).
- The table-driven hash is the bit-serial one (`Rabin.StepIsAppend`), and with any read buffer each piece
  ends at the first anchor past the jump, which determines the pieces (`Chunking.Fragment`,
  `Chunking.PiecesAreDetermined`).
- A file decodes if and only if the encoder could have written it (`Archive.DecodesIffWritten`).
- The streaming digest is that of the padded whole, whichever block function runs (`Sha1.DigestOfParts`,
  `Sha1Block.BlockUnrolled`, `Sha1Block.BlockSmall`), and the reference gives the known digest of "abc"
  (`Sha1Example.DigestOfMessage`).

Where the code does not meet what it is for, the exact condition is proved:

- The rolling hash is the hash of the last 32 bytes if and only if the window table holds the multiples
  of t^248 (`Rabin.RollsRightIff`). For the tables of a window length that is so if and only if the power
  of t that belongs to the length is t^248 modulo the polynomial (`Rabin.RollsRightForLength`). The
  callers build the table for window length 0, and then it is not (`Rabin.CallersDoNotRollRight`); what
  it is then is `Rabin.RollingOfTables`. Where cuts fall is still independent of the read buffer.
- The table of pieces in the reorder stage is doubled once per arrival at most, and the stage may look
  outside it: when the last chunk of a piece arrives, and after each chunk written. For each variant a
  run does so if and only if the arrivals satisfy a condition on their numbers and the table's length
  (`Reorder.RunWriteAhead` with `AheadOverruns`, `Reorder.RunCached` with `CachedOverruns`). Up to 2048
  pieces no arrival order does (`Reorder.SmallPlansFit`), nor the order of the input for any number of
  pieces (`Reorder.InputOrderFits`). With more, the last chunk of piece 2048 arriving first makes both
  variants do so (`Reorder.LargePlansMayOverrun`), and another order only the write-ahead one
  (`Reorder.VariantsDiffer`).
- An archive decodes to the input if and only if no two different chunks of it share a digest and each
  chunk is within the decoder's fixed buffer of 10,000,000 bytes when a compression library is used
  (`Dedup.RoundTripIff`). A chunk above it is lost with every library and sums that never collide
  (`Dedup.LargeChunkIsLost`), and there are such files: for every size above the buffer a file that is
  one chunk, which no library that inverts brings back (`Pipeline.LargeFile`).
- The semaphore of the chunk chain never undercounts, but it may exceed the linked elements, because a
  pop that finds elements does not take them from the semaphore and a chunk pushed ahead of time posts a
  full step. By how much is a ledger that holds in every reachable state (`SmartFifo.SemaphoreLedger`).
  Up to the end the count has been exact if and only if no chunk was pushed ahead of time with elements
  missing and no element was popped that had not been taken first (`SmartFifo.CountIsExactIff`);
  `SmartFifo.PoppingWithoutWaiting` is a run without early pushes after which it is not.
- A step promise that is set backwards publishes at once, because the difference is compared as an
  unsigned number (`StepPromise.SettingBackPublishes`).

Where a comment and the code differ, the model follows the code:

- A comment in `src/naive_queue.hpp` (433-437) says that a refused resize makes a push enqueue by force.
  The code leaves the request pending and tries again at the next push.
- The comment in `src/smart_fifo.h` (666-707) describes a post only when a consumer waits. The code posts
  after every link.
- The comment in `src/promises/static_step_promise.h` (91-98) says that the indices below the step are
  released when the step's own index is set. The code starts from -1 and releases them one index earlier.

## Model

| member | source | states |
|---|---|---|
| Rings.Ring.Shared | src/naive_queue.hpp:51-57 | a shared ring starts empty with the capacity asked for |
| Rings.Ring.Local | src/naive_queue.hpp:373-383 | a local ring starts empty in its fixed allocation |
| Rings.Ring.Push | src/naive_queue.hpp:385-399 | the element is appended to the logical contents, or the ring is full and unchanged; exactly one of the two |
| Rings.Ring.Pop | src/naive_queue.hpp:401-416 | the oldest element leaves; none exactly when the ring is empty |
| Rings.StepAfter | src/naive_queue.hpp:425-574 | the capacity after a request is the one asked for, except exactly when it would shrink to one not above the count |
| Rings.MoveCells | src/naive_queue.hpp:425-574 | the overlapping move copies the old cells, as memmove does |
| Rings.Ring.Resize | src/naive_queue.hpp:425-574 | resizing in place keeps the contents element for element in every layout and re-establishes the ring; a refusal changes nothing |
| BatchedQueue.Master.Enqueue | src/naive_queue.hpp:1255-1272 | the oldest local elements move in order to the end of the shared ring, until the limit is used up, none is left or the ring is full |
| BatchedQueue.Master.Dequeue | src/naive_queue.hpp:1094-1127 | the same in the other direction; a single consumer has no limit; -1 exactly when nothing is left |
| BatchedQueue.Push | src/naive_queue.hpp:866-907 | shared then local contents grow by the element at the end; a full ring is handed over whole, or as far as the shared ring has room; a pending resize is honoured; the ring has room again on return |
| BatchedQueue.Pop | src/naive_queue.hpp:695-729 | the oldest of local then shared contents is returned, none exactly when both are empty; an empty ring is refilled until it is full or the shared ring empty; a pending resize is tried on what is then held |
| BatchedQueue.ForcePush | src/naive_queue.hpp:1447-1451 | what is held locally goes over as far as it fits, in order |
| BatchedQueue.CrossPop | src/naive_queue.hpp:760-787 | a pop that cannot get the lock forces the consumer's own output over and answers nothing; otherwise it is a pop |
| QueueProtocol.StepKeepsInv | src/naive_queue.hpp:866-907 | every atomic action of every thread keeps the ring bounds, the waiting conditions, the termination count and the logs |
| QueueProtocol.LogsAgree | src/naive_queue.hpp:1094-1127 | input log = output log then shared ring; each thread's pushes or pops are its part of a log and its local ring |
| QueueProtocol.Conservation | src/naive_queue.hpp:1255-1272 | pushed = held + popped as multisets, in every reachable state |
| QueueProtocol.CompleteDelivery | src/naive_queue.hpp:302-307 | when all consumers were answered none, what was pushed has been popped, no more and no less |
| QueueProtocol.SingleConsumerOrder | src/naive_queue.hpp:695-729 | a single consumer gets each producer's elements in the order they were pushed |
| QueueProtocol.ConsumersKeepOrder | src/naive_queue.hpp:695-729 | with any number of consumers, what each pops of a producer is a subsequence of that producer's pushes |
| QueueProtocol.NoLostWakeUp | src/naive_queue.hpp:612-619 | a consumer still waiting means an empty ring and a producer left, a producer still waiting a full ring; never both |
| QueueProtocol.NoDeadlock | src/naive_queue.hpp:1094-1127 | the threads never all sleep |
| QueueProtocol.PushAlwaysStores | src/naive_queue.hpp:866-907 | the ignored result of the local push is success, under all resize requests |
| QueueProtocol.NoneOnlyAtTheEnd | src/naive_queue.hpp:695-729 | none is answered first only by seeing the shared ring empty with all producers done and drained |
| QueueProtocol.NoneIsFinal | src/naive_queue.hpp:695-729 | after none, that consumer never gets another element |
| QueueProtocol.TransfersAreFull | src/naive_queue.hpp:1255-1272 | in every reachable state an enqueue empties the local ring or fills the shared one, and a dequeue the other way round |
| QueueProtocol.LocksAreBatched | src/naive_queue.hpp:866-907 | a producer asks for the lock on its own account only with a full ring, a consumer only with an empty one |
| QueueRefinement.EnqueueStep | src/naive_queue.hpp:1255-1272 | a producer's critical section on the arrays is the enqueue step of the protocol |
| QueueRefinement.DequeueStep | src/naive_queue.hpp:1094-1127 | a consumer's is the dequeue step, also when it asks again after -1; -1 exactly when that ends the consumer |
| QueueRefinement.PushStep | src/naive_queue.hpp:385-399 | the local half of a push is the push step |
| QueueRefinement.ReconfigureStep | src/naive_queue.hpp:893-906 | trying a pending resize is the reconfigure step; the request stays pending when refused |
| QueueRefinement.CountDownStep | src/naive_queue.hpp:612-619 | termination is the count-down step |
| QueueRefinement.FinishPopStep | src/naive_queue.hpp:714-728 | the local half of a pop is the finishing step and gives the element it logs |
| SmartFifo.StepKeepsInv | src/smart_fifo.h:634-812 | every visible step keeps the chain, the books of the semaphore and the contents |
| SmartFifo.HandedOutInOrder | src/smart_fifo.h:717-808 | the ranges handed out concatenate to a prefix of the linked chunks; a non-empty answer starts with a non-empty range |
| SmartFifo.PushedIsLinkedOrLocal | src/smart_fifo.h:396-465 | what a producer pushed is its part of the chain followed by its own chunk |
| SmartFifo.EmptyAnswerOnlyAtTheEnd | src/smart_fifo.h:762-771 | an empty answer means all producers are done and all they pushed was handed out, for good |
| SmartFifo.SemaphoreNeverUndercounts | src/smart_fifo.h:53-117 | value, posts on their way and elements already taken from it cover all linked elements |
| SmartFifo.WaiterGetsThrough | src/smart_fifo.h:69-104 | with elements left by completed pushes, or at the end, an attempt leaves the wait, whatever pushes are under way and whatever other threads do during it |
| SmartFifo.ServedWithoutWaiting | src/smart_fifo.h:741-808 | from then on, with elements left by completed pushes, the consumer does not wait again before its answer, and the answer holds elements |
| SmartFifo.AnswerFillsRequest | src/smart_fifo.h:717-808 | in every run an answer holds exactly what left the chain since its request came in: as many elements as asked for, or fewer only at the end of the chain or of the stored tail, none only when all producers are done; it goes to the consumer that asked |
| SmartFifo.AttemptTakes | src/smart_fifo.h:69-104 | an attempt takes what was asked for but no more than was there when it was made, gives the rest back and makes it the consumer's credit, whatever happens meanwhile |
| SmartFifo.UnansweredOnlyByTimeout | src/smart_fifo.h:758-767 | a request goes unanswered only if an attempt that found nothing timed out |
| SmartFifo.ServedSoon | src/smart_fifo.h:741-808 | between attempt and answer a consumer takes a bounded number of steps, by the chunks before and linked meanwhile |
| SmartFifo.NobodyIsStuck | src/smart_fifo.h:634-812 | the consumer in the lock, the producer in the other lock, and every producer when that is free, can go on in every reachable state |
| SmartFifo.ChunksAreLinkedWhenFull | src/smart_fifo.h:396-410 | a producer's elements stay local until its chunk is full; the next one brings them all into the chain |
| SmartFifo.SemaphoreLedger | src/smart_fifo.h:53-117 | in every reachable state the count is off by posts beyond links and popped elements, less what was taken |
| SmartFifo.ExcessOfStep | src/smart_fifo.h:741-808 | the excess is never negative, and only a short early push or a pop of untaken elements raises it, by exactly that much |
| SmartFifo.CountIsExactIff | src/smart_fifo.h:717-808 | up to the end the count has been exact if and only if there was no short early push and no pop of untaken elements |
| SmartFifo.PoppingWithoutWaiting | src/smart_fifo.h:741-760 | a run without early pushes that leaves the value above what is linked |
| SmartFifo.CompletedIsLinked | src/smart_fifo.h:634-714 | the elements of completed pushes are what was linked when the last of them posted |
| SmartFifo.ChecksNeverFail | src/smart_fifo.h:634-645 | the tail has no successor when linked to, and a chunk that is left has one: neither exception is thrown |
| SmartFifo.Elements.NextElement | src/smart_fifo.h:335-357 | walking the ranges gives their concatenation, empty ranges skipped |
| SmartFifo.Elements.PopElement | src/smart_fifo.h:481-523 | the chain is asked only when the last answer is used up; elements come in the order of the answer this call was given, and none only when all producers are done and all is handed out |
| Rabin.ReduceTopByte | src/dedup/rabin.cpp:24-35 | eight bit-serial multiplications by t are a shift and the reduction of the top byte |
| Rabin.FpReduce | src/dedup/rabin.cpp:24-35 | the loop multiplies by t^32 modulo the polynomial |
| Rabin.MakeReductionTable | src/dedup/rabin.cpp:37-43 | the table holds the multiple of t^32 of every byte |
| Rabin.MakeWindowTable | src/dedup/rabin.cpp:56-62 | the window table holds the multiples of the power of t that belongs to the window length |
| Rabin.WindowEntry | src/dedup/rabin.cpp:45-54 | an entry is the hash of its byte followed by the zero bytes of a window; for lengths below 2, so for the callers' 0, it is the byte |
| Rabin.RabinInit | src/dedup/rabin.cpp:64-70 | both tables for the program's polynomial, the window table entry by entry |
| Rabin.StepIsAppend | src/dedup/rabin.cpp:83-85 | one table-driven step equals the bit-serial reference, for every state and byte |
| Rabin.RollingIsWindow | src/dedup/rabin.cpp:89-95 | with the right window table the rolling value is the hash from scratch of the last 32 bytes, at every position |
| Rabin.RollingOfTables | src/dedup/rabin.cpp:72-100 | with any window table, that of the callers included, the hash is that of all bytes so far less the bytes that left the window, with the weight the table gives them |
| Rabin.RollsRightIff | src/dedup/rabin.cpp:89-95 | it is so for all inputs exactly if the window table holds the multiples of t^248 |
| Rabin.RollsRightForLength | src/dedup/rabin.cpp:56-70 | for the tables of a window length exactly if its power of t equals t^248 modulo the polynomial |
| Rabin.CallersDoNotRollRight | src/dedup/rabin.cpp:64-70 | with the window length 0 of the callers it is not so |
| Rabin.RabinSeg | src/dedup/rabin.cpp:72-100 | the cut is an anchor when below the length, and no position from the window's length up to it is one |
| Rabin.SegmentIsFirstAnchor | src/dedup/rabin.cpp:72-100 | that determines the cut |
| Rabin.SegmentOfPrefix | src/dedup/rabin.cpp:72-100 | a proper cut seen in a prefix is the cut of the whole, and none seen means none before the prefix ends |
| Chunking.CutBuffer | src/dedup/encode_default.cpp:166-223 | the buffered data is cut where one pass over the whole would cut; what is carried holds no anchor past the jump |
| Chunking.Fragment | src/dedup/encode_default.cpp:74-224 | for every buffer size the pieces hold the file, none is empty, and each ends at the first anchor at least ANCHOR_JUMP bytes into it, or at the end; numbered densely from 0; the loops end |
| Chunking.PiecesAreDetermined | src/dedup/encode_default.cpp:170-207 | only one way to cut a file into pieces has that property |
| Chunking.Refine | src/dedup/encode_default.cpp:300-366 | a piece becomes chunks that hold it, each ending at the first anchor in it or at the end, numbered from 0, only the last one marked |
| Chunking.CutsRestoreTheFile | src/dedup/encode_default.cpp:282-366 | the chunks in the order of their numbers hold the file; one last chunk per piece; none is empty |
| Chunking.CutFile | src/dedup/encode_default.cpp:74-366 | cutting and refining give exactly the plan the reorder stage works by |
| Chunking.FileWithoutAnchors | src/dedup/encode_default.cpp:166-223 | for all tables and every size there is a file that is a single piece and a single chunk |
| MBuffers.OneMore | src/dedup/mbuffer.cpp:127-158 | a further handle of a new line counts once and keeps handles of a line apart |
| MBuffers.Divided | src/dedup/mbuffer.cpp:268-299 | the two halves of a part share no byte with each other or another handle of their line |
| MBuffers.Pool.Create | src/dedup/mbuffer.cpp:99-124 | a fresh region with one handle on all of it |
| MBuffers.Pool.Clone | src/dedup/mbuffer.cpp:127-158 | a further handle on the same part, counted |
| MBuffers.Pool.Split | src/dedup/mbuffer.cpp:268-299 | front and rest of the part, counted, no byte moved |
| MBuffers.Pool.Realloc | src/dedup/mbuffer.cpp:220-264 | succeeds exactly for a lone handle at the start of its region, keeping the bytes that fit; otherwise -1 and no change |
| MBuffers.Pool.Free | src/dedup/mbuffer.cpp:187-216 | the region is released exactly when the last handle goes, and never twice |
| HashTables.TableSize | src/dedup/hashtable.cpp:79-84 | the least listed prime above the request; refused above 2^30 |
| HashTables.HashTable.Insert | src/dedup/hashtable.cpp:195-225 | the key now leads to the value, and no other bucket is touched |
| HashTables.HashTable.Search | src/dedup/hashtable.cpp:229-244 | the newest value of the key, or none; only the bucket of the key's lock matters |
| BinHeap.RootIsLeast | src/dedup/binheap.cpp:103-110 | in heap order the first cell has the least second-level number |
| BinHeap.PriorityQueue.Insert | src/dedup/binheap.cpp:47-72 | the bag of chunks grows by the element, through growth and sifting |
| BinHeap.PriorityQueue.DeleteMin | src/dedup/binheap.cpp:74-101 | the root leaves and nothing else does |
| BinHeap.PriorityQueue.FindMin | src/dedup/binheap.cpp:103-110 | the least chunk, or none for an empty heap |
| SearchTree.Find | src/dedup/tree.cpp:28-39 | the node of the key in the map the tree stands for, or none |
| SearchTree.FindMin | src/dedup/tree.cpp:41-52 | the node of the least key |
| SearchTree.Insert | src/dedup/tree.cpp:63-85 | the map gains the key unless it has it |
| SearchTree.Delete | src/dedup/tree.cpp:87-128 | the map loses the key, in all three cases |
| ChunkCache.ChunkCache.Add | src/dedup/encode_default.cpp:656-667 | the bag of cached chunks grows by the chunk |
| ChunkCache.ChunkCache.TakeIfNext | src/dedup/encode_default.cpp:682-700 | the chunk numbered next leaves the bag if it is the least one cached; nothing else changes |
| Reorder.Reorderer.Register | src/dedup/encode_default.cpp:641-653 | the table grows by one doubling at most and says the size of each piece whose last chunk has arrived; it is overrun exactly by a last chunk without a cell |
| Reorder.Reorderer.Arrive | src/dedup/encode_default.cpp:641-701 | after each arrival the file is the longest prefix of the order that has arrived and the cache holds exactly the rest, unless the stage looks outside its table, which is said exactly |
| Reorder.Reorderer.ArriveCached | src/dedup/encode_smart.cpp:792-817 | the variant that only caches keeps everything; it looks outside its table exactly for a last chunk without a cell |
| Reorder.Reorderer.Drain | src/dedup/encode_smart.cpp:947-987 | draining writes what is cached in order and succeeds exactly when nothing is missing; it looks outside the table exactly when a chunk without a cell is within reach |
| Reorder.RunWriteAhead | src/dedup/encode_default.cpp:622-732 | for any arrivals: overrun exactly if some arrival is a last chunk without a cell or brings a chunk without one within reach; else the file is the prefix up to the frontier |
| Reorder.RunCached | src/dedup/encode_smart.cpp:758-867 | for any arrivals: overrun exactly if some last chunk has no cell on arrival or a chunk within reach has none in the end; else the file is the prefix up to the frontier |
| Reorder.BeforeIsOrder | src/dedup/dedupdef.h:116-122 | the reference order is strictly by sequence number, over exactly the chunks of the plan |
| Reorder.BeforeIsInput | src/dedup/encode_default.cpp:670-701 | in that order the chunks hold the input byte for byte |
| Reorder.VariantsAgree | src/dedup/encode_smart.cpp:563-720 | both variants write the same for any two orders of the same arrivals; all of the input when the arrivals are complete |
| Reorder.SmallPlansFit | src/dedup/encode_default.cpp:642-648 | up to twice 1024 pieces no arrival order overruns either variant |
| Reorder.InputOrderFits | src/dedup/encode_default.cpp:642-648 | nor does the order of the input overrun either, for any number of pieces |
| Reorder.LargePlansMayOverrun | src/dedup/encode_default.cpp:642-648 | above that a complete arrival order overruns both variants |
| Reorder.VariantsDiffer | src/dedup/encode_smart.cpp:792-817 | and one overruns the write-ahead variant and not the caching one |
| Dedup.StepKeepsInv | src/dedup/encode_common.cpp:202-328 | deduplicate, compress and write keep headers, database and records in agreement, in any order |
| Dedup.OneOriginalPerSum | src/dedup/encode_common.cpp:298-326 | each sum seen has one original and its duplicates refer to it |
| Dedup.FingerprintsFollowData | src/dedup/encode_common.cpp:156-178 | a fingerprint record comes after a data record of that sum |
| Dedup.DataRecordsAreFirsts | src/dedup/encode_common.cpp:156-178 | the data records are those of the first chunk written of each sum |
| Dedup.SomethingCanHappen | src/dedup/encode_common.cpp:156-167 | the writer's wait never blocks the run |
| Dedup.RunsAreShort | src/dedup/encode_common.cpp:202-328 | every run ends within three steps a chunk |
| Dedup.DecodedOfRun | src/dedup/decoder.cpp:213-250 | at any time the file decodes to the originals' data, chunk by chunk, and fails exactly when one is out of reach |
| Dedup.RoundTripIff | src/dedup/encode_common.cpp:107-178 | a finished archive decodes to the input exactly without collisions and with all chunks in the decoder's reach |
| Dedup.LargeChunkIsLost | src/dedup/decoder.cpp:120-136 | for every library that inverts and any sums, a finished run on a chunk above the decoder's buffer whose archive does not decode |
| Dedup.SingleChunkIsLost | src/dedup/decoder.cpp:120-136 | so does the archive of every finished run on such a chunk |
| Dedup.ParallelEqualsSerial | src/dedup/encode_common.cpp:179-194 | without collisions every schedule writes the bytes of the serial encoder |
| Encoder.Encoder.Deduplicate | src/dedup/encode_common.cpp:291-328 | on chunk objects and the hash table this is the deduplicate step |
| Encoder.Encoder.Compress | src/dedup/encode_common.cpp:202-280 | and this the compress step |
| Encoder.Encoder.WriteChunk | src/dedup/encode_common.cpp:156-178 | and this the write step, on the original of the chunk |
| Archive.LittleEndianRoundTrip | src/dedup/encode_common.cpp:107-119 | a length field reads back as the length written |
| Archive.ReadOfWritten | src/dedup/decoder.cpp:60-98 | a written record reads back as itself with the rest of the file; an empty data record is refused |
| Archive.ReadIsWritten | src/dedup/decoder.cpp:60-98 | a record is accepted only if the bytes are those the encoder writes for it |
| Archive.Process | src/dedup/decoder.cpp:226-245 | one record extends the output and the table of known chunks, or fails as the reader does |
| Archive.Decode | src/dedup/decoder.cpp:173-250 | the decoder with its hash table computes the file's meaning, errors included |
| Archive.DecodedOfSerialized | src/dedup/decoder.cpp:213-250 | decoding written records is taking them one by one |
| Archive.DecodesIffWritten | src/dedup/decoder.cpp:213-250 | a file decodes if and only if it is, byte for byte, a header and records as the encoder writes them that can be taken one by one; then to what they hold |
| Archive.LayoutOfArchive | src/dedup/encode_common.cpp:107-119 | the bytes of a small archive: magic number, kind, type, length and content of each record |
| Pipeline.PutInOrder | src/dedup/encode_default.cpp:622-732 | either variant on any complete arrival order writes the order of the input, unless it overruns, which is said exactly |
| Pipeline.WrittenInOrder | src/dedup/encode_default.cpp:670-701 | what has been written when all chunks have arrived is the order of the input |
| Pipeline.JobHoldsTheFile | src/dedup/encode_default.cpp:282-366 | what the encoder is given, in order, is the file |
| Pipeline.ArchiveRestoresTheFile | src/dedup/decoder.cpp:173-250 | file to archive and back, over any complete arrival order and any finished run |
| Pipeline.UncompressedArchiveRestoresTheFile | src/dedup/decoder.cpp:104-118 | without compression a file below 2 GiB comes back whenever its chunks do not collide |
| Pipeline.LargeFile | src/dedup/decoder.cpp:120-136 | for every size above the decoder's buffer a file that is one chunk; with any library that inverts and compresses it to below 2 GiB some finished run leaves an archive that does not decode, without a collision |
| Heat.UpdateMatrix | src/heat_cpu/matrix_core.h:35-42 | an update adds the term of the neighbours of the iteration, the column and the row before, in this order, and changes no other cell |
| Heat.ComputeMatrix | src/heat_cpu/matrix_core.cpp:121-131 | in the final matrix every inner cell is its initial value with the term of its three neighbours in that matrix added 15 times, and the border is as it was |
| Heat.Execute | src/heat_cpu/heat_cpu.cpp:16-27 | the same for any schedule in which all cells come once, after the cells they read |
| Heat.RunAndCompare | src/heat_cpu/matrix_core.cpp:121-131 | such a schedule over all cells and the sequential loops end with equal matrices |
| Wavefront.ReadsAreLogged | src/heat_cpu/main.cpp:103-117 | a thread that has passed its wait finds what it reads updated and its cell not |
| Wavefront.StepKeepsSynced | src/heat_cpu/main.cpp:103-133 | bit, counter and promises say how far the left neighbour is ahead |
| Wavefront.PublishedRowsLag | src/heat_cpu/heat_cpu.cpp:31-56 | in every run the row a thread has published is done and less than a step behind the last one done, and closed iterations are published whole |
| Wavefront.StepKeepsInv | src/heat_cpu/main.cpp:65-201 | every step keeps order, synchronisers and the log of updates in agreement |
| Wavefront.RunsAreRespectful | src/heat_cpu/heat_cpu.cpp:16-56 | every run updates cells once and after the cells they read, and all of them when the threads are through |
| Wavefront.NoDeadlock | src/heat_cpu/main.cpp:177-201 | as long as a thread is not through, some thread can go on |
| Wavefront.WaitsAreTight | src/heat_cpu/main.cpp:65-201 | a waiting thread may pass once its left neighbour is an iteration ahead, or under step promises a step of rows |
| Wavefront.RunsAreShort | src/heat_cpu/main.cpp:65-201 | no run has more steps than the work of its threads |
| Wavefront.MaximalRunsFinish | src/heat_cpu/heat_cpu.cpp:16-56 | a run that cannot go on is finished, within the bound, with all cells updated respectfully |
| Wavefront.ParallelEqualsSequential | src/heat_cpu/main.cpp:239-264 | a finished run leaves the sequential matrix, in which every cell is what its neighbours make of it |
| StepPromise.LagIsBelowStep | src/promises/static_step_promise/static_step_promise.cpp:94-112 | an increasing set publishes exactly from a distance of a step on, so the lag stays below the step |
| StepPromise.SettingBackPublishes | src/promises/static_step_promise/static_step_promise.cpp:103-106 | a set that goes back publishes at once |
| StepPromise.RunKeepsInv | src/promises/static_step_promise/static_step_promise.cpp:61-145 | lag below the step, caches not ahead, answers only for published indices, no sleeper on a published index |
| StepPromise.PublishedNeverShrinks | src/promises/static_step_promise/static_step_promise.cpp:94-145 | the published index grows over a run |
| StepPromise.SetsAreBatched | src/promises/static_step_promise/static_step_promise.cpp:94-112 | in every run a set publishes exactly from a distance of a step on, and otherwise disturbs nobody |
| StepPromise.CachedForGood | src/promises/static_step_promise/static_step_promise.cpp:61-82 | once a thread has looked, gets of what was published then are served from its cache |
| StepPromise.ClosingSetReleasesGetters | src/promises/static_step_promise/static_step_promise.cpp:126-145 | after the closing set of n no get of an index up to n can block |
| StepPromise.Promise.Get | src/promises/static_step_promise/static_step_promise.cpp:61-82 | the cache is asked first and refreshed only when too old; other threads' caches stay |
| StepPromise.Promise.Set | src/promises/static_step_promise/static_step_promise.cpp:94-112 | what a set publishes |
| Sha1Block.ShortcutsAreRight | src/dedup/openssl/sha_locl.h:164-167 | the shortened choice and majority functions are the standard's |
| Sha1Block.BytesOfWordAt | src/dedup/openssl/md32_common.h:228-240 | writing a word gives the bytes it was read from |
| Sha1Block.UpdateIsSchedule | src/dedup/openssl/sha_locl.h:109-111 | the update from four of 16 cells gives the next of the 80 words |
| Sha1Block.Body | src/dedup/openssl/sha_locl.h:171-199 | a line of the unrolled function, with registers trading places, is a round |
| Sha1Block.BlockUnrolled | src/dedup/openssl/sha_locl.h:224-374 | the unrolled block function is the compression function |
| Sha1Block.SmallBody | src/dedup/openssl/sha_locl.h:379-406 | a line of the small function is a round |
| Sha1Block.BlockSmall | src/dedup/openssl/sha_locl.h:409-450 | the small block function is the compression function |
| Sha1.CountBits | src/dedup/openssl/md32_common.h:295-301 | the two length words with their carry count bits modulo 2^64 |
| Sha1.LengthField | src/dedup/openssl/md32_common.h:367-370 | written one after the other they are the 64-bit length of the padding |
| Sha1.Context.Update | src/dedup/openssl/md32_common.h:286-342 | the message grows by the piece, whatever is in the buffer |
| Sha1.Context.Final | src/dedup/openssl/md32_common.h:351-387 | the result is the digest of the padded whole message |
| Sha1.DigestOfParts | src/dedup/openssl/md32_common.h:286-387 | a message taken in any pieces has the digest of the whole |
| Sha1.SHA1Digest | src/dedup/sha.cpp:6-12 | the digest used as a key |
| Sha1Example.DigestOfMessage | src/dedup/sha.cpp:6-12 | the digest of "abc" is a9993e36 4706816a ba3e2571 7850c26c 9cd0d89d, by the reference the program is proved against |

## Left out

- Memory orders weaker than sequential consistency, allocation failure, real files and threads: files
  are byte sequences, threads are interleaved steps, and a step is one atomic action of the code.
- A wait is the condition under which it ends. That a thread which can go on eventually does is left to
  the scheduler.
- 32-bit wrap-around of sequence numbers, of the reference counter and of the element counts, and read
  buffers of 2 GiB or more, where the code keeps an offset in an int.
- QueueProtocol.StepKeepsInv: a consumer's timed lock attempt and a forced push may happen whenever a
  thread is idle, which is more than the clock allows; the clock itself is not modelled.
- BatchedQueue.Push: the observer and the tuning of steps are an environment that may request any size
  that fits the allocation; `shared_transfer`, whose only call is commented out, and the timed variants,
  which move the same data, are not modelled.
- SmartFifo.PushedIsLinkedOrLocal: a producer's step may change to any size of at least 1 whenever its
  chunk is reset, which covers the reconfiguration; `pop_copy` and its exception at the end of the data
  are not modelled.
- SmartFifo.SemaphoreNeverUndercounts: it is stated before the end is declared; after that a waiter leaves
  the semaphore lowered and nobody waits on it any more.
- Rabin.RabinSeg: how anchors are distributed over a file is not analysed beyond the hash; pieces have no
  largest size (`Chunking.FileWithoutAnchors`).
- HashTables.HashTable.Search: the disabled expansion of the table, removal and change of entries are not
  modelled; a chain is a value, so entries are not shared.
- SearchTree.FindMin: the cached minimum node is not modelled, since nothing ever sets it.
- Reorder.RunWriteAhead: what the program does after it has looked outside its table is not described;
  the run ends there and says so.
- Dedup.RoundTripIff: the digest is any function to 20 bytes and the compression library any pair that
  inverts; a record's contents are below 2 GiB, because the write returns its size as an int.
- Archive.Decode: a file cut inside its header is refused, where the code compares an uninitialised
  variable; output written before an error is not described.
- MBuffers.Pool.Create: the locks around the counter, deep copies and initialisation of the subsystem are
  not modelled; a counter operation is one step.
- Wavefront.RunsAreRespectful: threads have contiguous blocks in the order of their numbers, as the static
  schedule gives them; the load and the store of an alternating bit are one step, since each value has
  only one thread that stores it.
- Heat.UpdateMatrix: the arithmetic of an update is any function of the three cells read, added 15 times.
- Sha1Block.BlockUnrolled: only the low 32 bits of the working registers are modelled, since what a wider
  register holds above them never reaches a result; big-endian hosts read the same words.
- `FIFOPlus`, `DynamicStepPromise`, the array and single promises of the heat kernel, the LU kernels, the
  older queue in `src/dedup/queue.cpp`, gzip and bzip2, statistics, Lua, JSON, the command line and the
  scripts would add members of the same kind or are outside exact arithmetic.
