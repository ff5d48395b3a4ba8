# Verified models of the robot stack's lock-free queues, compression, checksums, JSON Patch and policy switching

This Dafny project models the self-contained, error-prone cores of the repository and proves what they are for.

- **Lock-free structures** are step machines. Every atomic load, store, compare-and-swap and fetch-add is one step, any
  number of threads (or the one producer and one consumer the structure allows) interleave, and the theorems hold in every
  state of every run. `FreeList` is the reference-counted free list, `DequeueProtocol` the optimistic dequeue counters,
  `BlockIndex` the growing block index of an implicit producer, `ReaderWriterQueue` the single-producer single-consumer
  queue of blocks, `CircularBuffer` the bounded buffer with its single-waiter semaphores, and `LightweightSemaphore` the
  semaphore for any number of threads.
- **DEFLATE** (RFC 1951): `InflateTable` builds two-level decoding tables from code lengths (`HuffmanCode` has the
  canonical code and its prefix-freeness), `InflateFast` and `InflateBack` decode into an output buffer and into a ring,
  `CanonicalDecoder` defines decoding from the code lengths alone and joins tables and `inflate_fast` to it, `DynamicBlock`
  does so for the header of a dynamic block and then for the whole block, and `DeflateSlow` matches lazily over hash chains in
  a sliding window (`DeflateHash` and `DeflateState` have the rolling hash and the invariants). `LazyMatching` says, in terms
  of the data alone, which matches are looked for and which symbols follow. `Lz77` is the common meaning of literals and
  matches.
- **Checksums**: `Gf2` and `Crc32` relate zlib's braided CRC-32, its tables and its combining of two CRCs to the bit-wise
  definition, and `CrcLaws` has the laws that fix that definition; `Adler32` relates the deferred sums and `adler32_combine` to the per-byte definition.
- **JSON Patch** (RFC 6902, 6901, 7396): `JsonPointer` and `JsonPatch` model `patch_inplace`, `diff` and `merge_patch`;
  `JsonLaws` says of each operation what it does to what every pointer finds.
- **Policy switching**: `PolicyFsm` models the four-state machine of the robot, its event lists and fall recovery.

`Bits` has bit operations on naturals and the rounding up to powers of two; `Wrappers` has `Option`. Code that changes
things in place is modelled by classes and methods (`Back`, `Deflater`, `Document`, `Machine`, and the methods that fill
tables and buffers); each is proved against functions of the old state. Concurrent objects are modelled as state machines
because their methods interleave. Integer widths are explicit: counts in 31 bits and flags in the 32nd, `circular_less_than`
on 64-bit words, `uInt` wrap-around of `match_start`, 32-bit sums.

## Where the code does less than it says

- The asserts of `ReaderWriterQueue` that the next block is not empty (thirdparty/readerwriterqueue/readerwriterqueue.h:351,
  416, 467) fail for a queue constructed with size 0, blocking or not: its first block has one slot, and its front and tail
  stay equal when that slot is filled. `ReaderWriterQueue.AssertsIffSized` proves, for `try_dequeue` and `pop` and for
  `peek`, that the asserts hold in every run if and only if the size is at least 1; `ReaderWriterQueue.AssertFails` is a run
  in which one fails. With the asserts compiled out no element is lost: `ReaderWriterQueue.Fifo` holds for every size.
  But `size_approx` and the destructor, which go by the indices, miss the element in that slot
  (`ReaderWriterQueue.CountsIffSized`).
- The assert of `waitMany` (thirdparty/concurrentqueue/lightweightsemaphore.h:405) that at least one unit was acquired fails
  for a maximum of 0, which line 395 admits, and can fail after a failed kernel wait. `LightweightSemaphore.WaitManyAssert` proves
  that without failed waits it holds if and only if the maximum is positive; `LightweightSemaphore.WaitManyResult` has the
  other case.
- thirdparty/nlohmann/json.hpp:4838 says that an existing parent of an added value cannot be primitive. It can:
  `JsonPatch.AddBelowNumber` is a patch for which the `JSON_ASSERT` fails, and `JsonPatch.AddAborts` says exactly when.
- `diff` of two values promises a patch that gives the target. A NaN or discarded value equals nothing, so the result is
  equal to the target if and only if the target has neither (`JsonPatch.Diff`).
- RFC 6902 wants an error for the removal of a value that does not exist. `remove` below a value that is neither an object nor
  an array does nothing and succeeds (thirdparty/nlohmann/json.hpp:4852-4878); `JsonLaws.RemoveSilent` proves that this is the
  only case. A failing patch leaves what its earlier operations did, and a failing move can have removed its source
  (`JsonLaws.FailureLaw`).
- `adler32_z` from a value that is no checksum (a half of 65521 or more) can leave a sum unreduced for no byte or one
  byte, since it subtracts at most once; `Adler32.Adler32Z` has the exact condition.
- Strings are to be entered in the hash table as far as there are three bytes. One of the last two of a call that flushes is
  left out for good if that call runs out of output space while it passes them (thirdparty/zlib/deflate.c:1908, 1959, 1997);
  `DeflateSlow.Deflater.Session` proves that no other is ever left out.
- The read loop of `fill_window` (thirdparty/zlib/deflate.c:257-330) never takes a second turn with a window of twice
  `w_size`: one read either fills the lookahead or takes all input. The model keeps the loop, and
  `DeflateSlow.Deflater.FillWindow` ensures that there is one turn.
- A switch of policies is to last `switching_time` from its first tick. It does if it is entered with `switching_flag_` down.
  The flag is up outside `PolicySwitching` exactly when a `PolicySwitch` was handled while it was up, with no tick of
  `PolicySwitching` and no recovery since (`PolicyFsm.FlagUpIff`); so it is when the kernel handles the event only after
  another tick, as in `PolicyFsm.StaleTimer`, or when the event comes from elsewhere before the time is over. A switch
  entered so goes by the old timer (`PolicyFsm.SwitchEnds`) and can end early exactly when that timer was started before its
  first tick (`PolicyFsm.EarlyIffStale`).
- A fall recovery at clock reading 0 is taken for none. `PolicyFsm.RecoveriesApart` proves that the cooldown follows a
  recovery, however the run goes on, if and only if the reading was not 0 or there is no cooldown.

## Model

| member | source | states |
|---|---|---|
| FreeList.WonNodeIsExclusive | thirdparty/concurrentqueue/concurrentqueue.h:1473-1501 | in every run, a node just won by `try_get` has no should-be-on-list bit (the assert), is off the list, and no other thread has it, adds it or has won it |
| FreeList.ListIsAcyclic | thirdparty/concurrentqueue/concurrentqueue.h:1459-1538 | in every run the pointers from the head spell a null-terminated list with no node twice, whatever ABA patterns occur |
| FreeList.NoNodeIsLost | thirdparty/concurrentqueue/concurrentqueue.h:1459-1538 | every node is on the list, owned, won, being added by exactly one thread, or flagged with a thread still holding a reference on it |
| FreeList.FlaggedNodeIsReadded | thirdparty/concurrentqueue/concurrentqueue.h:1496-1510 | a thread with a reference on a flagged node cannot unlink it, and the one that drops the last reference adds it |
| FreeList.QuiescentAccounts | thirdparty/concurrentqueue/concurrentqueue.h:1459-1538 | with no call in progress each node is listed with count 1 or owned with count 0 |
| FreeList.SoloTryGet | thirdparty/concurrentqueue/concurrentqueue.h:1473-1514 | a `try_get` running alone takes the first node off the list, with count 0 and owned by the caller, or finds the list empty |
| FreeList.SoloAdd | thirdparty/concurrentqueue/concurrentqueue.h:1459-1470 | an `add` running alone puts the node at the front of the list with count 1 |
| LightweightSemaphore.PendingWaitersAccounted | thirdparty/concurrentqueue/lightweightsemaphore.h:278-418 | in every run: kernel count, posts in flight and the debt max(-m_count, 0) add up to the pending waiters |
| LightweightSemaphore.NeverOverAcquired | thirdparty/concurrentqueue/lightweightsemaphore.h:278-418 | units handed out never exceed the initial count plus all signals |
| LightweightSemaphore.TimedOutWaiterHasAPost | thirdparty/concurrentqueue/lightweightsemaphore.h:299-311 | a waiter that timed out and sees a non-negative count has a post made or in flight for it |
| LightweightSemaphore.NoLostWakeup | thirdparty/concurrentqueue/lightweightsemaphore.h:289-418 | waiters pending with no post made or in flight means there is no unit they could take |
| LightweightSemaphore.QuiescentBalance | thirdparty/concurrentqueue/lightweightsemaphore.h:278-418 | with no call in progress the kernel semaphore is empty and the count is the exact balance |
| LightweightSemaphore.WaitManyResult | thirdparty/concurrentqueue/lightweightsemaphore.h:314-407 | a whole call, whatever other threads do meanwhile: at most the maximum is returned; `tryWaitMany` takes exactly the minimum of the maximum and the units there when it decides, and the count falls by as many; `waitMany` returns none exactly when the maximum is 0 or it gives its decrement back, which it does only after a kernel wait that timed out or failed |
| LightweightSemaphore.WaitManyAssert | thirdparty/concurrentqueue/lightweightsemaphore.h:402-407 | the assert of line 405 holds, without failed kernel waits, if and only if the maximum is positive |
| DequeueProtocol.CircularLessIsLess | thirdparty/concurrentqueue/concurrentqueue.h:477-483 | on values less than half the range apart the word comparison is the true one |
| DequeueProtocol.HeadNeverPassesTail | thirdparty/concurrentqueue/concurrentqueue.h:1955-2052 | in every run, for any number of single and bulk dequeuers with stale reads, headIndex plus units won and unclaimed stays at most tailIndex |
| DequeueProtocol.ClaimIsPublished | thirdparty/concurrentqueue/concurrentqueue.h:2248-2280 | the indices a dequeuer is about to claim are published, and become its own alone |
| DequeueProtocol.ClaimsAreFinal | thirdparty/concurrentqueue/concurrentqueue.h:1955-2052 | each index below headIndex is claimed by exactly one dequeuer, for good |
| DequeueProtocol.QuiescentCount | thirdparty/concurrentqueue/concurrentqueue.h:1955-2052 | with no dequeue in progress optimistic count less overcommit is the head again |
| DequeueProtocol.SingleTestIsBulkTest | thirdparty/concurrentqueue/concurrentqueue.h:1959-1990 | the test of `dequeue`, count less overcommit against the tail, decides as that of `dequeue_bulk`, 0 against the difference, for all words; the steps use the one or the other |
| DequeueProtocol.SoloDequeue | thirdparty/concurrentqueue/concurrentqueue.h:2248-2280 | a `dequeue` or `dequeue_bulk` running alone claims exactly min(max, available) elements |
| BlockIndex.FindIs | thirdparty/concurrentqueue/concurrentqueue.h:2948-2964 | the signed division and the masks give the slot of the element's block whatever block the tail's key is of, also when indices have wrapped at 2^64 |
| BlockIndex.LookupIsRight | thirdparty/concurrentqueue/concurrentqueue.h:2901-3008 | in every run, with the producer entering, taking back and doubling between any two loads of any dequeuers, the entry found has the block's base as key and the block as value (the assert of line 2962), also for the following blocks of a bulk dequeue |
| BlockIndex.TailBaseIsValid | thirdparty/concurrentqueue/concurrentqueue.h:2953-2957 | the key at the tail that a dequeuer reads is never the invalid one (the assert of line 2957) |
| BlockIndex.GrownIsFresh | thirdparty/concurrentqueue/concurrentqueue.h:2919-2932 | after doubling, the entry behind the tail has the invalid key (the assert of line 2928) |
| BlockIndex.RevertFinds | thirdparty/concurrentqueue/concurrentqueue.h:2661-2681 | a failed bulk enqueue finds the entry of every block it entered, wherever the tail has gone back to |
| BlockIndex.Steps | thirdparty/concurrentqueue/concurrentqueue.h:2901-3008 | every step of the producer and of any dequeuer keeps the invariant |
| BlockIndex.Grows | thirdparty/concurrentqueue/concurrentqueue.h:2966-3008 | doubling keeps every block in the index, under a new slot, with lookups in older indices still right |
| BlockIndex.Takes | thirdparty/concurrentqueue/concurrentqueue.h:2889-2891 | the next slot modulo the capacity is that of the next block of a bulk dequeue |
| ReaderWriterQueue.Fifo | thirdparty/readerwriterqueue/readerwriterqueue.h:285-376 | for every size asked for, 0 included, and in every interleaving: dequeued elements, then the queue's contents, are the enqueued elements in order; no slot is overwritten or read unconstructed, and a block taken into use again is empty (the assert of line 588) |
| ReaderWriterQueue.AssertsIffSized | thirdparty/readerwriterqueue/readerwriterqueue.h:335-351 | the asserts of lines 351 and 467 (dequeuing) and of line 416 (peeking) hold in every run, of the plain and of the blocking queue, if and only if the size asked for is at least 1 |
| ReaderWriterQueue.AssertFails | thirdparty/readerwriterqueue/readerwriterqueue.h:400-420 | a run for size 0 in which the assert fails although the next block holds the next element |
| ReaderWriterQueue.CountsIffSized | thirdparty/readerwriterqueue/readerwriterqueue.h:493-506 | the indices show every element of the queue and of the block about to join it, in every run, if and only if the size asked for is at least 1; `size_approx` counts by them, and the destructor (204-228) walks them |
| ReaderWriterQueue.EmptyWasTrue | thirdparty/readerwriterqueue/readerwriterqueue.h:303-376 | `try_dequeue`, `pop` and `peek` report empty only if the queue was empty when the tail was read |
| ReaderWriterQueue.FullWasTrue | thirdparty/readerwriterqueue/readerwriterqueue.h:543-575 | the producer looks for another block only after it has seen its own with all but one slot filled |
| ReaderWriterQueue.ProdOutcome | thirdparty/readerwriterqueue/readerwriterqueue.h:535-655 | an enqueue appends exactly its element in one step and changes the contents in no other; `try_enqueue` fails only if the ring has no other free block, `enqueue` only if the allocation fails |
| ReaderWriterQueue.ConsOutcome | thirdparty/readerwriterqueue/readerwriterqueue.h:285-482 | a dequeue returns and removes the first element, `pop` removes it, `peek` returns it and removes nothing; no other step changes the contents |
| ReaderWriterQueue.WaitFree | thirdparty/readerwriterqueue/readerwriterqueue.h:285-655 | every step of either side brings its call nearer to its end, whatever the other side does |
| ReaderWriterQueue.CallsBegin | thirdparty/readerwriterqueue/readerwriterqueue.h:234-260 | a call begins as the operation it was called as and changes nothing else |
| ReaderWriterQueue.HadIsRight | thirdparty/readerwriterqueue/readerwriterqueue.h:303-376 | what `EmptyWasTrue` records when the tail is loaded is whether the queue has an element then |
| ReaderWriterQueue.Construct | thirdparty/readerwriterqueue/readerwriterqueue.h:105-161 | the constructor's loop makes a ring of empty blocks with room for the size asked for |
| ReaderWriterQueue.EnoughBlocks | thirdparty/readerwriterqueue/readerwriterqueue.h:117-124 | the number of blocks leaves one block spare and still holds the size asked for |
| ReaderWriterQueue.MaskWraps | thirdparty/readerwriterqueue/readerwriterqueue.h:535-575 | in every reachable state `(i + 1) & sizeMask` is wrap-around at the block size |
| ReaderWriterQueue.ProdAdvanceKeeps | thirdparty/readerwriterqueue/readerwriterqueue.h:576-600 | an element in a reused block joins the queue when tailBlock advances |
| ReaderWriterQueue.ConsAdvanceKeeps | thirdparty/readerwriterqueue/readerwriterqueue.h:335-365 | an emptied front block goes to the producer's side of the ring |
| CircularBuffer.BoundedFifo | thirdparty/readerwriterqueue/readerwritercircularbuffer.h:99-104 | in every interleaving, timeouts included, a FIFO that never holds more than its capacity |
| CircularBuffer.SlotsAreRight | thirdparty/readerwriterqueue/readerwritercircularbuffer.h:250-266 | an element is constructed in a free slot and the one taken is the oldest, also after the indices wrap, for capacities that are no power of two |
| CircularBuffer.SignalAsserts | thirdparty/readerwriterqueue/atomicops.h:736-745 | the assert of `signal` never fails, and a post is made only for a waiter that will take it |
| CircularBuffer.WaitStepOk | thirdparty/readerwriterqueue/atomicops.h:667-734 | a wait takes a unit exactly when it succeeds, and leaves nothing behind when it gives up |
| CircularBuffer.EnqueueFailsFull | thirdparty/readerwriterqueue/readerwritercircularbuffer.h:99-160 | an enqueue fails only if every slot was full or emptied and not yet signalled |
| CircularBuffer.DequeueFailsEmpty | thirdparty/readerwriterqueue/readerwritercircularbuffer.h:191-222 | a dequeue fails only if there was nothing but an element not yet signalled |
| CircularBuffer.QuiescentCount | thirdparty/readerwriterqueue/readerwritercircularbuffer.h:44-51 | with no call in progress the approximate size is the number of live elements |
| CircularBuffer.Construct | thirdparty/readerwriterqueue/readerwritercircularbuffer.h:34-42 | the buffer is the next power of two, empty, with capacity units in the slot semaphore |
| InflateTable.CountLengths | thirdparty/zlib/inftrees.c:101-105 | the number of symbols of each length |
| InflateTable.CheckLeft | thirdparty/zlib/inftrees.c:125-133 | the running difference finds exactly the over-subscribed sets, and how much an incomplete one leaves |
| InflateTable.SortSymbols | thirdparty/zlib/inftrees.c:135-142 | each coded symbol at its place by length, then by symbol |
| InflateTable.BackwardIncrement | thirdparty/zlib/inftrees.c:234-243 | incrementing the reversed code is taking the next code |
| InflateTable.Replicate | thirdparty/zlib/inftrees.c:225-232 | exactly the indices whose low bits are the code get the entry |
| InflateTable.SubTableBits | thirdparty/zlib/inftrees.c:260-268 | a new sub-table is wide enough for all codes with its root prefix and no wider than the longest |
| InflateTable.FillTable | thirdparty/zlib/inftrees.c:192-297 | the filling loop gives a table that decodes every code and writes every used slot |
| InflateTable.InflateTable | thirdparty/zlib/inftrees.c:32-299 | for every accepted set of lengths, any stream that starts with a symbol's canonical code finds that symbol's entry through at most one link, consuming exactly its length; other streams find the invalid marker, and there are none if the set is complete; every slot below `used` is read by some stream and none behind it is changed; `used` is the root table plus, for each root index with longer codes, a sub-table for the longest of them; -1 exactly for the sets the code rejects, 1 exactly if that size exceeds ENOUGH_LENS or ENOUGH_DISTS |
| InflateTable.WidthIs | thirdparty/zlib/inftrees.c:260-268 | the running difference stops at the length of the longest code with the root bits |
| HuffmanCode.PrefixFree | thirdparty/zlib/inftrees.c:74-100 | no canonical code is a prefix of another |
| InflateFast.CopyMatch | thirdparty/zlib/inffast.c:166-261 | with a window of whave bytes ending at wnext, the bytes written are those of the LZ77 copy, in the contiguous, wrapped, wnext == 0 and overlapping cases, and nothing else is written |
| InflateFast.NextItem | thirdparty/zlib/inffast.c:104-165 | one turn takes from the reservoir what the tables have at the current position of the stream, reading no byte beyond the input, and the reservoir stays below 2^32 |
| InflateFast.NextDistance | thirdparty/zlib/inffast.c:132-165 | the distance after a length, with its extra bits, likewise |
| InflateFast.ReturnUnused | thirdparty/zlib/inffast.c:289-303 | whole unused bytes go back and fewer than 8 bits are kept |
| InflateFast.InflateFast | thirdparty/zlib/inffast.c:50-304 | with 6 bytes of input and 258 of output on entry every access is in bounds; after n symbols output and bit position are those of n look-ups in the stream |
| InflateFast.TablesFromLengths | thirdparty/zlib/inftrees.c:32-299 | the tables `inflate_table` builds are such as `inflate_fast` needs |
| CanonicalDecoder.SymbolUnique | thirdparty/zlib/inftrees.c:74-100 | a stream starts with the canonical code of at most one symbol, so that the decoder defined from the code lengths is well defined |
| CanonicalDecoder.EntryIs | thirdparty/zlib/inftrees.c:32-299 | for every stream the tables give the entry of the symbol whose canonical code it starts with, or the invalid marker if there is none |
| CanonicalDecoder.LengthEntry | thirdparty/zlib/inftrees.c:55-60 | the tables of base values and extra bits of lengths agree with the formulas behind section 3.2.5 of RFC 1951 |
| CanonicalDecoder.DistanceEntry | thirdparty/zlib/inftrees.c:61-68 | those of distances too |
| CanonicalDecoder.NextIs | thirdparty/zlib/inffast.c:104-165 | one turn on tables built from code lengths decodes what the lengths mean: the symbol whose code the stream starts with, then base value and extra bits, and a distance likewise |
| CanonicalDecoder.DecodeIs | thirdparty/zlib/inffast.c:50-304 | and so for any number of symbols: same output, same bit position, same end |
| CanonicalDecoder.BuildTables | thirdparty/zlib/inflate.c:997-1018 | both tables are those of the codes; one is refused exactly for sets that are over-subscribed, or incomplete other than by a single code of one bit, or too large for the table |
| CanonicalDecoder.FastCodes | thirdparty/zlib/inffast.c:50-304 | `inflate_fast` on the tables of a code: after n symbols output and bit position are those of the decoder defined from the code lengths, behind the symbol that stopped it |
| CanonicalDecoder.InflateCodes | thirdparty/zlib/inflate.c:997-1029 | from the code lengths to the output: the two together |
| DynamicBlock.CodesEntry | thirdparty/zlib/inftrees.c:176-211 | the table entry of a code length symbol, for every symbol below 19, is op 0 with the symbol itself: none is taken for a length or the end of the block |
| DynamicBlock.DirectEntry | thirdparty/zlib/inftrees.c:208-219 | in the table of a code length code every stream finds, without a link, the symbol whose canonical code it starts with, and that code's length |
| DynamicBlock.Settled | thirdparty/zlib/infback.c:388-392 | looking up with fewer bits than the code may have: an entry that takes no more bits than are known is the right one, and otherwise the right one needs more |
| DynamicBlock.ReadCodeLengths | thirdparty/zlib/infback.c:364-371 | the three-bit lengths in their order of section 3.2.7 of RFC 1951, the others 0 |
| DynamicBlock.BuildCodes | thirdparty/zlib/infback.c:372-381 | the table of the code length code, refused exactly for an over-subscribed or incomplete set |
| DynamicBlock.ReadLengths | thirdparty/zlib/infback.c:385-434 | the lengths, with repeats of the one before and of zero, are those of the decoder defined from the code lengths of the code length code; an error exactly if a repeat has none before it or goes beyond the end; input runs out exactly if there are fewer bits than that decoder takes |
| DynamicBlock.ReadHeader | thirdparty/zlib/infback.c:345-441 | the same for the whole header: the limits 286 and 30, the code length code, the lengths, the end-of-block code |
| DynamicBlock.RestOfStream | thirdparty/zlib/infback.c:119-141 | the bits kept and the input not yet read are the rest of the stream |
| DynamicBlock.InflateDynamic | thirdparty/zlib/infback.c:345-478 | a dynamic block from its first bit on: accepted exactly if the header and both codes are, and then decoded by the codes of the header |
| InflateBack.Back.Room | thirdparty/zlib/infback.c:202-213 | a full window is passed to out(); the output so far is unchanged |
| InflateBack.Back.EmitLiteral | thirdparty/zlib/infback.c:499-509 | a literal is appended to the output, or out() has failed |
| InflateBack.Back.CopyStored | thirdparty/zlib/infback.c:327-340 | the bytes of a stored block move from input to output, over any number of chunks and window wraps |
| InflateBack.Back.CopyMatch | thirdparty/zlib/infback.c:565-591 | a match is refused exactly when its distance exceeds min(bytes produced, wsize), and otherwise appends the LZ77 copy |
| InflateBack.Back.Run | thirdparty/zlib/infback.c:202-591 | over any commands, output passed on plus the filled window is the LZ77 expansion of the commands done |
| InflateBack.SourceByte | thirdparty/zlib/infback.c:576-584 | where the byte `offset` back is in the ring |
| Lz77.CopyAt | thirdparty/zlib/inffast.c:249-261 | every copied byte equals the byte `dist` before it, also in an overlapping copy |
| DeflateHash.HashForgets | thirdparty/zlib/deflate.c:136-141 | for every memory level the third update removes the oldest byte from the hash |
| DeflateHash.ThirdByte | thirdparty/zlib/deflate.c:1398-1402 | equal hashes and equal first two bytes mean equal third bytes, which is why `scan[2]` need not be compared |
| DeflateState.EnterNext | thirdparty/zlib/deflate.c:160-163 | INSERT_STRING keeps heads and links exact: each head is the last string entered with its hash, each link the last before it with the same hash, unless that is out of the window |
| DeflateState.SlideChains | thirdparty/zlib/deflate.c:187-209 | subtracting the window size from every head and link keeps all chains exact |
| DeflateState.NextOnChain | thirdparty/zlib/deflate.c:1461-1462 | a link followed above the limit is an earlier string of the same hash within MAX_DIST |
| DeflateState.MatchFits | thirdparty/zlib/deflate.h:329-338 | a distance and a length survive being cut into the three bytes of a symbol and read back as compress_block reads them |
| DeflateSlow.U32Distance | thirdparty/zlib/deflate.c:1948 | the distance computed in `uInt` is right even if match_start has become -1 in a slide |
| DeflateSlow.Deflater.SlideHash | thirdparty/zlib/deflate.c:187-209 | head and prev in place: every entry loses the window size or becomes NIL |
| DeflateSlow.Deflater.Slide | thirdparty/zlib/deflate.c:276-289 | moving the upper half down keeps window, chains, pending match and block start at the same positions of the data |
| DeflateSlow.Deflater.FillWindow | thirdparty/zlib/deflate.c:251-330 | reads input behind the lookahead, keeps every position, leaves enough lookahead or no input, and room for a search (the assert of line 366); at least two bytes of room for each read; the loop takes one turn |
| DeflateSlow.Deflater.CatchUp | thirdparty/zlib/deflate.c:306-326 | strings left out at the end of earlier input are entered, and the running hash is ready |
| DeflateSlow.Deflater.InsertString | thirdparty/zlib/deflate.c:160-163 | the string is entered and the last one before with the same hash returned; the hash is that of the next two bytes |
| DeflateSlow.Deflater.MatchLength | thirdparty/zlib/deflate.c:1433-1450 | the unrolled comparison finds the exact common length up to 258, staying inside the window |
| DeflateSlow.Deflater.LongestMatch | thirdparty/zlib/deflate.c:1331-1472 | a longer length than prev_length comes with a true match within MAX_DIST and the lookahead; the strings seen are the chain in order, none has a longer match, the match is the first as long, and the search ends by a nice length, the budget or the end of the chain, and not before |
| DeflateSlow.Deflater.Search | thirdparty/zlib/deflate.c:1915-1936 | if the head is not NIL, the pending match shorter than max_lazy and the distance at most MAX_DIST, match_length is the best length within the lookahead of a search as above, unless given up as filtered or TOO_FAR; otherwise it is 2 |
| DeflateSlow.Deflater.FindMatch | thirdparty/zlib/deflate.c:1907-1936 | the step up to the decision leaves the pending match and the new one true, and the search is the one the data asks for (`LookOk`): the latest earlier strings with the hash of this one |
| DeflateSlow.Deflater.Process | thirdparty/zlib/deflate.c:1907-1989 | a step emits exactly the pending match if it has 3 bytes or more and no longer one is found, exactly the pending byte if not, and nothing if no byte is pending; what is pending then |
| DeflateSlow.Deflater.EmitMatch | thirdparty/zlib/deflate.c:1941-1972 | the pending match becomes a symbol that stands for its bytes, and its strings are entered |
| DeflateSlow.Deflater.EmitLiteral | thirdparty/zlib/deflate.c:1974-1987 | the pending byte becomes a literal |
| DeflateSlow.Deflater.FlushBlock | thirdparty/zlib/deflate.c:1564-1573 | all symbols held are sent; the bytes given along are exactly those they stand for |
| DeflateSlow.Deflater.DeflateSlow | thirdparty/zlib/deflate.c:1885-2005 | for every state, input, flush and output space, the symbols sent and held expand to exactly the data before strstart, less the pending byte, and are those that searches at each position in turn give (`Following`), each knowing 262 bytes of the data or all that is flushed; no input is lost; when flushing is done everything is sent |
| DeflateSlow.Deflater.ForgetHistory | thirdparty/zlib/deflate.c:1199-1206 | clearing the hash and restarting the window keeps all that; strings from before are not looked at any more |
| DeflateSlow.Deflater.Session | thirdparty/zlib/deflate.c:1885-2005 | for every sequence of calls with any chunks: data read plus input left is all that was supplied; after a completed flush or finish the symbols sent expand to all of it; the symbols are those the data asks for, where all strings since the last full flush are in the table but for the last two of a call that flushes, and all of them if only the last call flushes |
| LazyMatching.ChoiceUnique | thirdparty/zlib/deflate.c:1907-1989 | the data asks for one thing only: what a step emits and leaves pending follows from the data, the bytes known and what is in reach |
| LazyMatching.Determined | thirdparty/zlib/deflate.c:1885-2005 | so do the symbols of whole runs |
| LazyMatching.RepetitionFound | thirdparty/zlib/deflate.c:1915-1936 | if the latest string with the same hash is in reach and repeats more bytes than the pending match has, the match found is as long and is used unless given up |
| LazyMatching.ExplainedStays | thirdparty/zlib/deflate.c:251-330 | what was emitted remains what the data asks for when more data comes |
| DeflateSlow.Deflater.constructor | thirdparty/zlib/deflate.c:436-520 | the state and the settings that deflateInit2_ and lm_init set up |
| Crc32.MultModP | thirdparty/zlib/crc32.c:155-171 | the product of polynomials modulo p(x), ending for every non-zero a |
| Crc32.X2nModP | thirdparty/zlib/crc32.c:176-187 | x^(n 2^k), never zero, also for k past the end of the table |
| Gf2.MulCommutes | thirdparty/zlib/crc32.c:155-171 | the product is commutative |
| Gf2.MulAssociates | thirdparty/zlib/crc32.c:155-171 | the product is associative |
| Gf2.ShippedTable | thirdparty/zlib/crc32.h:9439-9446 | the shipped table holds x^(2^k), and squaring its last entry gives the first |
| Gf2.TableWraps | thirdparty/zlib/crc32.c:176-187 | entry k mod 32 stands for x^(2^k) for every k |
| Crc32.Combine | thirdparty/zlib/crc32.c:1021-1026 | from the CRCs of A and B and the length of B, the CRC of A followed by B |
| Crc32.CombineIs | thirdparty/zlib/crc32.c:1021-1026 | the algebra behind it, for all A and B |
| Crc32.MakeTables | thirdparty/zlib/crc32.c:310-335 | every entry of the byte table is the CRC of its byte; every entry of the power table x^(2^k); the braid tables are complete |
| Crc32.BraidRow | thirdparty/zlib/crc32.c:528-540 | a row of the braid tables: each byte moved to its place n words on |
| Crc32.Braid | thirdparty/zlib/crc32.c:528-540 | all rows, for every number of braids |
| Crc32.CrcWord | thirdparty/zlib/crc32.c:676-681 | the register after the eight bytes of a word |
| Crc32.BraidsAdvance | thirdparty/zlib/crc32.c:759-813 | the braids, each advanced over its word and the words between, add up to the register of the whole block |
| Crc32.Blocks | thirdparty/zlib/crc32.c:718-860 | the braided loop computes the register of all its bytes; the block count does not underflow |
| Crc32.Crc32Z | thirdparty/zlib/crc32.c:694-1009 | for every starting value, alignment and length, the bit-at-a-time CRC |
| Crc32.Crc32Dynamic | thirdparty/zlib/crc32.c:694-701 | the same with the tables that make_crc_table makes, nothing being given |
| CrcLaws.Residue | thirdparty/zlib/crc32.c:694-1009 | whatever the data and the starting value, data followed by its CRC in little-endian order has the CRC 0x2144df1c |
| CrcLaws.Continues | thirdparty/zlib/crc32.c:704-1009 | the CRC of nothing more is the value given, and continuing with B is the CRC of A followed by B |
| CrcLaws.CheckValue | thirdparty/zlib/crc32.c:694-1009 | the CRC of the digits 1 to 9 is 0xcbf43926 |
| Adler32.NMaxIsLargest | thirdparty/zlib/adler32.c:10-12 | n bytes after a reduction, or after any 16-bit sums, no sum exceeds 32 bits if and only if n <= NMAX |
| Adler32.Chop | thirdparty/zlib/adler32.c:25-30 | CHOP keeps the residue |
| Adler32.Mod28 | thirdparty/zlib/adler32.c:31-35 | the exact residue below 2^28 |
| Adler32.Mod | thirdparty/zlib/adler32.c:36-40 | the exact residue below 2^32, without and with division |
| Adler32.Mod63 | thirdparty/zlib/adler32.c:41-52 | the exact residue below 2^63 |
| Adler32.Adler32Z | thirdparty/zlib/adler32.c:61-125 | for every starting value and buffer both sums have the right residues and no intermediate sum exceeds 32 bits; the result is that of the per-byte definition if and only if the guard `Exact` holds, and so, a checksum again, whenever the starting value is a checksum |
| Adler32.Combine | thirdparty/zlib/adler32.c:133-155 | from the checksums of A and B and the length of B, that of A continued with B; the invalid value for a negative length |
| Adler32.AdlerAppend | thirdparty/zlib/adler32.c:61-125 | continuing A's checksum with B is the checksum of A followed by B |
| Adler32.InClosedForm | thirdparty/zlib/adler32.c:61-125 | the checksum is 1 plus the sum of the bytes, and the sum of all those sums, each modulo 65521 |
| Adler32.CheckValue | thirdparty/zlib/adler32.c:61-125 | the checksum of the digits 1 to 9 is 0x091e01de |
| JsonPointer.UnescapeEscape | thirdparty/nlohmann/detail/string_escape.hpp:50-69 | unescaping undoes escaping |
| JsonPointer.ParseAppend | thirdparty/nlohmann/detail/json_pointer.hpp:666-726 | appending `/` and an escaped token to a pointer string appends that token |
| JsonPointer.IndexRoundTrip | thirdparty/nlohmann/detail/json_pointer.hpp:214-260 | an index printed in decimal is read back |
| JsonLaws.IndexIff | thirdparty/nlohmann/detail/json_pointer.hpp:214-260 | a token is the index i exactly if it is i in decimal notation and i is small enough: no sign, no leading zero |
| JsonLaws.ParseIff | thirdparty/nlohmann/detail/json_pointer.hpp:666-726 | a string is a pointer exactly if it is empty, or starts with a slash and every tilde is followed by 0 or 1; its tokens, escaped, spell it |
| JsonLaws.ParseText | thirdparty/nlohmann/detail/json_pointer.hpp:666-726 | any tokens, written as a pointer, are read back |
| JsonLaws.EscapeUnescape | thirdparty/nlohmann/detail/string_escape.hpp:50-69 | escaping undoes unescaping |
| JsonPointer.PutOk | thirdparty/nlohmann/detail/json_pointer.hpp:422-466 | after assigning through a pointer, the pointer finds the value assigned |
| JsonPointer.Below | thirdparty/nlohmann/detail/json_pointer.hpp:422-466 | what a longer pointer finds and replaces inside an assigned value |
| JsonPatch.Document.PatchInplace | thirdparty/nlohmann/json.hpp:4747-5014 | the operations in order up to the first that fails; how it ends and what it leaves behind; what each does is in the laws that follow |
| JsonLaws.AddLaw | thirdparty/nlohmann/json.hpp:4784-4849 | a member is set or replaced; an element is inserted at its index, and the later ones move up by one; pointers apart from the place find what they found |
| JsonLaws.AddSucceeds | thirdparty/nlohmann/json.hpp:4784-4849 | an addition succeeds if and only if the parent is there and can take the member or the element |
| JsonLaws.RemoveLaw | thirdparty/nlohmann/json.hpp:4852-4878 | the member is gone, or the element, and the later ones move down by one; pointers apart find what they found |
| JsonLaws.RemoveSilent | thirdparty/nlohmann/json.hpp:4852-4878 | the removal of what is not there succeeds if and only if the parent is there and is neither an object nor an array |
| JsonLaws.ReplaceLaw | thirdparty/nlohmann/json.hpp:4943-4948 | succeeds if and only if there is a value; then the pointer finds the new one, and pointers apart find what they found |
| JsonLaws.CopyLaw | thirdparty/nlohmann/json.hpp:4967-4980 | the target has the value of the source, which is still found, as is everything apart from the target |
| JsonLaws.MoveLaw | thirdparty/nlohmann/json.hpp:4950-4965 | a move that succeeds, of a value neither above nor below its target: the target has the value the source had, the source member is gone or its element removed, everything apart from both is found as before |
| JsonLaws.TestLaw | thirdparty/nlohmann/json.hpp:4982-5003 | succeeds if and only if a value is found and equal; the document is unchanged |
| JsonLaws.FailureLaw | thirdparty/nlohmann/json.hpp:4901-5013 | an operation that fails leaves the document as it was, but for a move that has removed its source |
| JsonLaws.PutFrame | thirdparty/nlohmann/detail/json_pointer.hpp:422-466 | assigning through a pointer changes nothing that another pointer, neither above nor below, finds |
| JsonPatch.ApplyConcat | thirdparty/nlohmann/json.hpp:4901-5013 | applying two patches one after the other is applying their concatenation |
| JsonPatch.AddBelow | thirdparty/nlohmann/json.hpp:4784-4849 | adding below a value at a path changes that value alone |
| JsonPatch.RemoveBelow | thirdparty/nlohmann/json.hpp:4852-4878 | removing below a value at a path changes that value alone |
| JsonPatch.DiffAt | thirdparty/nlohmann/json.hpp:5028-5158 | the patch for a path, applied to any document with source there, raises nothing and puts a value there that is equal to target if and only if target is clean; it is empty if and only if source equals target |
| JsonPatch.DiffArrays | thirdparty/nlohmann/json.hpp:5052-5094 | common elements compared, the rest removed last first, or added at the end |
| JsonPatch.DiffObjects | thirdparty/nlohmann/json.hpp:5096-5136 | common members compared, others removed or added, in any order of the members |
| JsonPatch.Diff | thirdparty/nlohmann/json.hpp:5028-5158 | for all values: the patch applies without error, gives a value equal to target if and only if target has no NaN and no discarded value, and is empty if and only if source equals target |
| JsonPatch.Turn | thirdparty/nlohmann/json.hpp:4747-5158 | `diff` and `patch_inplace` together turn a document into the target |
| JsonPatch.AddBelowNumber | thirdparty/nlohmann/json.hpp:4838-4847 | a patch for which the assertion of line 4847 fails |
| JsonPatch.AddAborts | thirdparty/nlohmann/json.hpp:4784-4849 | it fails if and only if the parent exists and is neither null, object nor array |
| JsonPatch.MergePatch | thirdparty/nlohmann/json.hpp:5170-5194 | the loop over the members computes the merge of section 2 of RFC 7396 |
| JsonLaws.MergeLaw | thirdparty/nlohmann/json.hpp:5170-5194 | a patch that is no object takes the place of the target; a null removes a member, any other value is merged into it, members not named stay |
| JsonLaws.MergeFresh | thirdparty/nlohmann/json.hpp:5170-5194 | a patch without nulls, merged into anything that is no object, is the result |
| JsonLaws.MergeNoNulls | thirdparty/nlohmann/json.hpp:5170-5194 | no null comes out of a merge but from the target or as the whole patch |
| JsonPatch.MergeIdempotent | thirdparty/nlohmann/json.hpp:5170-5194 | applying a merge patch twice is applying it once |
| PolicyFsm.RunsAreSafe | user_func.hpp:173-567 | in every run of ticks and events, a controller is stepped only after an Init with no Stop since; current and target differ exactly in PolicySwitching |
| PolicyFsm.SwitchStopsTheOther | user_func.hpp:305-314 | the switch stops the controller that ran, never the one about to run, which is initialised |
| PolicyFsm.NextOk | user_func.hpp:173-664 | every admitted event and every tick keeps that |
| PolicyFsm.FlagUpIff | user_func.hpp:534-562 | in every run, outside PolicySwitching the flag is up if and only if a switch was handled while it was up, and since then there was neither a tick of PolicySwitching nor a recovery |
| PolicyFsm.SwitchEnds | user_func.hpp:539-562 | a switch ends with exactly the first tick that comes switching_time after its timer was started: by its own first tick if it was entered with the flag down, earlier if it was up |
| PolicyFsm.EarlyIffStale | user_func.hpp:539-562 | a switch can end before switching_time has passed since its first tick if and only if it was entered with the flag up and a timer started before that tick |
| PolicyFsm.StaleTimer | user_func.hpp:539-562 | for every positive switching_time and all clock readings, a run that gets there: the event is emitted in time and handled one tick late, and the next switch can end with its first tick |
| PolicyFsm.RecoveriesApart | user_func.hpp:625-639 | after a recovery, every later one is at least the cooldown away, however the run goes on, if and only if the clock did not read 0 or there is no cooldown |
| PolicyFsm.RecoveryIff | user_func.hpp:599-640 | in every run, a tick of PolicyRunning begins a recovery if and only if recovery is on and not under way, the robot is tilted, this is at least tick number confirm_cycles of PolicyRunning since the last untilted one, or one under recovery, or a recovery, and the last recovery is the cooldown ago or was at reading 0 |
| PolicyFsm.RecoveryEnds | user_func.hpp:502-510 | in every run, a tick of PolicyRunning emits an event if and only if the recovery controller runs and its trajectory is at its end; when that event is handled next, the robot switches to Standing, which is initialised, and Standing runs once the switch is handled |
| PolicyFsm.EnableSwitches | user_func.hpp:193-296 | what each admitted enabling leads to: that controller is initialised and the target, and it runs once the switch is handled |
| PolicyFsm.EnableCurrent | user_func.hpp:193-296 | enabling the controller that runs changes nothing |
| PolicyFsm.RecoveryAnywhere | user_func.hpp:642-664 | enabling the recovery controller makes it run at once in every state, the one before stopped; the others are enabled only while a policy runs |
| PolicyFsm.StartsStanding | user_func.hpp:173-192 | from the start through the initial pose to Standing, initialised and running |
| PolicyFsm.TickSteps | user_func.hpp:487-517 | a tick of PolicyRunning steps exactly one controller, the current one, as its last action |
| PolicyFsm.Machine.React | user_func.hpp:173-664 | the handlers and ticks change the fields as the functions say, and emit the events they emit |
| PolicyFsm.Machine.EnableRecovery | user_func.hpp:642-664 | what the recovery stops, initialises and sets |
| PolicyFsm.Machine.ShouldRecover | user_func.hpp:599-640 | the answer, the counter and the time of the last recovery |

## Left out

- Memory orders and fences: sequential consistency is assumed, as are kernel semaphores that count exactly.
- FreeList: more than 2^31 - 2 threads, for which the reference count would overflow into the flag.
- DequeueProtocol: snapshots so old that the true difference leaves the signed range of a word; block management is in BlockIndex.
- BlockIndex.LookupIsRight: how many elements of a block are dequeued. A block is released when no dequeuer still needs it, which the emptiness counters of its elements decide; an index so large that it would cover more than 2^64 elements is not allocated.
- LightweightSemaphore: overflow of `ssize_t`; `wait` and `tryWait` are `waitMany(1)` and `tryWaitMany(1)`; how long a spin or a timeout lasts.
- ReaderWriterQueue, CircularBuffer: moves, swaps, exceptions of element constructors, and allocation failure other than a failing `make_block` in an enqueue.
- InflateTable.InflateTable: that no set of 286 lengths with 9 root bits, or of 30 with 6, needs more than ENOUGH_LENS or ENOUGH_DISTS entries; zlib finds that by a search over all sets (thirdparty/zlib/inftrees.h:39-54).
- InflateBack: decoding the symbols one by one from bits when there is too little input or output for `inflate_fast`.
- InflateFast: INFLATE_STRICT's dmax check and the sane flag.
- CanonicalDecoder.BuildTables: the two tables are arrays of their own, not parts of one, as is that of the code length code.
- DynamicBlock.InflateDynamic: what the caller does when input runs out; `inflate`, which saves its place in the header and goes on in the next call, reads the same fields in the same order.
- DeflateSlow: `deflate_stored`, `deflate_fast`, `deflate_rle` and `deflate_huff`; preset dictionaries; `deflateParams` in mid-stream; zeroing behind the data for memory checkers; the 16-bit branches, FASTEST and UNALIGNED_OK; the coding of blocks, which receives the symbols as a sequence; the table of settings for each level, which are parameters. `longest_match` keeps its best position in a local variable until it returns.
- Crc32: the big-endian and ARM paths; that the tables are made once only; other values of N and W.
- Adler32.Combine: values whose halves are not below 65521, which no checksum has.
- JsonLaws.TestLaw: in `test` without a value at a path that does not exist either, C++ leaves open which of the two errors is raised; the model raises that of the missing value.
- JsonPatch: parsing and printing; the rounding of integers that are compared with floats; the order of members in an object is left open; `diff` needs arrays shorter than the largest size_type.
- PolicyFsm: ROS, logging and the devices; the kernel's STOP event ends a run; the initial-pose controller; the command vector; controllers compared by identity are assumed distinct.
- gzip file functions, compress and uncompr, the stream headers and the other block types of inflate, and the explicit producer's own block index.
