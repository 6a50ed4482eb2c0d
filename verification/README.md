# Verified models of the block layer and of crypto modes of Linux 2.6

A model of the hardest parts of the block layer (`linux/block`) and of the crypto layer
(`linux/crypto`) of a Linux 2.6 kernel, with proofs. Code that updates state in place is modelled by
classes and methods that do, proved against functions on values; protocols between threads, the
queue and the driver are state machines whose runs are arbitrary. `BUG_ON` and `WARN_ON` set a flag
or are preconditions that every caller meets.

* **Ordered writes** (`Barrier`, `BarrierInv`, `BarrierRuns`, `BarrierQueue`). The barrier protocol:
  dispatch list, colours, progress bits, requeues, and the three proxy requests in the queue. The
  ordering guarantees hold over every run; the methods on the queue refine the steps of the runs.
* **Asynchronous chain IVs** (`ChainIv`). The INUSE bit, the request queue and the work item under all
  interleavings of any number of threads, with sequentially consistent memory.
* **Camellia** (`CamelliaSpec`, `CamelliaTable`, `CamelliaCode`, `CamelliaSetup`). The key table that
  absorbs the whitening keys means the same as the network of RFC 3713, for any S-boxes.
* **Segments** (`Segments`, `Merging`). Counting the segments of a request and mapping it to a
  scatterlist are two greedy loops that split at different places; the first always allows for the
  second. Counts corrected by merging do so exactly under a condition on the joins.
* **Block modes** (`ModeSpec`, `ModeBlocks`, `ModeWalk`, `Modes`, `Scratch`). CBC and CTR over
  scatterlists: the walk with its fast, bounce-page and one-block paths computes the flat mode.
* **CCM and CTS** (`CcmSpec`, `Ccm`, `Cts`). Unambiguous formatting, the MAC over data in pieces, the
  counter and the nonce, ciphertext stealing, round trips.
* **I/O schedulers** (`SortList`, `Anticipatory`, `Deadline`, `Cfq`). Cached next requests, bounded
  starvation of writes, agreement of the sorted and the FIFO lists, and draining.
* **Queues of requests** (`Cryptd`, `Tags`, `Completion`). The backlog cursor and the promises of the
  cryptd thread, the tag map and the restoration of order, and partial completion.

The block cipher is any function on blocks with an inverse; the mergeability macros, the alignment of
list positions, scheduler keys, expiry checks and errors of the driver are arbitrary. Integers are
unbounded unless the wrap-around is the point: sector numbers and counters of the schedulers do not
overflow, the counter block and the lengths of CCM have their widths. Red-black trees are sorted
sequences, lists are sequences, and what the code does under one lock is one step.

Where the code does less than one might expect, that is stated:

* `set_msg_len` refuses lengths above 256 to the L but not the limit itself, which it stores as zero
  when L is below four (`CcmSpec.LengthFieldExact`). There the formatting is no longer prefix free
  (`CcmSpec.FormatAtLimit`).
* `crypto_ccm_auth` sets the number of pending bytes only when there is associated data. Without any,
  the MAC starts from whatever the request context holds (`Ccm.Auth`). That is right exactly when it
  holds nothing, or zeros that make no difference (`CcmSpec.StaleExact`, `CcmSpec.StaleByte`), and it
  stays inside the buffer exactly when it holds at most sixteen bytes (`Ccm.PendingBound`).
* `crypto_ccm_decrypt` looks at the length only after the counter pass. A message whose blocks do not
  fit the counter carries into the nonce (`Ccm.PassExact`), and with a nonce of ones into L, so that
  the overflow goes unnoticed (`Ccm.CarryAccepted`, `Ccm.OverflowMissed`).
* A chain IV request whose encryption returns an error leaves the chaining value where it was, so the
  next request uses it again (`ChainIv.UnbrokenChain`).
* `ll_merge_requests_fn` subtracts a segment by looking at the two bios that meet only. Joined twice, a
  request can count fewer segments than it is mapped to (`Merging.ThreeJoined`); `Merging.MergedLegal`
  says when the count stands for a legal clustering.
* `blk_queue_resize_tags` copies the old map whole, which fits exactly when the clamped depth is not
  below the old one (`Tags.CopyFitsWhen`, `Tags.LowerThenGrow`).
* A request that starts inside another one can defeat the cache of the anticipatory scheduler
  (`Anticipatory.InsideDefeatsCache`); `Anticipatory.FindNextExact` says exactly when. A front merge onto
  the sector of the only other request loses the cache altogether, and a forced dispatch then leaves the
  request behind (`Anticipatory.Queue.FrontMerged`, `Anticipatory.Queue.ForcedDispatch`).
* Completing a request in two steps can leave other contents in the bvecs before the index, which are
  done with, than completing it in one (`Completion.HalvesDiffer`); they agree exactly when no bvec is
  split (`Completion.RemainingAgain`). The live bvecs always agree (`Completion.Compose`).
* `crypto_cts_encrypt` and `crypto_cts_decrypt` take a message shorter than a block to be a whole one.

## Model

| member | source | states |
|---|---|---|
| Barrier.CurSeqIsLowestClearBit | linux/block/blk-barrier.c:55-60 | the current stage is the lowest clear bit of the progress word, for every reachable combination of bits |
| BarrierQueue.RequestQueue.OrderedReqSeq | linux/block/blk-barrier.c:62-89 | the stage a request belongs to: a proxy's own, before the barrier for requests of its colour, after it for the others |
| BarrierQueue.RequestQueue.OrderedCompleteSeq | linux/block/blk-barrier.c:91-112 | refines the abstract step: the bit is recorded, the first error kept, and the last stage ends the original barrier and the sequence |
| BarrierQueue.RequestQueue.Unlink | linux/block/blk-barrier.c:157-165 | the barrier leaves the list and becomes the original barrier |
| BarrierQueue.RequestQueue.QueueProxy | linux/block/blk-barrier.c:132-152 | a proxy is initialised and put at the front; initialising one that is still in use is recorded as a bug |
| BarrierQueue.RequestQueue.StackProxies | linux/block/blk-barrier.c:166-200 | the proxies that the mode and the barrier need stand at the front, in stage order, and the bits of the others are set |
| BarrierQueue.RequestQueue.StartOrdered | linux/block/blk-barrier.c:154-203 | refines the abstract start of a sequence |
| BarrierQueue.RequestQueue.DoOrdered | linux/block/blk-barrier.c:205-252 | refines the abstract decision whether the first request may go to the driver |
| BarrierQueue.RequestQueue.ElvDispatchSort | linux/block/elevator.c:417-451 | a request of the scheduler is put at its sorted place, never past a barrier, a started or a soft-barrier request |
| BarrierQueue.RequestQueue.FindSortPos | linux/block/elevator.c:428-448 | the backward walk finds that place |
| BarrierQueue.RequestQueue.ElvDispatchAddTail | linux/block/elevator.c:459-471 | a request of the scheduler is put at the end of the list |
| BarrierQueue.RequestQueue.ElvRequeueRequest | linux/block/elevator.c:537-552 | refines the abstract requeue: not in flight any more, at the front, or at its stage while a sequence runs |
| BarrierQueue.RequestQueue.FindRequeuePos | linux/block/elevator.c:640-648 | the walk finds the first request that is not of an earlier stage |
| BarrierQueue.RequestQueue.ElvDrainElevator | linux/block/elevator.c:554-566 | everything in the scheduler moves to the list, each request once, in any order and sorted in or added at the end as the scheduler likes |
| BarrierQueue.RequestQueue.ElvAddRequest | linux/block/elevator.c:666-701 | refines the abstract submission: colours flip at a barrier and a barrier drains the scheduler first |
| BarrierQueue.RequestQueue.NextTurn | linux/block/elevator.c:715-729 | one turn of the loop that looks for a request |
| BarrierQueue.RequestQueue.ElvNextRequest | linux/block/elevator.c:731-817 | the request handed to the driver and the events on the way are those of a legal sequence of abstract steps; preparing the request always succeeds |
| BarrierQueue.RequestQueue.ElvDequeueRequest | linux/block/elevator.c:820-834 | off the list, and counted as in flight if it is a file-system request |
| BarrierQueue.RequestQueue.ElvCompletedRequest | linux/block/elevator.c:898-924 | not in flight any more; when the last one has left and only the barrier waits, draining is done |
| BarrierQueue.RequestQueue.EndRequest | linux/block/blk-barrier.c:114-130 | a request leaves the driver for good, or a proxy's stage is completed |
| BarrierInv.InitInv | linux/block/blk-barrier.c:24-49 | the invariant holds of a queue at rest |
| BarrierInv.RequeueClass | linux/block/elevator.c:621-648 | comparing colours finds the place that the order of submission asks for |
| BarrierInv.DrainFires | linux/block/elevator.c:898-924 | when the driver has no file-system request left, the drain check fires exactly when all requests submitted before the barrier are done |
| BarrierInv.DrainCheck | linux/block/elevator.c:898-924 | both outcomes of the drain check keep the invariant |
| BarrierInv.DoOrderedOk | linux/block/blk-barrier.c:205-252 | only what may be handed out is, and only what may start starts |
| BarrierRuns.StepKeeps | linux/block/blk-barrier.c:55-252 | every step keeps the invariant between colours, list positions, in_flight, progress bits and the trace |
| BarrierRuns.RunGood | linux/block/blk-barrier.c:55-252 | ... hence so does every run |
| BarrierRuns.RunSafe | linux/block/blk-barrier.c:91-203 | in every run no BUG_ON or WARN_ON fires, no proxy is initialised while it is queued or with the driver, in_flight counts the driver's file-system requests, and every request is in exactly one place |
| BarrierRuns.BarrierOrdering | linux/block/blk-barrier.c:205-252 | draining modes, every run with requeues and several barriers: when a proxy of barrier b goes to the driver all requests submitted before b are done, and no request submitted after b goes out before b's sequence is over |
| BarrierRuns.StageOrdering | linux/block/blk-barrier.c:154-252 | a stage of a sequence goes out only after the stages before it are completed |
| BarrierRuns.OnceOnly | linux/block/blk-barrier.c:91-112 | both kinds of mode: a request or barrier is finished at most once and not handed out after that, and a stage is completed at most once |
| BarrierRuns.EndedAfterAllStages | linux/block/blk-barrier.c:91-112 | a barrier is ended only after all the proxies it needs, with the first error of any |
| BarrierRuns.EndedWhenAllStages | linux/block/blk-barrier.c:91-112 | ... and it is ended once they are |
| BarrierRuns.NeverStalls | linux/block/blk-barrier.c:205-252 | while a sequence runs and the driver has nothing, looking at the queue makes progress |
| ChainIv.StepKeeps | linux/crypto/chainiv.c:117-251 | every step of every thread keeps the invariant |
| ChainIv.RunInv | linux/crypto/chainiv.c:117-251 | ... hence so does every interleaving |
| ChainIv.OneOwner | linux/crypto/chainiv.c:117-222 | INUSE has at most one owner, a thread or the work item; the work item is never scheduled twice, and the BUG_ON on it never fires |
| ChainIv.NoLostWakeup | linux/crypto/chainiv.c:117-153 | a queued request with INUSE clear has a thread that will look again; when all calls have returned and no work is pending, nothing is queued and INUSE is clear |
| ChainIv.NoOvertaking | linux/crypto/chainiv.c:138-251 | requests are encrypted in the order they were queued, and a direct one after all that had been queued when it decided to go ahead |
| ChainIv.DirectOnlyWhenDrained | linux/crypto/chainiv.c:175-200 | at that decision every queued request has been encrypted |
| ChainIv.UnbrokenChain | linux/crypto/chainiv.c:155-173 | every cipher call uses the value left by the last successful one, the first the random bytes; a call with an error leaves the chain where it was |
| ChainIv.OwnResult | linux/crypto/chainiv.c:117-153 | a call that has returned gave the result of its own request, from the cipher or from queueing it |
| CamelliaTable.RoundSmIsF | linux/crypto/camellia.c:882-897 | the table look-ups and rotations of a round compute the F-function with the key added behind it |
| CamelliaCode.FLThrough | linux/crypto/camellia.c:393-590 | a key can be carried through the FL layer as the setup does it |
| CamelliaCode.FLinvThrough | linux/crypto/camellia.c:393-590 | ... and through its inverse |
| CamelliaCode.AbsorptionSound | linux/crypto/camellia.c:393-590 | absorbing the whitening keys, moving the key additions and undoing half of P gives a table for the keys, for any number of blocks and any keys |
| CamelliaCode.EncryptAgrees | linux/crypto/camellia.c:899-927 | run on a table for the keys, the code computes the network of section 2.3 of RFC 3713 |
| CamelliaCode.DecryptInverts | linux/crypto/camellia.c:954-982 | decryption undoes encryption, whatever the table holds |
| CamelliaSetup.AbsorbKw2 | linux/crypto/camellia.c:399-427 | in place: kw2 is added to the even rounds, crossing the FLinv layers |
| CamelliaSetup.AbsorbKw4 | linux/crypto/camellia.c:428-480 | in place: kw4 is added to the odd rounds from the end, crossing the FL layers |
| CamelliaSetup.WriteTable | linux/crypto/camellia.c:482-571 | the combined keys are written out, also where they cross an FL layer |
| CamelliaSetup.ApplyPInv | linux/crypto/camellia.c:573-589 | the loop applies the inverse to every round key and to nothing else |
| CamelliaSetup.SetupTail | linux/crypto/camellia.c:393-590 | the whole setup leaves a table for the keys, for 18 and 24 rounds |
| CamelliaSetup.DoEncrypt | linux/crypto/camellia.c:899-927 | the loop computes the specified function of the table and the block |
| CamelliaSetup.DoDecrypt | linux/crypto/camellia.c:954-982 | so does decryption |
| CamelliaSetup.CamelliaCorrect | linux/crypto/camellia.c:393-1007 | a table for the keys makes the code the published cipher, and decrypt undoes it, for all keys and all S-box functions |
| CamelliaSetup.EncryptBlock | linux/crypto/camellia.c:393-927 | end to end in place: setting up the table and encrypting a block is the network of RFC 3713 on the keys |
| CamelliaSetup.DecryptBlock | linux/crypto/camellia.c:393-982 | end to end in place: setting up the table and decrypting gives back what was encrypted |
| Segments.GreedyLegal | linux/block/blk-merge.c:169-221 | the clustering of blk_rq_map_sg keeps to mergeability, boundaries and the size limit |
| Segments.GreedyAhead | linux/block/blk-merge.c:169-221 | at every bvec it has fewer segments than any other legal clustering, or as many and a shorter last one |
| Segments.GreedyOptimal | linux/block/blk-merge.c:169-221 | so it emits the fewest entries possible |
| Segments.EntriesFaithful | linux/block/blk-merge.c:169-221 | one entry per segment, and the lengths add up to the bytes of the bvecs |
| Segments.EntriesBounded | linux/block/blk-merge.c:169-221 | no entry is longer than the limit unless a single bvec is |
| Segments.RecalcLegal | linux/block/blk-merge.c:41-111 | the clustering of blk_recalc_rq_segments is legal too, with at most as many hardware segments |
| Segments.RecalcExact | linux/block/blk-merge.c:41-111 | without high pages and hardware limits the two loops split alike |
| Segments.RecalcSegments | linux/block/blk-merge.c:41-111 | the loop counts the segments of that clustering |
| Segments.MapSg | linux/block/blk-merge.c:169-221 | the loop writes the entries of its clustering within the list |
| Segments.MapRequest | linux/block/blk-merge.c:165-221 | a list with room for the counted segments is enough, for all mergeability predicates, and holds all bytes |
| Merging.JoinLegal | linux/block/blk-merge.c:169-221 | two clusterings side by side are legal exactly when each is; made to share a segment, exactly when also the bvecs that meet are joinable and the two segments together are within the limit |
| Merging.MergedLegal | linux/block/blk-merge.c:253-422 | however a request came about by merging: its corrected count is that of a clustering, which is legal exactly when at every join that subtracts one the two segments that meet are together within the limit |
| Merging.MergedCount | linux/block/blk-merge.c:253-422 | then a list with room for the corrected count is enough for the mapping |
| Merging.BiosFit | linux/block/blk-merge.c:253-373 | requests that grew by single bios always fit |
| Merging.PairFits | linux/block/blk-merge.c:128-147 | two joined bios always fit |
| Merging.ThreeJoined | linux/block/blk-merge.c:375-422 | three contiguous bios of which any two neighbours fit a segment but not all three, joined one after the other, count as one segment and are mapped to two |
| ModeSpec.CbcRoundTrip | linux/crypto/cbc.c:42-191 | CBC decryption undoes encryption and leaves the same chaining value |
| ModeSpec.CtrAt | linux/crypto/ctr.c:68-92 | every byte is masked with its byte of the encrypted counter plus block number (section 6.5 of NIST SP 800-38A) |
| ModeSpec.CountersDistinct | linux/crypto/ctr.c:68-92 | counter blocks repeat only after 256 to the block size |
| ModeSpec.CtrRoundTrip | linux/crypto/ctr.c:121-150 | CTR is its own inverse |
| ModeSpec.IncTail | linux/crypto/algapi.c:635-648 | adding one to the tail carries into the rest only when the tail overflows |
| ModeBlocks.CryptoXor | linux/crypto/algapi.c:651-666 | exclusive or in place, nothing else written |
| ModeBlocks.CryptoInc | linux/crypto/algapi.c:622-648 | words and then bytes from the end: the block as a big-endian number plus one modulo 256 to its length |
| ModeBlocks.CbcEncryptSegment | linux/crypto/cbc.c:42-64 | the whole blocks of flat CBC, its chaining value, the bytes left over, and nothing else written |
| ModeBlocks.CbcEncryptInPlace | linux/crypto/cbc.c:66-88 | the same when source and destination coincide |
| ModeBlocks.CbcDecryptSegment | linux/crypto/cbc.c:114-138 | the same for decryption |
| ModeBlocks.CbcDecryptInPlace | linux/crypto/cbc.c:140-167 | the same in place, from the last block to the first |
| ModeBlocks.CtrSegment | linux/crypto/ctr.c:68-92 | the whole blocks of flat CTR and the next counter block |
| ModeBlocks.CtrInPlace | linux/crypto/ctr.c:94-119 | the same when source and destination coincide |
| ModeBlocks.CtrFinal | linux/crypto/ctr.c:49-66 | the partial last block |
| ModeWalk.Walk.First | linux/crypto/blkcipher.c:321-347 | the first buffer, or the error for a message shorter than a block; an unaligned chaining value is copied, which does not fail |
| ModeWalk.Walk.Next | linux/crypto/blkcipher.c:224-276 | a buffer that holds the next bytes of the source, at least a block or all that is left, in one place or in two that share nothing |
| ModeWalk.Walk.NextSlow | linux/crypto/blkcipher.c:147-181 | one block gathered from any number of pieces, at the spots for its length |
| ModeWalk.Walk.NextCopy | linux/crypto/blkcipher.c:183-195 | a piece copied to the bounce page |
| ModeWalk.Walk.NextFast | linux/crypto/blkcipher.c:197-222 | a piece in the lists themselves |
| ModeWalk.Walk.DoneSlow | linux/crypto/blkcipher.c:71-82 | the block is scattered to the destination from the spot worked out again, which is where the mode wrote it, also for a shorter last block |
| ModeWalk.Walk.DoneFast | linux/crypto/blkcipher.c:84-101 | the piece is in the destination, from the bounce page if need be |
| ModeWalk.Walk.Done | linux/crypto/blkcipher.c:103-144 | the result is put away, nothing else in memory changes, and the walk goes on, ends or fails with the chaining value handed back |
| ModeWalk.Walk.Finish | linux/crypto/blkcipher.c:133-143 | the chaining value is handed back |
| ModeWalk.SourceIntact | linux/crypto/blkcipher.c:103-144 | what has been written has not touched the source still to come, the lists being equal or disjoint |
| ModeWalk.SpotsInside | linux/crypto/blkcipher.c:147-181 | in what the slow path allocates, the two spots lie apart for a block of every length up to the block size |
| Modes.CbcEncrypt | linux/crypto/cbc.c:90-112 | for every cut of the lists, every alignment, in place or not: memory changes exactly at the destination, to flat CBC of the source; the chaining value is right; -EINVAL exactly for a message that is not whole blocks |
| Modes.CbcDecrypt | linux/crypto/cbc.c:169-191 | the same for decryption |
| Modes.CtrCrypt | linux/crypto/ctr.c:121-150 | the same for CTR, for messages of every length |
| Scratch.SpotFacts | linux/crypto/blkcipher.c:65-69 | a spot does not straddle a page and moves only if it must |
| Scratch.SpotsAligned | linux/crypto/blkcipher.c:147-181 | destination, source and chaining value spots are aligned and each on one page |
| Scratch.OneShift | linux/crypto/blkcipher.c:278-301 | at most one of them is moved, by no more than the room kept for it |
| Scratch.SpotsFit | linux/crypto/blkcipher.c:147-181 | they do not overlap and fit the sizes both functions allocate |
| Scratch.ShorterBlock | linux/crypto/blkcipher.c:71-181 | for a last block shorter than the buffer was laid out for, the spots are aligned, on one page, apart, inside the allocation and clear of the copied chaining value |
| Scratch.PageFits | linux/crypto/blkcipher.c:155-160 | the bounce page in place of the buffer is enough exactly when the alignment is less than a page, and for shorter blocks whenever it is |
| Anticipatory.PrefersOrder | linux/block/as-iosched.c:284-352 | as_choose_req is a total order on sectors |
| Anticipatory.ScanIs | linux/block/as-iosched.c:284-352 | a scan finds the one request that is preferred to all others |
| Anticipatory.FindNextIsScan | linux/block/as-iosched.c:359-382 | looking at the neighbours of a request finds what a scan of the others would, when the head is at the request or the request is the best one |
| Anticipatory.FindNextExact | linux/block/as-iosched.c:359-382 | for a head at or behind the request, looking at its neighbours finds what a scan of the others would exactly when nothing in front of the head was skipped, or the next request is behind it but near and better than the one after, or all others are far behind and one of the first two is removed |
| Anticipatory.InsideDefeatsCache | linux/block/as-iosched.c:359-382 | a request that starts inside the dispatched one can make the neighbours miss the best |
| Anticipatory.ScanAdd | linux/block/as-iosched.c:770-775 | one comparison keeps the cache right when a request is added |
| Anticipatory.ScanKeeps | linux/block/as-iosched.c:880-904 | removing another request leaves the best one |
| Anticipatory.ScanGrown | linux/block/as-iosched.c:1245-1262 | a back merge does not change which request is best |
| Anticipatory.Queue.Add | linux/block/as-iosched.c:1168-1194 | tree and FIFO keep agreeing; every request is queued or dispatched once, one at the same sector being dispatched; the cache stays equal to the scan unless one was dispatched from inside an overlap |
| Anticipatory.Queue.MoveToDispatch | linux/block/as-iosched.c:955-999 | the head is behind the request; the cache equals the scan exactly when the neighbours are enough, so always when no request starts inside another |
| Anticipatory.Queue.RemoveAt | linux/block/as-iosched.c:880-904 | keeps the cache equal to the scan, and tree and FIFO in agreement |
| Anticipatory.Queue.Grow | linux/block/as-iosched.c:1245-1262 | a back merge keeps the same, however far the request grows |
| Anticipatory.Queue.Merge | linux/block/as-iosched.c:1264-1285 | keeps the same; the merged request is gone and the other takes its FIFO place if that is earlier |
| Anticipatory.Queue.FrontMerged | linux/block/as-iosched.c:1245-1262 | tree and FIFO keep agreeing and no request is lost; with a request already at the new sector that one is dispatched, and the cache is lost exactly when it was the only other one |
| Anticipatory.Queue.Dispatch | linux/block/as-iosched.c:1006-1163 | the choice within one direction: the head of the FIFO when expired, otherwise the cached request, which is the best for the head position when the cache is right |
| Anticipatory.Queue.ForcedDispatch | linux/block/as-iosched.c:1013-1040 | empties its direction, every request dispatched once, exactly when something is cached to begin with |
| SortList.Place | linux/block/elevator.c:360-381 | where a request goes, or that one with its sector is there |
| Deadline.RankTurn | linux/block/deadline-iosched.c:278-286 | a read served past a waiting write costs a turn |
| Deadline.RankBatch | linux/block/deadline-iosched.c:261-271 | a read of the batch costs one of the batch |
| Deadline.FairStep | linux/block/deadline-iosched.c:245-335 | so the reads that may still pass a waiting write go down with every one that does |
| Deadline.StarvationBounded | linux/block/deadline-iosched.c:245-335 | in every state that a run reaches: at most (writes_starved + 1) * max(1, fifo_batch) calls in a row have served a read while a write waited |
| Deadline.Scheduler.Add | linux/block/deadline-iosched.c:72-113 | sort list and FIFO keep agreeing, also when a request at the same sector is dispatched; fairness is kept |
| Deadline.Scheduler.MergedRequests | linux/block/deadline-iosched.c:170-189 | the merged request is gone, and the other takes its FIFO place if that is earlier |
| Deadline.Scheduler.FrontMerged | linux/block/deadline-iosched.c:156-168 | the request moves in the sort list and stays in the FIFO; one that starts where it starts now is dispatched, and the cache follows |
| Deadline.Scheduler.Remove | linux/block/deadline-iosched.c:87-124 | off both lists; the cache moves on |
| Deadline.Scheduler.MoveRequest | linux/block/deadline-iosched.c:206-222 | to the dispatch queue; only its direction keeps a next request |
| Deadline.Scheduler.Select | linux/block/deadline-iosched.c:245-327 | the request chosen, the batch and the starvation count |
| Deadline.Scheduler.Dispatch | linux/block/deadline-iosched.c:245-335 | serves one request unless nothing is queued; a write after a read is the head of the FIFO; keeps the bound |
| Deadline.Scheduler.Drain | linux/block/elevator.c:554-566 | ends with nothing queued and nr_sorted zero, every request dispatched once, whatever has expired at each call |
| Cfq.InsertOk | linux/block/cfq-iosched.c:450-522 | the descent keeps the tree sorted by class and key, and sets the cached first node exactly when the queue comes first |
| Cfq.EraseOk | linux/block/cfq-iosched.c:399-406 | erasing keeps the tree, and the cached node right or absent |
| Cfq.FindNextStays | linux/block/cfq-iosched.c:412-433 | a next request is found exactly when another one is left |
| Cfq.Scheduler.First | linux/block/cfq-iosched.c:388-397 | the first queue of the tree |
| Cfq.Scheduler.AddRr | linux/block/cfq-iosched.c:540-547 | the queue is on the tree and counted |
| Cfq.Scheduler.DelRr | linux/block/cfq-iosched.c:553-563 | the queue is off the tree and not counted |
| Cfq.Scheduler.Resort | linux/block/cfq-iosched.c:450-534 | the queue is at its new place |
| Cfq.Scheduler.RemoveRequest | linux/block/cfq-iosched.c:662-676 | keeps: on the round robin iff on the tree iff it has requests; next request iff any; tree and FIFO agree; busy count is the tree size and nr_sorted the number of requests |
| Cfq.Scheduler.DispatchInsert | linux/block/cfq-iosched.c:900-911 | keeps the same; the request is dispatched |
| Cfq.Scheduler.AddRequest | linux/block/cfq-iosched.c:583-606 | keeps the same; every request is queued or dispatched once |
| Cfq.Scheduler.FrontMerged | linux/block/cfq-iosched.c:608-613 | keeps the same through a state off the tree, also when the request already there is dispatched and takes the queue off the round robin; the request stays in its FIFO place |
| Cfq.Scheduler.MergedRequests | linux/block/cfq-iosched.c:703-715 | keeps the same; the merged request is gone and the other takes its FIFO place if that is earlier |
| Cfq.Scheduler.ForcedQueue | linux/block/cfq-iosched.c:1046-1057 | empties the queue, its FIFO too |
| Cfq.Scheduler.ForcedDispatch | linux/block/cfq-iosched.c:1063-1076 | terminates with no busy queue, nr_sorted zero and every request dispatched once |
| CcmSpec.LengthFieldExact | linux/crypto/ccm.c:58-74 | the length field is right exactly for lengths below 256 to the L; the limit itself, for L below four, is accepted and stored as zero |
| CcmSpec.FormatPrefixFree | linux/crypto/ccm.c:123-162 | for lengths that fit, the blocks determine nonce, tag size, associated data and message, and none is a proper prefix of another (section 2.2 of RFC 3610) |
| CcmSpec.FormatAtLimit | linux/crypto/ccm.c:58-74 | at the limit that fails, for every nonce, tag size and associated data: the blocks of the empty message begin those of an accepted one |
| CcmSpec.StaleExact | linux/crypto/ccm.c:245-276 | what is authenticated is the formatted message exactly when there is associated data, or the context has nothing pending, or what it has and the message are zeros in as many blocks |
| CcmSpec.StaleByte | linux/crypto/ccm.c:245-276 | one byte left over changes what is authenticated for the empty message |
| Ccm.SetMsgLen | linux/crypto/ccm.c:58-74 | stores the field or reports overflow |
| Ccm.FormatInput | linux/crypto/ccm.c:123-143 | writes the first block B0 |
| Ccm.FormatAdata | linux/crypto/ccm.c:145-162 | writes the length of the associated data |
| Ccm.PendingBound | linux/crypto/ccm.c:164-243 | with the 32-bit arithmetic of the source: the copies and the padding stay inside the block buffer exactly when at most sixteen bytes are pending, for every cut of the data |
| Ccm.Mac.ComputeMac | linux/crypto/ccm.c:164-201 | a piece of any length: the MAC and the pending bytes are those of the concatenation |
| Ccm.Mac.GetData | linux/crypto/ccm.c:203-243 | for every cut of the data: the MAC of the zero-padded concatenation |
| Ccm.Auth | linux/crypto/ccm.c:245-276 | the CBC-MAC of what is authenticated, for every pending count that stays inside the buffer; or the overflow error |
| Ccm.NoCarry | linux/crypto/ccm.c:316-338 | a counter below its limit leaves the bytes before it alone |
| Ccm.CounterKeepsNonce | linux/crypto/ccm.c:316-338 | so the counter pass over tag and message never reaches the nonce, for a length that is accepted |
| Ccm.PassExact | linux/crypto/ccm.c:396-412 | for every length: the pass leaves first byte and nonce alone exactly when its blocks are fewer than 256 to the L |
| Ccm.PassForm | linux/crypto/ccm.c:396-412 | for every length: the counter block stays well formed, and L grows by one exactly when everything behind the first byte runs over |
| Ccm.CarryAccepted | linux/crypto/ccm.c:396-412 | a nonce of ones and 65535 blocks: the carry makes L three, and the length that two bytes could not take is accepted |
| Ccm.Encrypt | linux/crypto/ccm.c:300-351 | the ciphertext and masked tag of what is authenticated, the sealed message of the standard when nothing is left over, the error for a bad nonce length or an overflow, and the nonce still in place |
| Ccm.Decrypt | linux/crypto/ccm.c:370-427 | for every length and context: too short, bad nonce length, overflow by the counter block that the pass leaves, tag wrong, or the plaintext |
| Ccm.OpenedIs | linux/crypto/ccm.c:370-427 | for a length that is accepted and nothing left over that is opening as the standard has it; for one that is not, whose blocks fit the counter, the overflow error |
| Ccm.OverflowMissed | linux/crypto/ccm.c:370-427 | for a length that is not accepted the overflow error is missed exactly when the carry lengthens the counter to one that takes it |
| Ccm.OpenSeal | linux/crypto/ccm.c:300-427 | round trip: opening what was sealed returns it with the tag accepted, whatever is in the counter bytes and behind the tag |
| Cts.CtsRoundTrip | linux/crypto/cts.c:125-250 | for every length of at least a block and every invertible cipher, decryption undoes encryption from the same chaining value |
| Cts.TailRoundTrip | linux/crypto/cts.c:73-217 | ... for the last two blocks |
| Cts.TailEncrypt | linux/crypto/cts.c:73-123 | the last two blocks with stealing, and the chaining value left |
| Cts.TailDecrypt | linux/crypto/cts.c:159-217 | their decryption; the chaining value is the same one |
| Cts.FrontIs | linux/crypto/cts.c:130-131 | the block counts leave one to two blocks for stealing |
| Cts.Encrypt | linux/crypto/cts.c:125-157 | the whole mode, same length; -EINVAL for the empty message |
| Cts.Decrypt | linux/crypto/cts.c:219-250 | the same for decryption; both leave the block that was encrypted last |
| Cryptd.Queue.Enqueue | linux/crypto/algapi.c:569-587 | the cursor stays the request at index max_qlen, or the head; the error says whether the queue was full |
| Cryptd.Queue.Dequeue | linux/crypto/algapi.c:590-606 | the same; first in, first out |
| Cryptd.Daemon.Enqueue | linux/crypto/cryptd.c:121-139 | keeps the run in order, for a submission with a number of its own; accepted unless full and not allowed to backlog |
| Cryptd.Daemon.Fetch | linux/crypto/cryptd.c:324-333 | keeps the run in order; takes the first request and the one under the cursor |
| Cryptd.Daemon.Notify | linux/crypto/cryptd.c:337-342 | keeps the run in order; the backlogged request is told |
| Cryptd.Daemon.Finish | linux/crypto/cryptd.c:72-101 | keeps the run in order; the request is completed |
| Cryptd.FetchOk | linux/crypto/algapi.c:590-606 | taking one out moves the window over exactly the request under the cursor |
| Cryptd.FinishOk | linux/crypto/cryptd.c:317-353 | what is completed has been told before if it had to be |
| Cryptd.CompletedInOrder | linux/crypto/cryptd.c:317-353 | over every run each accepted request is completed once, in order of arrival |
| Cryptd.ToldInOrder | linux/crypto/cryptd.c:317-353 | over every run those told -EBUSY, and no others, are told -EINPROGRESS once |
| Tags.TagQueue.StartTag | linux/block/blk-tag.c:338-373 | the lowest free tag below the depth; keeps: bit set iff indexed iff exactly one busy request has the tag, and the count |
| Tags.TagQueue.EndTag | linux/block/blk-tag.c:282-317 | keeps the same; the tag is free |
| Tags.TagQueue.Resize | linux/block/blk-tag.c:220-265 | keeps the same and every tag in use, unless the copy of the old map overruns the new one, which it reports exactly |
| Tags.CopyFitsWhen | linux/block/blk-tag.c:106-114 | growing is safe exactly when the clamped depth is not below the old one |
| Tags.TagQueue.SetRequests | linux/block/blk-sysfs.c:38-48 | the number of requests changes and the tags stay |
| Tags.LowerThenGrow | linux/block/blk-tag.c:220-265 | lowering the number of requests and then asking for more tags overruns the new map |
| Tags.TagQueue.InvalidateTags | linux/block/blk-tag.c:388-394 | every tag is free and the requests are at the front of the queue in the order they were started |
| Tags.MapSet | linux/block/blk-tag.c:362-372 | handing a tag out keeps the bijection |
| Tags.MapClear | linux/block/blk-tag.c:297-316 | taking it back keeps the bijection |
| Completion.Compose | linux/block/blk-core.c:1516-1624 | completing n1 and then n2 bytes leaves the same bios, live bvecs and sectors as n1 + n2 and ends the same bios, for whole sectors n2 |
| Completion.DropOk | linux/block/blk-core.c:1516-1624 | the remaining bytes go down by exactly what is completed |
| Completion.EndedOnce | linux/block/blk-core.c:127-157 | every bio is ended once, in order |
| Completion.RemainingViews | linux/block/blk-core.c:1516-1624 | the bios as the code leaves them show exactly what is left |
| Completion.CutAgain | linux/block/blk-core.c:1611-1619 | two completions leave the very bio that one leaves, finished bvecs included, exactly when the first does not stop strictly inside a bvec that the second finishes |
| Completion.RemainingAgain | linux/block/blk-core.c:1516-1624 | the same for all bios of a request |
| Completion.HalvesDiffer | linux/block/blk-core.c:1611-1619 | a bvec of 1024 bytes completed by halves is left split |
| Completion.Request.EndWhole | linux/block/blk-core.c:1546-1563 | the rounds that end whole bios |
| Completion.Request.EndPart | linux/block/blk-core.c:1563-1619 | the rounds over whole bvecs, and the shortening of the next one |
| Completion.Request.Shorten | linux/block/blk-core.c:1611-1619 | size, sector, index and bvec of the first bio |
| Completion.Request.EndFirst | linux/block/blk-core.c:1516-1624 | the whole loop leaves the bios with n bytes done and ends the others in order; says whether anything is left |

## Left out

- Barrier: the mode does not change during a run and is not NONE; requests that are not file-system requests, insertion at the front by others, and merging of queued requests.
- BarrierQueue.RequestQueue.ElvNextRequest: leaves out that preparing the request may defer or kill it.
- Barrier: `__blk_end_request` dequeues unconditionally in this tree while `elv_dequeue_request` refuses a request that is not on the list; ending the original barrier is one event here.
- Segments.RecalcSegments: does not compute the front and back hardware sizes of the bios, which only matter to merging.
- Segments.MapSg: does not add the padding and the drain entry.
- Merging: the limits on sectors and segments, which only refuse merges, and the hardware segment counts.
- ModeWalk.Walk.constructor: the scratch buffers exist up front, so running out of memory is not modelled, and the walk over physical addresses is not either.
- ModeWalk.Walk.First: running out of memory while an unaligned chaining value is copied is not modelled.
- ModeWalk.Walk.NextSlow: the spots are where the source has them, in a buffer that holds neither the copied chaining value nor the bounce page; that they are clear of the one and fit the other is the subject of Scratch.
- ModeWalk.Walk.DoneSlow: the same.
- ModeWalk: lists that overlap without being equal, and lists that name a byte of the destination twice.
- ModeBlocks.CryptoXor: words are not distinguished from their four bytes.
- Anticipatory.Queue.Dispatch: the choice between the directions, batches, anticipation, think times and seek statistics.
- Anticipatory.Queue.ForcedDispatch: one data direction; the source runs the same loop for the other.
- Anticipatory.Queue.FrontMerged: how much worse than the best the cached request may then be; the source itself does not bother.
- Anticipatory.Queue.Merge: removes the second request before the first one grows; the tree does not depend on the order.
- Deadline: back merges, which only change sizes.
- Cfq: slices, idling, priorities that change while a queue is on the tree, the counts per class, reference counts, and the order that cfq_choose_req prefers, which is arbitrary.
- Cfq.Scheduler.Resort: passes through a state off the tree, which the code does not count.
- Ccm.Decrypt: does not model the wrap-around of the length plus sixteen, for a message within sixteen bytes of 4 GiB.
- Ccm.Encrypt: the same.
- Ccm.Auth: with more than sixteen bytes pending and no associated data the source writes outside its buffer (Ccm.PendingBound), and what it then computes is not modelled.
- Ccm: the asynchronous completion functions, which repeat the end of the synchronous paths.
- Cryptd.Daemon.Enqueue: numbers submissions, so a request submitted again after its completion has another number; submitting it again before that is not modelled.
- Cryptd: stopping the thread.
- Tags.TagQueue.Resize: what the copy of a map overwrites behind a smaller one.
- Tags: maps shared between queues, and the requeueing order while a barrier sequence runs.
- Completion: error codes, the barrier proxy and empty barriers, statistics.
- Camellia: the key schedules that fill the subkeys, the S-box tables and the byte order of blocks.
- Everything else in the tree.
