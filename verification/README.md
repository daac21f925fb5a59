# EBOFS, CRUSH and the schedulers: a model and its proofs

This project models the parts of the repository whose correctness is hardest to see, and proves
what they promise.

**EBOFS** (`src/ebofs`) is a copy-on-write object store on a block device.

- The *allocator* keeps free runs in size classes, counts references to blocks, and lets released
  blocks pass through two limbo stages before they can be used again. `AllocatorSpec` says block by
  block what it promises; `Allocators` is the code on its tables, and every method of it is proved
  to make exactly the abstract step. `RefTable`, `IntervalSet` and `FreeList` are the tables.
- The *object store* (`ObjectStore`, and the modules whose names begin with `Store`) takes the
  object operations, the completion of queued writes, the commit thread and a crash with the mount
  that follows it as steps under `ebofs_lock`. `StoreInvariant.Inv` holds in every state of every
  run. `CrashSafety` proves that runs, with crashes anywhere in them, refine a store that only keeps
  three pictures: the current one, the one that the commit in progress is writing, and the one of
  the last commit that was completed. A crash falls back to the last one, whatever it did to the
  blocks that were being written.
- The *onode* maps object blocks to disk extents with checksums. `ExtentMaps` reads the map as a
  sequence of cells, and `Onodes` is the class that changes it in place. `OnodeCodec`, `OnodeImage`
  and `OnodeRoundTrip` are its form on disk.
- `Operations` groups the steps of the store into whole operations: a crash, even in the middle of
  one, falls back to a moment between two of them. `CommitProgress` proves that a commit can always be
  carried through, and `StoreOperations` that each operation can be, and what it does to the contents.
- The *buffer cache*: `PartialBlocks` (fragments of one block that is not in memory), `BufferHeads`,
  `CacheRequests` and `ObjectCaches` (heads that are split, merged and tied to requests in flight),
  `CacheCoherence` (what a clean head may be trusted for while reads and writes race),
  `CacheProgress` (what is written reaches the disk and comes back), and `StaleReads` (what happens
  when a read begins too early).

**CRUSH** (`src/crush`, `src/crush.old/BinaryTree.h`) places inputs on weighted items: the prime
strides of uniform buckets, the suffix sums of list buckets, the implicit weight tree of tree
buckets, and the older weight tree that grows and shrinks.

**The schedulers**: the elevator and barrier queues of the block device (`BlockDevices`), the order in
which they carry out the requests for one block (`SubmissionOrder`), the timer
(`Timers`) and the cancellable timer on top of it as steps of its threads (`SafeTimers`).

Code that updates fields in place is a class here, code that loops is a method with a loop, and
concurrent code is a set of steps, each as long as the lock it is taken under is held. In the store,
the buffer cache and the cancellable timer, `Can…` says when a step is possible and the function
with the name of the step gives the next state; the theorems are about all sequences of them.

## Where the code does not do what it should

Eight properties that one would expect fail for some inputs. The model keeps the code as it is, shows
where it fails, and proves exactly when it does what it should.

- `set_extent` at the end of an object compares the wrong field when it looks for a chance to extend
  the last extent (src/ebofs/Onode.h:227-232): the object block where that extent begins, not its
  disk block. `Onodes.Onode.SetExtent` keeps that test and proves that the result is right if and
  only if `MisMerges` is false before the call; `Onodes.LostAppend` is an object that loses a block.
- `rx_finish` does not ask which read has finished (src/ebofs/BufferCache.cc:136-291). A block may be
  overwritten while it is being read, flushed, evicted and read again; if its cache is still open when
  the first read ends, that one fills the new head. `CacheCoherence.Careful` is what the cache would
  have to ask before it begins a read: that no read of the block from some other place is under way.
  `CacheCoherence.StepKeeps` proves that this condition is exact for the invariant, and
  `StaleReads.CarelessReadHarms` that a read which does not meet it makes the cache wrong for all
  other contents of the block. `StaleReads.StaleHappens` is a run from the start, with checksums on.
- `rx_finish` loses a bad checksum when it is at the end of a head: after the last bad run has been
  marked corrupt, the variable for what is left still names that run, and it is marked clean
  (src/ebofs/BufferCache.cc:191-222). `ObjectCaches.ObjectCache.VerifyHead` keeps the loop and proves
  that a bad block comes out corrupt if and only if a later block of its head is good.
  `ObjectCaches.LostChecksum` is a cache with a head of one block, which passes whatever it holds.
- `submit_io` asserts that nothing is queued at the place of a new request (src/ebofs/BlockDevice.h:115),
  but `apply_write` does not take back the read of a head that it overwrites as a whole
  (src/ebofs/Ebofs.cc:2047-2055). `SubmissionOrder.ReadMeetsWrite` is a run in which the write goes to
  the block that is still being read. `SubmissionOrder.StepKeeps` proves that the device carries out
  the requests for a block in order if and only if each one finds the block clear.
- `alloc_inc` goes past the end of its table if the last entry ends inside the extent
  (src/ebofs/Allocator.cc:387, 410, 449). `AllocInc` says when it stays inside: if and only if
  `SeekSafe`. `Allocators.SeekLeaves` is a case in which it does not, and the two callers are proved
  never to meet one (`NewIsSeekSafe`, `UsedIsSeekSafe`).
- `allocate` looks in one size class for each size it tries, so it may find nothing while blocks are
  free (src/ebofs/Allocator.cc:190-205). `TakeExtent` says exactly when: if and only if `Stuck`;
  `FreeList.StuckWithRoom` is a case, and `FreeList.PowerNeverStuck` shows that requests for a power
  of two never meet it.
- `have_partial_range` says no although the bytes are held if another fragment follows after a gap
  (src/ebofs/BufferCache.h:229-235). `HavePartialRange` gives the exact condition, `WrongNo` a case.
- `crush_bucket_uniform_choose` adds in 32 bits. The first replicas visit every slot once if and only
  if no wrap falls between them or the size of the bucket divides 2^32: `CrushUniform.EverySlotOnce`,
  with `CrushUniform.WrapCollides` as a case in which two replicas meet.

## Model

| member | source | states |
|---|---|---|
| `CrashSafety.EveryRun` | src/ebofs/Ebofs.cc:428-580 | In every run from a fresh store, crashes included, the invariant holds, and the store shows what the same run of the simple store with its three pictures shows |
| `CrashSafety.CommittedBlocksSafe` | src/ebofs/Ebofs.cc:472-564 | In every run no block of the last completed super block, or of the one being committed, is free, open to overwriting in place, or the target of a write that could spoil it; when a super block is written, all writes of earlier epochs and all onode writes are done |
| `Operations.CrashesFallBack` | src/ebofs/Ebofs.cc:461-474 | After a crash, even one that cuts an operation short, the store holds what it held at some moment between two operations |
| `Operations.DurableOnBoundary` | src/ebofs/Ebofs.cc:461-564 | What is durable, and what is being made durable, is always what the store held between two operations |
| `CommitProgress.CommitCompletes` | src/ebofs/Ebofs.cc:461-564 | From every state in which the commit thread is idle and there is a free block for each dirty onode, whatever is queued, waiting or in flight, there are steps of the device and of the commit thread that make durable exactly what the store holds, and end idle |
| `CommitProgress.WriteSurvives` | src/ebofs/Ebofs.cc:461-564 | A block that is written to a new store comes back after any crash that follows its commit |
| `StoreOperations.WriteBlock` | src/ebofs/Ebofs.cc:1519-2056 | In every state in which the commit thread does not hold the lock, and as long as a block is free, any block of any object can be given any contents, and nothing else changes |
| `StoreOperations.PatchBlock` | src/ebofs/Ebofs.cc:1874-1910 | So can any bytes of a block that is not in memory, in place or with a move, if earlier partial writes to it still wait or nothing is on its way to it |
| `StoreOperations.TruncateObject` | src/ebofs/Ebofs.cc:2978-3035 | Any object can be cut to any length: exactly its blocks from there on are gone |
| `StoreOperations.RemoveObject` | src/ebofs/Ebofs.cc:2938-2976 | Any object can be removed, with exactly its blocks |
| `StoreOperations.CloneObject` | src/ebofs/Ebofs.cc:3087-3134 | An object whose blocks are settled can be cloned: the clone has exactly its contents, and no block is allocated for them |
| `CrashSafety.RunRefines` | src/ebofs/Ebofs.cc:428-580 | From any state that meets the invariant, a run and its simple counterpart end in the same three pictures |
| `CrashSafety.StepMeans` | src/ebofs/Ebofs.cc:428-580 | Each step changes the pictures as the simple step does: block moves, queued writes, cancels, completions and onode flushes change nothing that a reader or a recovery sees |
| `CrashSafety.StepKeeps` | src/ebofs/Ebofs.cc:428-580 | Every possible step, a crash included, keeps the invariant |
| `CrashSafety.FreshInv` | src/ebofs/Ebofs.cc:181-275 | A new store, over any disk contents, meets the invariant |
| `CrashSafety.GuardsSuffice` | src/ebofs/Ebofs.cc:1519-1661 | The guards of the steps imply that what the step looks up is there |
| `StoreMount.MountFinds` | src/ebofs/Ebofs.cc:49-110 | From any disk that differs only where writes were in flight, mount recovers the places and contents that the newest super block stands for |
| `StoreMount.MountKeeps` | src/ebofs/Ebofs.cc:49-110 | Mounting after a crash at any moment re-establishes the invariant |
| `StoreSteps.PlaceKeeps` | src/ebofs/Ebofs.cc:1641-1661 | Placing a block on a free disk block keeps the invariant |
| `StoreSteps.RelocateKeeps` | src/ebofs/Ebofs.cc:1519-1661 | Overwriting by moving to another disk block keeps the invariant |
| `StoreSteps.RewriteKeeps` | src/ebofs/Ebofs.cc:1980-2056 | Overwriting in place, allowed for uncommitted blocks only, keeps the invariant |
| `StoreSteps.UnmapKeeps` | src/ebofs/Ebofs.cc:2978-3035 | Truncating or zeroing a block away keeps the invariant, with writes to it possibly in flight |
| `StorePartials.StartPartialInPlaceKeeps` | src/ebofs/Ebofs.cc:1874-1910 | A partial write that waits for its block keeps the invariant |
| `StorePartials.StartPartialMovedKeeps` | src/ebofs/Ebofs.cc:1897-1908 | The same when the block moves: it is read from the old place, which limbo keeps intact |
| `StorePartials.AddPartialKeeps` | src/ebofs/Ebofs.cc:1874-1910 | A further partial write to a waiting block keeps the invariant |
| `StorePartials.FinishPartialContents` | src/ebofs/BufferCache.cc:232-282 | When the block has been read, overlaying the patches gives exactly the contents that readers were promised |
| `StoreObjects.CreateKeeps` | src/ebofs/Ebofs.cc:656-676 | A new object keeps the invariant |
| `StoreObjects.CloneBlockKeeps` | src/ebofs/Ebofs.cc:3087-3134 | Sharing a block with a clone keeps the invariant: neither side may overwrite it in place any more |
| `StoreObjects.RemoveKeeps` | src/ebofs/Ebofs.cc:945-997 | Removing an object keeps the invariant |
| `StoreWrites.WriteKeeps` | src/ebofs/BufferCache.cc:1115-1149 | Queueing a block write keeps the invariant |
| `StoreWrites.CancelKeeps` | src/ebofs/BufferCache.cc:1152-1169 | Taking back the newest write of this epoch to a block keeps the invariant |
| `StoreWrites.CompleteKeeps` | src/ebofs/BufferCache.cc:1171-1188 | Completing the oldest write to a block keeps the invariant |
| `StoreCommit.NothingFlushing` | src/ebofs/Ebofs.cc:1331 | The assertion at the start of flushing onodes cannot fail |
| `StoreCommit.StartKeeps` | src/ebofs/Ebofs.cc:461-474 | Beginning an epoch keeps the invariant |
| `StoreCommit.FlushOnodeKeeps` | src/ebofs/Ebofs.cc:908-943 | Writing an onode to a new place keeps the invariant, and ends the right to overwrite its blocks in place |
| `StoreCommit.PrepareKeeps` | src/ebofs/Ebofs.cc:361-417 | The super block that is prepared stands for the store at that moment |
| `StoreCommit.WaitIsOver` | src/ebofs/Ebofs.cc:1466-1490 | When the counters that the commit thread waits for are zero, only data writes of the new epoch are in flight |
| `StoreCommit.FinishFlushKeeps` | src/ebofs/Ebofs.cc:518-526 | The end of that wait keeps the invariant: what the super block refers to is on disk |
| `StoreCommit.WriteSuperKeeps` | src/ebofs/Ebofs.cc:419-426 | Writing the super block over the older of the two makes it the newest, and leaves the other in place |
| `StoreCommit.FinishCommitKeeps` | src/ebofs/Ebofs.cc:547-550 | Freeing the limbo blocks after that keeps the invariant |
| `InFlight.CountZero` | src/ebofs/Ebofs.cc:1466-1490 | The counter of an epoch is zero if and only if no data write of it is in flight; so for onodes |
| `InFlight.LatestComplete` | src/ebofs/BlockDevice.cc:154-158 | With writes to one block carried out in order, a completion does not change what the block will hold in the end |
| `AllocatorSpec.RunKeepsPartition` | src/ebofs/Allocator.cc:116-265 | Through any sequence of operations, each managed block is in exactly one of referenced, free, limbo and the limbo table, and none is lost |
| `AllocatorSpec.StepKeepsPartition` | src/ebofs/Allocator.cc:116-265 | So does each operation |
| `AllocatorSpec.IncThenDec` | src/ebofs/Allocator.cc:316-630 | Taking references and dropping them restores every count, and drops exactly the blocks that had none |
| `AllocatorSpec.DecThenInc` | src/ebofs/Allocator.cc:316-630 | Dropping references and taking them again restores every count |
| `AllocatorSpec.LimboDelaysReuse` | src/ebofs/Allocator.cc:213-265 | A released block is not free until a commit and then a limbo release have passed, and is free then |
| `Allocators.Allocator.Find` | src/ebofs/Allocator.cc:83-114 | The search of a size class returns the fitting run that comes first in its direction, and nothing only if there is none there |
| `Allocators.Allocator.FindContiguous` | src/ebofs/Allocator.cc:130-187 | Finds a run of the size if there is one in the direction: the smaller classes that it skips cannot hold one |
| `Allocators.Allocator.TakePart` | src/ebofs/Allocator.cc:141-175 | Takes the part of a run that is nearest to the wish, and leaves the rest free |
| `Allocators.Allocator.FindPartial` | src/ebofs/Allocator.cc:190-203 | Finds nothing if and only if no halved size has a run in its own class |
| `Allocators.Allocator.TakePartial` | src/ebofs/Allocator.cc:190-205 | Takes a shorter extent of free blocks, or leaves everything as it was |
| `Allocators.Allocator.TakeExtent` | src/ebofs/Allocator.cc:116-205 | Fails if and only if the free list is `Stuck`; the extent has the full length if and only if a run of that length exists, and is then the part nearest to the wish (`near`, or the last position) of the first fitting run above it, or else below it; a shorter one is in the first size class that has anything |
| `Allocators.Allocator.Allocate` | src/ebofs/Allocator.cc:116-211 | The same for the whole operation: where the extent is, that it was free, and that exactly its blocks become referenced once |
| `Allocators.Allocator.AllocInc` | src/ebofs/Allocator.cc:316-475 | On the run-length table, adds one to the count of each block of the extent and touches no other, with entries disjoint and counts at least 1, if and only if the cursor stays in the table; otherwise only the blocks up to the last referenced one are counted |
| `Allocators.SeekLeaves` | src/ebofs/Allocator.cc:387 | A table and an extent for which the cursor leaves the table |
| `Allocators.NewIsSeekSafe` | src/ebofs/Allocator.cc:316-475 | An extent that is not in use, as allocate hands out, is safe |
| `Allocators.UsedIsSeekSafe` | src/ebofs/Allocator.cc:316-475 | So is one that is all in use, as a clone shares it |
| `Allocators.Allocator.AllocDec` | src/ebofs/Allocator.cc:477-635 | Takes one from the count of each block of the extent; limbo gains exactly the blocks that reach 0 |
| `Allocators.Allocator.Share` | src/ebofs/Ebofs.cc:3115-3122 | A clone adds one reference to each block of an extent in use |
| `Allocators.Allocator.Release` | src/ebofs/Allocator.cc:223-230 | Drops one reference to each block, and moves those without one to limbo |
| `Allocators.Allocator.ReleaseIntoLimbo` | src/ebofs/Allocator.cc:213-221 | Limbo gains exactly the blocks of the extent, and `limbo_blocks` stays its size |
| `Allocators.Allocator.CommitLimbo` | src/ebofs/Allocator.cc:232-245 | Moves exactly the limbo blocks to the limbo table |
| `Allocators.Allocator.ReleaseLimbo` | src/ebofs/Allocator.cc:247-265 | Frees exactly the blocks of the limbo table, and empties it |
| `Allocators.Allocator.ReleaseLoner` | src/ebofs/Allocator.cc:637-648 | A run without free neighbours enters its size class; `free_blocks` stays the number of free blocks |
| `Allocators.Allocator.ReleaseMerge` | src/ebofs/Allocator.cc:650-693 | A run joins the free runs that touch it, so that free runs stay maximal and in the right class |
| `Allocators.Allocator.Format` | src/ebofs/Ebofs.cc:181-250 | mkfs leaves the metadata referenced once and all the rest free |
| `RefTable.CarveRefs` | src/ebofs/Allocator.cc:316-630 | Cutting a piece out of an entry and giving it another count changes the counts of that piece only |
| `RefTable.InsertUp` | src/ebofs/Allocator.cc:316-475 | A new entry of count 1 is one more reference to each of its blocks |
| `RefTable.ExtendUp` | src/ebofs/Allocator.cc:316-475 | So is lengthening an entry of count 1 |
| `IntervalSet.InsertAdds` | src/include/interval_set.h:166-206 | Inserting a run adds exactly its blocks, and runs stay maximal |
| `FreeList.PickBucket` | src/ebofs/Allocator.h:41-50 | The loop computes the size class |
| `FreeList.BucketBounds` | src/ebofs/Allocator.h:41-50 | The bounds of the classes: 2, 8, 32, 128 |
| `FreeList.BucketMonotone` | src/ebofs/Allocator.h:41-50 | A longer run is never in an earlier class |
| `FreeList.PowerNeverStuck` | src/ebofs/Allocator.cc:190-205 | A request for a power of two finds something whenever a block is free |
| `FreeList.StuckWithRoom` | src/ebofs/Allocator.cc:190-205 | Three blocks wanted and two free: nothing is found |
| `Onodes.Onode.SetExtent` | src/ebofs/Onode.h:219-348 | Refines the update of the block-to-disk map, holes up to a later offset included, if and only if the faulty merge test does not fire; then the extents tile the object and both totals are exact |
| `Onodes.Onode.Append` | src/ebofs/Onode.h:225-246 | At the end of the object: the new cells follow the old ones, or, when the test misfires, the first of them is wrong |
| `Onodes.Onode.SetPastEnd` | src/ebofs/Onode.h:248-263 | Past the end: the gap becomes a hole |
| `Onodes.Onode.Punch` | src/ebofs/Onode.h:265-334 | Removes what lies under the new extent, splitting extents at both edges, and keeps the totals exact |
| `Onodes.Onode.Overwrite` | src/ebofs/Onode.h:265-348 | Within the object: the cells of the range are replaced, all others keep disk block and checksum |
| `Onodes.Onode.TruncateExtents` | src/ebofs/Onode.h:351-397 | The first cells stay; what is handed back is exactly the disk blocks of the rest, in order |
| `Onodes.Onode.MapExtents` | src/ebofs/Onode.h:405-461 | The extents returned name exactly the disk blocks of the range, in order, with holes, up to the end of the object; the first one ends where an extent of the map begins |
| `Onodes.Onode.GetExtentCsum` | src/ebofs/Onode.h:204-212 | Finds the place of the checksums of a range within one extent |
| `Onodes.Onode.UpdateCsum` | src/ebofs/BufferCache.cc:114-123 | Replaces one checksum, and keeps `data_csum` the sum of all |
| `Onodes.SetKeepsDistinct` | src/ebofs/Onode.h:171-201 | Mapping an extent that nothing else uses keeps disk blocks used at most once |
| `Onodes.LostAppend` | src/ebofs/Onode.h:227-232 | An object of one block and a hole, tiled as it should be, for which the merge test misfires |
| `ExtentMaps.CarveIsCarved` | src/ebofs/Onode.h:266-334 | The three ways to cut an extent all remove exactly the cells of the range |
| `ExtentMaps.CarveTotals` | src/ebofs/Onode.h:266-334 | Cutting lowers the block count and the checksum by exactly what is removed |
| `OnodeRoundTrip.RoundTripIff` | src/ebofs/Ebofs.cc:678-906 | An onode comes back from its image, whatever follows the image in the block, if and only if the format can hold it: counts that fit their fields, attribute names without NUL, extents that follow one another from block 0 to the end, bad byte ranges kept apart |
| `OnodeRoundTrip.DecodedStorable` | src/ebofs/Ebofs.cc:678-754 | Whatever is decoded from any bytes, with well-formed extents, can be stored |
| `OnodeCodec.DecodeChecks` | src/ebofs/Ebofs.cc:680-695 | Bytes from which anything is decoded have a length within their end, and a checksum over that length that equals both the stored and the expected one |
| `OnodeRoundTrip.HeaderLayout` | src/ebofs/types.h:76-93 | The first 96 bytes of an image are the packed struct: each of its 18 fields at its offset, little-endian, with the checksum over all that follows it and the length of the whole |
| `OnodeRoundTrip.EncodedLength` | src/ebofs/Onode.h:497-522 | The image is as long as `get_ondisk_bytes` says if and only if `alloc_blocks` counts the real blocks |
| `OnodeRoundTrip.GoodOnodeLength` | src/ebofs/Onode.h:497-522 | So it is for every onode that meets the invariant of `Onodes` |
| `OnodeImage.EncodeOnode` | src/ebofs/Ebofs.cc:832-906 | The loops write that image, and the checksum of all that follows the header |
| `OnodeImage.DecodeOnode` | src/ebofs/Ebofs.cc:678-754 | The loops accept exactly the images that the format describes, and nothing whose length or checksum is wrong, and rebuild the extent keys from the lengths |
| `PartialBlocks.CollectThenApply` | src/ebofs/BufferCache.cc:21-112 | Collecting any writes and applying them to the block once it is read equals doing the writes in order on the block |
| `PartialBlocks.PatchesInOrder` | src/ebofs/BufferCache.cc:21-112 | The same of the merged bytes |
| `PartialBlocks.PartialBlock.AddPartial` | src/ebofs/BufferCache.cc:46-112 | A fragment replaces exactly its bytes; fragments stay disjoint and inside the block |
| `PartialBlocks.PartialBlock.ApplyPartial` | src/ebofs/BufferCache.cc:21-33 | The held bytes replace those of the block, the others stay |
| `PartialBlocks.PartialBlock.HavePartialRange` | src/ebofs/BufferCache.h:215-239 | Says yes if and only if every byte is held and no fragment follows after a gap behind the one that holds the range; for an empty range, which the edge check can pass, it says what the code answers |
| `PartialBlocks.WrongNo` | src/ebofs/BufferCache.h:229-235 | A range that is held for which it says no |
| `CacheCoherence.CleanIsOnDisk` | src/ebofs/BufferCache.cc:294-332 | In every run whose reads are careful, a clean block that is no hole holds the bytes on disk, and no write to it is in flight, through overwrites, cancels, evictions, truncations and closed caches |
| `CacheCoherence.StepKeeps` | src/ebofs/BufferCache.cc:136-332 | A step keeps the cache sound if and only if it is not a read that begins while an older read of the block from another place is under way in the same cache |
| `CacheCoherence.FinishWriteKeeps` | src/ebofs/BufferCache.cc:294-332 | The end of any write keeps it: only the write of the current version makes a block clean |
| `CacheCoherence.FinishReadKeeps` | src/ebofs/BufferCache.cc:136-291 | The end of a read from where the block is keeps the invariant, whether it ends clean, corrupt or in a partial write |
| `CacheCoherence.CorruptIsKnown` | src/ebofs/BufferCache.cc:174-222 | In every run in which no wrong read is missed, whatever reads and writes race, a block that has bytes is marked corrupt if and only if they do not have the checksum of the onode |
| `CacheCoherence.StepTells` | src/ebofs/BufferCache.cc:174-222 | A step keeps this if and only if it is not the end of a read that brings wrong bytes with verification off or with no good block after it in its head |
| `CacheProgress.WriteThenRead` | src/ebofs/BufferCache.cc:136-332 | From every sound state, a block that is overwritten reaches the disk by completions alone, may then leave the cache, and is read back clean with the same bytes |
| `CacheProgress.ReachesDisk` | src/ebofs/BufferCache.cc:294-332 | So does every block that has been changed, also if its write was taken back and has to be queued again |
| `CacheProgress.ReadBrings` | src/ebofs/BufferCache.cc:136-291 | A read of a block that is not cached brings what is on disk, and the checksum decides whether it is clean or corrupt |
| `StaleReads.CarelessReadHarms` | src/ebofs/BufferCache.cc:136-291 | After any other read, whatever the old one is about to bring, letting what is in flight finish leaves the block clean and wrong for all other contents it may have on disk; for a block before a good one of its head, for all that have the same checksum |
| `StaleReads.OldReadLands` | src/ebofs/BufferCache.cc:136-291 | The device gets to the old read in finitely many completions, and the block is still waiting then |
| `StaleReads.StaleHappens` | src/ebofs/BufferCache.cc:136-291 | A run from the start, with every checksum right and verified, after which a clean block differs from the disk |
| `StaleReads.SwappedWords` | src/ebofs/csum.h:23-36 | The checksum does not see the order of the words of a block |
| `BufferHeads.CountInsert` | src/ebofs/BufferCache.h:527-544 | Adding a head keeps each total the number of cached blocks in that state |
| `BufferHeads.CountRemove` | src/ebofs/BufferCache.h:545-561 | So does removing one |
| `BufferHeads.SplitView` | src/ebofs/BufferCache.cc:997-1055 | Splitting a head leaves state, version and contents of every block unchanged |
| `BufferHeads.SplitCounts` | src/ebofs/BufferCache.cc:997-1055 | and the totals exact |
| `BufferHeads.MergeView` | src/ebofs/BufferCache.cc:872-895 | Merging leaves the contents of every block unchanged, and everything outside the two heads |
| `BufferHeads.MergeCounts` | src/ebofs/BufferCache.cc:872-895 | and the totals exact |
| `CacheRequests.IoDrop` | src/ebofs/BufferCache.cc:1102-1169 | Cancelling the request of a head that goes away leaves the others matched with their heads |
| `CacheRequests.IoSplit` | src/ebofs/BufferCache.cc:997-1055 | A head whose request cannot be cancelled any more may be split |
| `ObjectCaches.ObjectCache.FindBh` | src/ebofs/BufferCache.h:328-352 | The head that contains a block, or else the first one after it |
| `ObjectCaches.ObjectCache.FindBhContaining` | src/ebofs/BufferCache.h:354-361 | The head that contains a block, if and only if it is cached |
| `ObjectCaches.ObjectCache.MapWrite` | src/ebofs/BufferCache.cc:592-730 | Terminates with heads that tile the range exactly; no cached block changes except for requests taken back; new heads are clean holes exactly where the object has a hole; no head crosses the end of a disk extent or has a write of this epoch that could still be cancelled, and none is shorter than the old heads, the extents and the range make it; only queued requests for blocks of the range were taken back, and each new one repeats a part of one of them |
| `ObjectCaches.ObjectCache.TakeHit` | src/ebofs/BufferCache.cc:641-705 | One head of the result: cut to the range and no further, with the request of what lies outside issued again |
| `ObjectCaches.ObjectCache.Split` | src/ebofs/BufferCache.cc:997-1055 | Two heads for one, with every block, the totals and the requests as they were |
| `ObjectCaches.ObjectCache.BhRead` | src/ebofs/BufferCache.cc:1060-1100 | Queues a read of the whole head |
| `ObjectCaches.ObjectCache.BhCancelRead` | src/ebofs/BufferCache.cc:1102-1113 | Takes the read back if and only if the device has not started it |
| `ObjectCaches.ObjectCache.BhWrite` | src/ebofs/BufferCache.cc:1115-1149 | Queues a write of the head with its contents and version |
| `ObjectCaches.ObjectCache.BhCancelWrite` | src/ebofs/BufferCache.cc:1152-1169 | Takes the write back if and only if the device has not started it; the head still has all its contents |
| `ObjectCaches.ObjectCache.DiscardBh` | src/ebofs/BufferCache.cc:779-803 | Drops one head, and takes back exactly its read, or its write if the blocks are uncommitted |
| `ObjectCaches.ObjectCache.Truncate` | src/ebofs/BufferCache.cc:806-835 | Drops every block from the new end on, and changes nothing before it; of the dropped heads exactly the queued reads, and the queued writes of uncommitted blocks in this epoch, are taken back; a queued request of the head that is cut is replaced by one for the part that stays; all others stay |
| `ObjectCaches.ObjectCache.MergeBhLeft` | src/ebofs/BufferCache.cc:872-895 | One head for two clean ones; contents, totals and requests stay matched |
| `ObjectCaches.ObjectCache.TryMergeLeft` | src/ebofs/BufferCache.cc:911-931 | Merges with the neighbour exactly when both are clean, loaded and adjacent |
| `ObjectCaches.ObjectCache.TxFinish` | src/ebofs/BufferCache.cc:294-332 | A finished write makes exactly the blocks of its range clean that are still being written with its version |
| `ObjectCaches.ObjectCache.RxFinish` | src/ebofs/BufferCache.cc:136-291 | A finished read gives exactly the waiting blocks of its range their contents, byte by byte under the fragments held for them; each ends clean or corrupt as the loop over its head decides; all other requests stay, and each new one writes out a block with fragments |
| `ObjectCaches.ObjectCache.VerifyHead` | src/ebofs/BufferCache.cc:189-222 | The head is cut into runs, and a block is marked corrupt if and only if it is bad and a later block of the head is good; nothing else changes |
| `ObjectCaches.BadHeadPasses` | src/ebofs/BufferCache.cc:191-222 | Bad blocks that no good one follows in their head end clean, with the contents that failed |
| `ObjectCaches.LostChecksum` | src/ebofs/BufferCache.cc:191-222 | A cache with one head of one block, on which the loop may be called: if the block is bad, it ends clean, whatever it holds |
| `ObjectCaches.ObjectCache.Overwrite` | src/ebofs/Ebofs.cc:1778-2056 | Every block of the range gets its new contents and the next version; no other block changes; the new requests write exactly such contents, or repeat parts of what was taken back for them; requests for other blocks stay |
| `ObjectCaches.ObjectCache.OverwriteHead` | src/ebofs/Ebofs.cc:1985-2055 | The same for one head, with the write request that goes out |
| `CrushUniform.MakePrimes` | src/crush/builder.c:150-164 | The loop terminates for every size and hash, with increasing strides that are prime and larger than the size |
| `CrushUniform.BeginIs` | src/crush/mapper.c:18-27 | Where the replicas of an input begin: the number below 2^32 that differs from the input plus 16 bits of the hash by a multiple of 2^32 |
| `CrushUniform.IsPrime` | src/crush/builder.c:157-161 | Trial division up to the square root decides primality |
| `CrushUniform.PrimeAbove` | src/crush/builder.c:150-164 | There is a prime above every bound, so that the search ends |
| `CrushUniform.EverySlotOnce` | src/crush/mapper.c:18-27 | The first `size` replicas visit every slot exactly once if and only if no 32-bit wrap falls between them or the size divides 2^32 |
| `CrushUniform.EveryItemOnce` | src/crush/mapper.c:18-27 | With a table of strides as the builder makes it, the first replicas of an input choose every position of the bucket exactly once under the same condition, and only then |
| `CrushUniform.PowersAreSafe` | src/crush/mapper.c:18-27 | A bucket whose size divides 2^32 is safe for every stride and every number of wraps |
| `CrushUniform.SplitCollides` | src/crush/mapper.c:18-27 | Otherwise a wrap between the replicas makes two of them meet |
| `CrushUniform.SlotsDiffer` | src/crush/mapper.c:18-27 | Two replicas whose sums have wrapped equally often never meet; nor do any two if the size divides 2^32 |
| `CrushUniform.WrapCollides` | src/crush/mapper.c:18-27 | Three slots and a wrap: two replicas meet |
| `CrushList.BugIffWeightless` | src/crush/mapper.c:32-54 | The `BUG_ON` is reached if and only if all weights are zero |
| `CrushList.ChosenHasWeight` | src/crush/mapper.c:32-54 | The chosen item has a positive weight |
| `CrushList.RaiseKeeps` | src/crush/mapper.c:32-54 | Raising the weight of an item never moves an input away from it, wherever it is in the list |
| `CrushList.PrependMovesOnlyToNew` | src/crush/mapper.c:32-54 | A new item in front takes an input or leaves it where it was |
| `CrushList.MakeSums` | src/crush/builder.c:190-200 | Each entry is the sum of the weights from it to the end |
| `CrushList.Choose` | src/crush/mapper.c:32-54 | The loop chooses the first item whose hash is for it: where the hash, as a fraction of 2^16, is below the share of the item among those from it on; the `BUG_ON` means that there is none |
| `CrushList.FirstTakes` | src/crush/mapper.c:32-54 | So does the function that the lemmas are about |
| `CrushTree.MakeTree` | src/crush/builder.c:229-272 | Every node holds the weight of the items below it, the root that of all, in the smallest tree that has room for them |
| `CrushTree.RootWeight` | src/crush/builder.c:229-272 | The root is the total, however deep the tree |
| `CrushTree.ChosenHasWeight` | src/crush/mapper.c:77-102 | With a positive total the descent ends at a real leaf of positive weight, never at padding |
| `CrushTree.PickHasWeight` | src/crush/mapper.c:77-102 | So it does from any node with weight |
| `CrushTree.RaiseKeeps` | src/crush/mapper.c:77-102 | Raising the weight of an item never moves an input away from it |
| `CrushTree.Choose` | src/crush/mapper.c:77-102 | The loop ends at the leaf that the lemmas are about, and at every node above it that leaf is on the left if and only if the hash of the node, as a fraction of 2^32, is below the share of the left side |
| `CrushTree.OneFollows` | src/crush/mapper.c:77-102 | Only one leaf is where the hashes say |
| `CrushTree.LeftShare` | src/crush/mapper.c:84-95 | Of the 2^32 values that the hash of a node can have, those that go left are the left side's share of the weight, rounded up to a whole value |
| `CrushTree.Height` | src/crush/builder.c:208-215 | Counting trailing zero bits gives the height |
| `CrushTree.Parent` | src/crush/builder.c:219-226 | The bit arithmetic gives the parent |
| `CrushTree.Left` | src/crush/mapper.c:65-68 | and the left child |
| `CrushTree.Right` | src/crush/mapper.c:69-72 | and the right child |
| `CrushTree.Depth` | src/crush/builder.c:244-249 | The least depth that has room for the items |
| `BinaryTrees.BinaryTree.Accessors` | src/crush.old/BinaryTree.h:58-65 | What each accessor reads off its vector is the truth about the leaves below the node: their number, their weight, and whether they are all there |
| `BinaryTrees.BinaryTree.Sums` | src/crush.old/BinaryTree.h:86-117 | Each inner node is the sum of its children, and complete if and only if both are |
| `BinaryTrees.BinaryTree.AddNode` | src/crush.old/BinaryTree.h:180-248 | Returns a leaf that was not in use, and no other leaf is touched, with or without a new root |
| `BinaryTrees.BinaryTree.FindSlot` | src/crush.old/BinaryTree.h:180-231 | Finds that leaf, growing the root if the tree is full |
| `BinaryTrees.BinaryTree.RemoveNode` | src/crush.old/BinaryTree.h:131-174 | Loses exactly the leaf that is removed, while the root moves down |
| `BinaryTrees.BinaryTree.Collapse` | src/crush.old/BinaryTree.h:153-173 | The root moves down past empty sides, and no leaf is lost |
| `BinaryTrees.BinaryTree.AdjustNodeWeight` | src/crush.old/BinaryTree.h:120-129 | Changes the weight of one leaf and of all nodes above it |
| `BlockDevices.ElevatorQueue.FindPosition` | src/ebofs/BlockDevice.cc:67-128 | The request that the sweep comes to next; the sweep turns, or begins anew, exactly when nothing is left on its way, so two tries are enough |
| `BlockDevices.ElevatorQueue.DequeueIo` | src/ebofs/BlockDevice.cc:67-203 | Removes an ascending run of adjacent requests of one kind that touch no locked block, reports exactly their union, begins where the sweep comes next, and takes as many as the lock, the kind and the vector limit allow |
| `BlockDevices.BarrierQueue.DequeueIo` | src/ebofs/BlockDevice.cc:244-252 | No request is taken while one from before an earlier barrier is queued; an empty front queue means that all are empty; nothing is taken if and only if the request of the front queue that the sweep comes to next meets a locked block, and otherwise the run begins there and is as long as allowed |
| `BlockDevices.BarrierQueue.Barrier` | src/ebofs/BlockDevice.cc:215-225 | All that comes later is after all that came before |
| `BlockDevices.BarrierQueue.Bump` | src/ebofs/BlockDevice.cc:227-242 | Drops empty queues from the front, and nothing else |
| `BlockDevices.BarrierQueue.SubmitIo` | src/ebofs/BlockDevice.h:161-164 | A request joins the newest queue |
| `BlockDevices.BarrierQueue.CancelIo` | src/ebofs/BlockDevice.cc:612-626 | Takes back a request if and only if it is queued, as its `in_queue` says; all others stay |
| `BlockDevices.BlockDevice.StartIo` | src/ebofs/BlockDevice.cc:341-376 | What is started is disjoint from everything in flight, is the longest run from where the sweep comes next, and is nothing only if that is locked; the block lock is exactly the union of what is in flight |
| `BlockDevices.BlockDevice.FinishIo` | src/ebofs/BlockDevice.cc:341-376 | Unlocks exactly what was started |
| `BlockDevices.RunUnlocked` | src/ebofs/BlockDevice.cc:150-203 | A run of unlocked requests covers no locked block |
| `SubmissionOrder.FinishesInOrder` | src/ebofs/BlockDevice.cc:154-158 | With the lock on started blocks and the barriers, the request that finishes is the oldest for its block, in every run whose submissions find the block clear |
| `SubmissionOrder.StepKeeps` | src/ebofs/BlockDevice.h:113-117 | A step keeps the requests for each block in order if and only if it is not a submission for a block that has a request queued behind the last barrier |
| `SubmissionOrder.EverythingFinishes` | src/ebofs/BlockDevice.cc:244-252 | Barriers and locks keep no request waiting for ever: from every state the device can carry out all that is queued or in flight |
| `SubmissionOrder.UnclearOvertakes` | src/ebofs/BlockDevice.cc:154-158 | Such a submission may be carried out before the request that was there |
| `SubmissionOrder.ReadMeetsWrite` | src/ebofs/Ebofs.cc:2047-2055 | A run of the cache that submits a write for a block while a read of that block is in flight |
| `Timers.Timer.TakeDue` | src/common/Timer.cc:54-92 | Takes exactly the events that are due, each once, in order of time; the two maps stay inverse |
| `Timers.Timer.GetNextDue` | src/common/Timer.cc:40-51 | The earliest time, if there is one |
| `Timers.Timer.AddEventAt` | src/common/Timer.cc:195-213 | One more event at its time; the maps stay inverse |
| `Timers.Timer.CancelEvent` | src/common/Timer.cc:215-243 | Withdraws an event if and only if it has not been taken; no empty set of events stays behind |
| `SafeTimers.StepKeeps` | src/common/Timer.cc:247-326 | Every step of the timer thread and of its users keeps the invariant |
| `SafeTimers.AtMostOnce` | src/common/Timer.cc:247-326 | In every interleaving an event is called back at most once, and it and its wrapper are deleted at most once |
| `SafeTimers.EveryEventRuns` | src/common/Timer.cc:247-326 | From every state the timer thread alone calls back each event that is still scheduled, exactly once, and no other; then `join` returns, and each event and wrapper has been deleted exactly once |
| `SafeTimers.BeginIsSafe` | src/common/Timer.cc:265-288 | A wrapper that begins to run finds its event alive, and either scheduled or cancelled |
| `SafeTimers.WithdrawnNeverStarts` | src/common/Timer.cc:290-303 | After `cancel_event` has returned, the event never starts, whatever happens later |
| `SafeTimers.JoinedIsQuiet` | src/common/Timer.cc:313-326 | After `join` no wrapper is waiting, taken or running, and each event was deleted exactly once; a wrapper that still exists has given up the lock and is about to be deleted |
| `SafeTimers.JoinedForGood` | src/common/Timer.cc:313-326 | From then on no step of the timer thread touches the timer or an event, unless something new is added |

## Left out

- EverySlotOnce: for buckets in which size times stride is below 2^32, so that at most one wrap falls between the replicas; `PowersAreSafe` has no such bound.
- EveryItemOnce: the same bound.
- SplitCollides: the same bound; with several wraps, two of them may make up for each other.
- MapExtents: without the `csum` output, which every caller leaves unset.
- GetExtentCsum: requires, as the source asserts, that the range lies within one extent on disk.
- AddPartial: fragments are not empty; the source never adds an empty one.
- AdjustNodeWeight: for leaves, which is how the tree is used.
- RemoveNode: for leaves, as above; weights are exact integers, where the source uses floating point.
- FindPosition: without the time limits of a sweep, which set a stop time that nothing reads.
- DequeueIo: requests begin within the device.
- TryMergeLeft: the reference count of a head and the limit on its number of buffers are an input (`few`).
- RxFinish: which blocks fail their checksum is an input (`bad`); waiting readers and the bad byte ranges of the onode are absent.
- OverwriteHead: the read of a partial head that is overwritten is not cancelled; `CacheCoherence` has that step.
- Overwrite: the blocks are placed already; heads are not cut again where the new extents end.
- WriteBlock: without a free block the source fails the write before it changes anything; that check is not in the model.
- PatchBlock: a block with a write in flight is in memory, and its partial writes are whole-block writes here.
- CommittedBlocksSafe: super block writes are atomic, because mount compares epochs only.
- CloneBlockKeeps: a block that is dirty or in flight is cloned after its write; shadow heads, waiting readers and the checksums of the clone are not in the model.
- FlushOnodeKeeps: an onode takes one block. For longer ones the source does not look at how much it was given.
- CleanIsOnDisk: each request is for one block, and requests for one disk block are carried out in order (see `SubmissionOrder` for when they are); that no block after it in its head has the right checksum is an input of the end of a read (`tail`).
- The choice of a uniform bucket, `CrushUniform.Choose`, has no row: it returns the item at the position that `EveryItemOnce` is about.
- The node region, the usemap and the collections are not in the object store model; the allocator's own tables are in `Allocators`.
- The store works block by block, with `owed` for blocks that an operation has changed and not queued yet.
- Block numbers, lengths, weights and versions are unbounded, and the checksums of `Onodes` are exact sums; widths are kept in the uniform bucket, in the fixed-point draws, in the checksum of `CacheCoherence` and in the onode image.
- The B-tree behind `Table` is an ordered map; the LRU lists and the cache trimming they drive are absent.
- Totals are kept for one object's cache, where the source adds up all objects.
- Read mapping (`map_read`, `try_map_read`), `copy_partial_substr`, attributes, collections and the public operations of `Ebofs.cc` around the modelled ones.
- The journal (`FileJournal.cc`).
- The checksum function of the onode codec is abstract; images are below 4 GiB, and reading past the end of a buffer is a failed decode.
- `crush_choose` and its descent through several buckets, straw buckets, floating-point weights, the wrapper's encoding, and the hash function, which is arbitrary.
- `readv`, `writev`, threads and condition variables: each critical section is one step.
- The timer's event counter, its sleeping and waking, and the wall clock, which is an input.
