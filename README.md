# GreyObjectsWalker: the scan frontier of the copying collector

This project models `GreyObjectsWalker` from the generational copying collector of Substrate VM in Dafny and proves properties of it.

`GreyObjectsWalker` takes a snapshot of a space. Every object already in the space is black, and every object allocated into the space after the snapshot is grey. The walker then applies the grey-to-black visitor to the grey objects until none are left. The visitor copies and promotes objects, which can allocate more objects into the same space. Allocation happens only at the last chunks of the space, so the walker keeps a frontier:

- the last aligned chunk it walked;
- the top that chunk had when it was walked;
- the last unaligned chunk it walked.

Each sweep resumes at the frontier. The walker stops when the frontier equals the tail of the space.

## How the model represents the system

- **Chunks** (module `Chunks`): a chunk is its position in its space's list. A null chunk or null pointer is `None`. An aligned chunk is its `start` (the first byte after its header) and its `top` (its allocation top). An unaligned chunk holds one object, from `start` to `top`.
- **The space** (module `Spaces`, class `Space`): two append-only chunk lists, plus two per-chunk object walks.
  - The object walks are `WalkAlignedObjectsFrom` and `WalkUnalignedObjectsFrom`.
  - Whatever the visitor does while a walk runs is `Promote`. Its contract is what callers rely on: it may raise the top of the last aligned chunk and append chunks of either kind, any number of times. Its body is one sample of such behaviour.
  - Every walk appends one `Scan` record to the ghost log `scans`. The record holds the chunk, the range walked (from the offset given to the top the walk left) and whether the walk succeeded.
  - `growthBudget` stands for the finite number of live objects still to be copied. Each growth step spends one unit, and this is what makes the drain loop terminate.
- **Space and chunk queries** (class `Space`): each accessor stands for one call in the source.
  - `LastAligned` and `LastUnaligned` stand for the last-chunk getters of the space (lines 74, 79, 91-92).
  - `FirstAligned` and `FirstUnaligned` stand for the first-chunk getters (lines 110, 141).
  - `NextAligned` and `NextUnaligned` stand for the chunk's next link (lines 126, 143, 153).
  - `AlignedStart` and `UnalignedStart` stand for the chunk-start computations (lines 111, 127, 150).
  - `AlignedTop` stands for the chunk's top (lines 77, 91, 132).
- **The walker** (module `GreyObjects`, class `GreyObjectsWalker`): the three frontier fields of the source. Two ghost fields sit beside them:
  - `snapshot`, the frontier as `SetScanStart` recorded it;
  - `mark`, the position in the log at that moment.
- **The do-while loops**: the aligned and unaligned loops are the module-level methods `WalkAlignedChunksFrom` and `WalkUnalignedChunksFrom`. The start selection before each loop is `WalkAlignedChunks` and `WalkUnalignedChunks`. The state of each loop is one predicate in module `Sweeps`.
- **Coverage** (module `Coverage`): a frontier "accounts for" the log when two things hold:
  - every walk logged since the snapshot succeeded;
  - the ranges walked in each chunk, in log order, tile the grey part of that chunk up to the frontier.

  The grey part of the snapshot chunk starts at its recorded top. The grey part of a later chunk starts at the chunk's start. `ExactlyCovers` then states that every grey offset is walked exactly once, in increasing address order.

## Model

| member | source | states |
|---|---|---|
| GreyObjects.GreyObjectsWalker.SetScanStart | substratevm/src/com.oracle.svm.core.genscavenge/src/com/oracle/svm/core/genscavenge/GreyObjectsWalker.java:70-82 | The frontier becomes the tail of the space: its last aligned chunk and that chunk's top, and its last unaligned chunk. The aligned top is null exactly when the space has no aligned chunk. Afterwards nothing has been walked since the snapshot and there are no grey objects. |
| GreyObjects.GreyObjectsWalker.HaveGreyObjects | substratevm/src/com.oracle.svm.core.genscavenge/src/com/oracle/svm/core/genscavenge/GreyObjectsWalker.java:89-93 | There are grey objects if and only if the frontier differs from the current tail of the space. The tail is the last aligned chunk, its current top, and the last unaligned chunk. |
| GreyObjects.GreyObjectsWalker.WalkGreyObjects | substratevm/src/com.oracle.svm.core.genscavenge/src/com/oracle/svm/core/genscavenge/GreyObjectsWalker.java:96-101 | Alternates the two sweeps until no grey objects remain. On success the frontier is the tail of the space, and the walks since the snapshot account exactly for every object allocated since. With no grey objects on entry, nothing is walked and neither the walker nor the space changes. Over the whole drain the space only grows at its end. A failed chunk walk stops everything, and it is the only failed walk in the log. The frontier never moves backwards. |
| GreyObjects.GreyObjectsWalker.WalkRound | substratevm/src/com.oracle.svm.core.genscavenge/src/com/oracle/svm/core/genscavenge/GreyObjectsWalker.java:98-99 | One turn of the loop runs the aligned sweep, then the unaligned sweep. On success the log still accounts for the frontier, and either growth budget was used up or the frontier has caught up with the tail of the space. A failure stops after the failing sweep. |
| GreyObjects.GreyObjectsWalker.WalkAlignedGreyObjects | substratevm/src/com.oracle.svm.core.genscavenge/src/com/oracle/svm/core/genscavenge/GreyObjectsWalker.java:104-134 | On success the aligned frontier is the last aligned chunk, with the top it has after the walks, and the log still accounts for the frontier. On failure the frontier is unchanged and the failed walk is the last one logged. |
| GreyObjects.WalkAlignedChunks | substratevm/src/com.oracle.svm.core.genscavenge/src/com/oracle/svm/core/genscavenge/GreyObjectsWalker.java:105-119 | Sweep start: with no aligned chunk recorded, from the start of the first chunk; otherwise from the recorded chunk at the recorded top. With no chunk to start from, nothing is walked and the space is unchanged. |
| GreyObjects.WalkAlignedChunksFrom | substratevm/src/com.oracle.svm.core.genscavenge/src/com/oracle/svm/core/genscavenge/GreyObjectsWalker.java:120-128 | The do-while loop walks the first chunk from the given offset. Every following chunk is walked from its own start up to its top, once each, in list order, until the end of the list as it has grown meanwhile. The last chunk walked is reported. It stops at the first failed walk. |
| GreyObjects.GreyObjectsWalker.WalkUnalignedGreyObjects | substratevm/src/com.oracle.svm.core.genscavenge/src/com/oracle/svm/core/genscavenge/GreyObjectsWalker.java:137-159 | On success the unaligned frontier is the last unaligned chunk, and the log still accounts for the frontier. On failure the frontier is unchanged and the failed walk is the last one logged. |
| GreyObjects.WalkUnalignedChunks | substratevm/src/com.oracle.svm.core.genscavenge/src/com/oracle/svm/core/genscavenge/GreyObjectsWalker.java:138-146 | Sweep start: the first unaligned chunk when none is recorded, otherwise the chunk after the recorded one, so the recorded chunk is never walked again. With no such chunk, nothing is walked and the space is unchanged. |
| GreyObjects.WalkUnalignedChunksFrom | substratevm/src/com.oracle.svm.core.genscavenge/src/com/oracle/svm/core/genscavenge/GreyObjectsWalker.java:147-154 | The do-while loop walks each unaligned chunk from the given one on, over its whole object, once each, in list order, until the end of the list as it has grown meanwhile. It stops at the first failed walk. |
| GreyObjects.AlignedSweepDone | substratevm/src/com.oracle.svm.core.genscavenge/src/com/oracle/svm/core/genscavenge/GreyObjectsWalker.java:119-133 | Moving the scan point after the aligned sweep keeps the frontier inside the space and ahead of both the snapshot and the old frontier. On success it puts the frontier at the last chunk and its re-read top, and the extended log accounts for it. On failure the frontier stays. |
| GreyObjects.UnalignedSweepDone | substratevm/src/com.oracle.svm.core.genscavenge/src/com/oracle/svm/core/genscavenge/GreyObjectsWalker.java:146-158 | The same for the unaligned sweep: the frontier moves to the last unaligned chunk on success and stays on failure. |
| GreyObjects.AlignedSweepAccounts | substratevm/src/com.oracle.svm.core.genscavenge/src/com/oracle/svm/core/genscavenge/GreyObjectsWalker.java:106-132 | An aligned sweep that resumes at the frontier, or at the first chunk's start when there was none, and runs to the end of the list leaves a log that accounts for a frontier at the last chunk's top. |
| GreyObjects.UnalignedSweepAccounts | substratevm/src/com.oracle.svm.core.genscavenge/src/com/oracle/svm/core/genscavenge/GreyObjectsWalker.java:138-157 | An unaligned sweep that starts after the frontier chunk and runs to the end of the list leaves a log that accounts for a frontier at the last unaligned chunk. |
| GreyObjects.DrainedScansExactlyOnce | substratevm/src/com.oracle.svm.core.genscavenge/src/com/oracle/svm/core/genscavenge/GreyObjectsWalker.java:64-66 | Once no grey objects remain, the objects black at the snapshot were not walked. Every aligned chunk was walked over exactly its grey part, each offset once, in address order. Every unaligned chunk after the snapshot was walked exactly once. |
| Spaces.Space.Promote | substratevm/src/com.oracle.svm.core.genscavenge/src/com/oracle/svm/core/genscavenge/GreyObjectsWalker.java:40-41 | The visitor changes the space only by allocating at its end: existing chunk starts stay, only the last aligned chunk's top may rise, and chunks are only appended. Each step costs growth budget. |
| Spaces.Space.WalkAlignedObjectsFrom | substratevm/src/com.oracle.svm.core.genscavenge/src/com/oracle/svm/core/genscavenge/GreyObjectsWalker.java:123 | One aligned chunk walk runs from the given offset to the top it leaves. The space only grows, and exactly that walk is logged. |
| Spaces.Space.WalkUnalignedObjectsFrom | substratevm/src/com.oracle.svm.core.genscavenge/src/com/oracle/svm/core/genscavenge/GreyObjectsWalker.java:150 | One unaligned chunk walk runs from the chunk's start to its top. The space only grows, and exactly that walk is logged. |
| Spaces.RoundEnds | substratevm/src/com.oracle.svm.core.genscavenge/src/com/oracle/svm/core/genscavenge/GreyObjectsWalker.java:96-100 | A round of both sweeps either used up growth budget, or left the frontier at the tail of the space. This is why the drain loop terminates. |
| Sweeps.AlignedLoopStep | substratevm/src/com.oracle.svm.core.genscavenge/src/com/oracle/svm/core/genscavenge/GreyObjectsWalker.java:121-128 | One turn of the aligned do-while keeps the loop state on success. The loop state is: chunks walked in order, the next chunk taken from the grown list, and the next offset at that chunk's start. A failed turn ends the sweep with the failure as its last walk. |
| Sweeps.AlignedCursorStep | substratevm/src/com.oracle.svm.core.genscavenge/src/com/oracle/svm/core/genscavenge/GreyObjectsWalker.java:126-127 | After a walk the loop moves to the next chunk and its start, which lies within that chunk, or stops at the end of the list with the walked chunk as the last one. |
| Sweeps.UnalignedLoopStep | substratevm/src/com.oracle.svm.core.genscavenge/src/com/oracle/svm/core/genscavenge/GreyObjectsWalker.java:148-154 | One turn of the unaligned do-while keeps the loop state on success, and ends the sweep with its failure as the last walk otherwise. |
| Chunks.AlignedGrowsTransitive | substratevm/src/com.oracle.svm.core.genscavenge/src/com/oracle/svm/core/genscavenge/GreyObjectsWalker.java:40-41 | Growth at the end of the aligned list, composed twice, is still growth at the end. |
| Chunks.SpaceGrowsTransitive | substratevm/src/com.oracle.svm.core.genscavenge/src/com/oracle/svm/core/genscavenge/GreyObjectsWalker.java:40-41 | Growth of a whole space, composed twice, is still growth. |
| Coverage.ChainExtend | substratevm/src/com.oracle.svm.core.genscavenge/src/com/oracle/svm/core/genscavenge/GreyObjectsWalker.java:114-115 | A walk that resumes exactly at the recorded top extends the walked prefix of a chunk without a gap. |
| Coverage.ChainTiles | substratevm/src/com.oracle.svm.core.genscavenge/src/com/oracle/svm/core/genscavenge/GreyObjectsWalker.java:119-128 | Walks that each resume where the previous one stopped cover every offset of their span exactly once, in increasing address order. |
| Coverage.AlignedFromFirst | substratevm/src/com.oracle.svm.core.genscavenge/src/com/oracle/svm/core/genscavenge/GreyObjectsWalker.java:108-111 | With no aligned chunk in the snapshot, starting at the first chunk's start keeps the account. |
| Coverage.AlignedWalkStep | substratevm/src/com.oracle.svm.core.genscavenge/src/com/oracle/svm/core/genscavenge/GreyObjectsWalker.java:123 | Walking the frontier chunk from the frontier offset to its current top moves the frontier to that top, even after the list grew. |
| Coverage.AlignedAdvance | substratevm/src/com.oracle.svm.core.genscavenge/src/com/oracle/svm/core/genscavenge/GreyObjectsWalker.java:126-127 | A chunk walked to its top hands the frontier to the next chunk's start. |
| Coverage.UnalignedWalkStep | substratevm/src/com.oracle.svm.core.genscavenge/src/com/oracle/svm/core/genscavenge/GreyObjectsWalker.java:150 | Walking the unaligned chunk after the frontier, over its whole object, moves the frontier to it. |
| Coverage.AlignedDrained | substratevm/src/com.oracle.svm.core.genscavenge/src/com/oracle/svm/core/genscavenge/GreyObjectsWalker.java:96-101 | With the aligned frontier at the last chunk's top, chunks before the snapshot chunk were never walked, and every other chunk was walked exactly over its grey part. |
| Coverage.AlignedSweepCovers | substratevm/src/com.oracle.svm.core.genscavenge/src/com/oracle/svm/core/genscavenge/GreyObjectsWalker.java:119-128 | A whole aligned sweep from the frontier moves the frontier to the top of the last chunk walked. |
| Coverage.UnalignedSweepCovers | substratevm/src/com.oracle.svm.core.genscavenge/src/com/oracle/svm/core/genscavenge/GreyObjectsWalker.java:146-154 | A whole unaligned sweep after the frontier chunk moves the frontier to the last chunk walked, even after the list grew. |
| Coverage.AlignedCoveredGrows | substratevm/src/com.oracle.svm.core.genscavenge/src/com/oracle/svm/core/genscavenge/GreyObjectsWalker.java:40-41 | Allocation at the end of the aligned list does not disturb the account of a frontier already in the list. |
| Coverage.AlignedUnaffected | substratevm/src/com.oracle.svm.core.genscavenge/src/com/oracle/svm/core/genscavenge/GreyObjectsWalker.java:98-99 | The unaligned sweep leaves the aligned account intact. |
| Coverage.UnalignedUnaffected | substratevm/src/com.oracle.svm.core.genscavenge/src/com/oracle/svm/core/genscavenge/GreyObjectsWalker.java:98-99 | The aligned sweep leaves the unaligned account intact, even after the unaligned list grew. |
| Coverage.AllOkAppend | substratevm/src/com.oracle.svm.core.genscavenge/src/com/oracle/svm/core/genscavenge/GreyObjectsWalker.java:123-124 | After a log of successes, the extended log is all successes exactly when the extension is. A failure ending the extension also ends the whole log. |
| Coverage.AlignedSweepSnoc | substratevm/src/com.oracle.svm.core.genscavenge/src/com/oracle/svm/core/genscavenge/GreyObjectsWalker.java:121-128 | One more walk of the next chunk, from its start to its top, extends an aligned sweep. The tops of chunks walked earlier stay put as the list grows. |
| Coverage.UnalignedSweepSnoc | substratevm/src/com.oracle.svm.core.genscavenge/src/com/oracle/svm/core/genscavenge/GreyObjectsWalker.java:148-154 | One more walk of the next chunk extends an unaligned sweep, even after the list grew. |

## Left out

- The trace output through the no-op log (lines 71, 76, 78, 81) is not modelled: it has no effect.
- The hosted-only factory and constructor (lines 53-62) are not modelled. The walker starts with `SetScanStart`. The inlining annotations are compiler hints.
- The object walk inside a chunk is not modelled. This covers `walkObjectsFromInline`, object layout, and the visitor's copying and promotion. A per-chunk walk is a nondeterministic step that may only grow the space at its end, logs the range it walked, and reports success or failure.
- The lookup of the grey-to-black visitor through the collector singleton (lines 118, 145) is not modelled: the visitor's effect is `Spaces.Space.Promote`.
- Pointer and word arithmetic is not modelled. Chunks are list positions and pointers are integer offsets within a chunk. Chunk headers and alignment are not modelled.
- Concurrency is not modelled. The collector runs with the world stopped, and the model is sequential.
- `VMError.shouldNotReachHere` is not a real abort in the model. A failed walk returns `false` from the sweep and from `WalkGreyObjects` immediately, with the frontier unchanged.
- The finite number of objects that remain to be copied is not modelled directly. It stands behind `growthBudget`, which is what lets the model prove that the drain loop terminates.
- Each do-while loop, the start selection before it, and the body of the drain loop are separate methods rather than inline code. The order of the walks and of the frontier updates is the same.
- The frontier keeps the aligned chunk and its top as two fields, as the code does. A combined chunk-and-top pointer is not modelled.
