# Verified core of protomolt-search

A Dafny model of the parts of the search engine whose answers must not depend on
how they are computed: the slot bitmaps and the Boolean planner behind them, the
batched and collapsed vector scans and the sharing of score floors across a fleet,
the top-k, rerank and reshard checks, the ordered chunk writer and the resumable ingest, and
the canonical capacity documents. Every fast or stateful form is proved against a
simple one: a set of slots, a per-slot truth table, "sort everything and take k",
a recursive calendar, a line prefix of the corpus.

`dafny verify dfyconfig.toml` checks the whole project.

## How it is built

| file | what it models |
|---|---|
| `WordBits.dfy`, `Bits.dfy` | `Bits` of src/boolean_bits.rs: a class over an array of 64-bit words, specified by its set of slots |
| `Counting.dfy` | `at_least`: the bit-sliced counter planes, as a two-dimensional array updated in place |
| `Groups.dfy` | `group_members` and the laws of the MUST / SHOULD / MUST_NOT rule |
| `Plans.dfy`, `Planner.dfy` | the Boolean tree and the planner of src/node.rs: domains recorded for filters, short circuits, rechecks |
| `Allowlists.dfy` | filter scans with pruned ranges, over all rows or over a domain |
| `Ranking.dfy` | the hit order, sorting, and what a top-k depends on |
| `ChunkScan.dfy` | one query's chunked scan of src/chunked.rs under external floors, with and without kept ties |
| `BatchScan.dfy` | the batch of queries that shares it, with allowlists and groups |
| `CollapsedScan.dfy` | the scan that collapses rows by parent |
| `FloorSharing.dfy` | the coordinator, its floor tracker and the shard streams as a step machine |
| `HeapTopK.dfy`, `StreamingTopK.dfy` | bounded heaps and floor-pruned streaming loops |
| `Rerank.dfy`, `Reshard.dfy` | candidate depth and exact rerank; the reshard verification |
| `BooleanWalk.dfy`, `Facets.dfy` | the offline Boolean evaluation and the facet probe, on the bitmaps |
| `ChunkPlans.dfy`, `ChunkWriter.dfy`, `Ingest.dfy` | planning chunks, writing them in order, ingesting them with resume |
| `CivilDate.dfy`, `GlobalIds.dfy` | the day count and the file-row to global-id mapping |
| `Options.dfy`, `Numbers.dfy` | absent values and refusals; sums, powers and extrema |
| `Canonical.dfy`, `CapacityDocuments.dfy` | the canonical encodings up to the hashed bytes |

Scores are integers under a total order; Rust's `total_cmp` is the totalOrder
predicate of section 5.10 of IEEE 754-2019, and `Reshard.dfy` keeps the bit
patterns where the source compares those. Peers, clocks, randomness and files
become parameters: a message list in any order, a budget of rows a node still
accepts, a floor per chunk.

## Where the code and its promise part

- The header of src/chunked.rs says the merged heap always ends as the shard's
  unchunked top-k. Under external floors that is false (`ChunkScan.OverhighFloor`);
  it holds exactly when every row of the unchunked top-k meets the floor its chunk
  was scanned with (`ChunkScan.FlooredScanExact`). The global claim of README.md
  does hold, in every interleaving (`FloorSharing.Lossless`).
- The same file says the floor of the collapsed scan is always at or above the plain
  scan's. It is never above it (`CollapsedScan.ParentFloorBelow`, strictly below in
  `CollapsedScan.ParentFloorLower`), and equal exactly when k parents have a row at
  the plain floor. That a row below the floor can never matter holds, under external
  floors, exactly when every winner's best row meets its chunk's floor
  (`CollapsedScan.CollapsedExact`).
- examples/reshard_verify.rs compares raw score bits, which reverses negative
  scores: the check can reject a correct split (`Reshard.NegativeScoreRejected`),
  and does so exactly when a negative row is left over
  (`Reshard.ReconstructionExact`).
- Raising the SHOULD minimum from zero without a MUST can add members
  (`Groups.SeedIsNotMonotone`); it only removes them exactly when the SHOULD slots
  that survive the MUST_NOTs are live (`Groups.SeedShrinksExact`).
- examples/court_chunks.rs says a rerun resumes exactly at the failed line. It goes
  back over written opinions without text (`ChunkWriter.ResumeFallsBack`), exactly
  when the last written one has no chunk (`ChunkWriter.ResumeAfter`), and loses
  nothing by it. A file cut inside an opinion does lose chunks
  (`ChunkWriter.CutLosesChunk`, exact condition in `ChunkWriter.CutResume`).
- The same tool writes the header of the vectors file whenever no vector is on file,
  so a first run without one and a rerun leave two headers, every record is read out
  of step and the next run fails (`ChunkWriter.RepeatedHeader`). The vectors file is
  the promised one exactly when there was no rerun or the first run wrote a vector
  (`ChunkWriter.Reruns`).
- src/demo/court.rs says the block indices of a plan refer to the order of
  `sentences`. They count only the sentences that cover text, so they do exactly when
  no dropped sentence precedes a kept one (`ChunkPlans.IndicesNameSentences`, example
  in `ChunkPlans.DroppedShifts`).
- src/demo/court.rs computes the last block of a chunk as `i - 1`, which runs below
  zero exactly when text precedes a first block over the smaller limit
  (`ChunkPlans.PlanChunks`, example in `ChunkPlans.LeadingTextFails`).
- examples/tei_rerank.rs searches shard starts that repeat when a shard is empty:
  the owner is always found exactly when no empty shard precedes a non-empty one
  (`GlobalIds.SearchExact`).
- examples/court_ingest.rs without `--resume` is refused by the backend step on a
  node that holds a vector. On one that holds documents and no vector yet it is not:
  the documents are duplicated and every later resume fails
  (`Ingest.DoubledDocuments`; over all node states in `Ingest.StartOver`).
- The date parser accepts days past a month's end and counts them into the next
  month, exactly for days up to 31 (`CivilDate.OverlongDay`).

## Model

| member | source | states |
|---|---|---|
| `Bitmaps.SameSlotsSameWords` | src/boolean_bits.rs:12-18 | two well-formed word arrays of one length that hold the same slots are equal, so structural equality is set equality |
| `Bitmaps.AscendingUnique` | src/boolean_bits.rs:138-186 | a strictly ascending list is determined by its members, so an iteration order is fixed by the set |
| `Bitmaps.AscendingJoin` | src/boolean_bits.rs:154-186 | adjacent slot ranges concatenate to the joined range |
| `Bitmaps.Bits.Empty` | src/boolean_bits.rs:22-27 | ceil(len/64) words, no slot |
| `Bitmaps.Bits.Full` | src/boolean_bits.rs:30-37 | every slot below the length and no bit at or past it |
| `Bitmaps.Bits.Prefix` | src/boolean_bits.rs:40-46 | the slots below the smaller of length and row count |
| `Bitmaps.Bits.Ranges` | src/boolean_bits.rs:49-57 | exactly the slots inside some range, clipped to the length |
| `Bitmaps.Bits.FromBools` | src/boolean_bits.rs:60-68 | slot s is held exactly when entry s is true |
| `Bitmaps.Bits.Live` | src/boolean_bits.rs:72-80 | every slot below the length that the deletion words do not mark |
| `Bitmaps.Bits.Trim` | src/boolean_bits.rs:252-259 | clears the bits past the length and no slot below it |
| `Bitmaps.Bits.Test` | src/boolean_bits.rs:91-93 | a slot tests true exactly when it is in the set |
| `Bitmaps.Bits.Set` | src/boolean_bits.rs:96-99 | adds one slot and keeps the tail clear |
| `Bitmaps.Bits.Clear` | src/boolean_bits.rs:102-105 | removes one slot and keeps the tail clear |
| `Bitmaps.Bits.AndWith` | src/boolean_bits.rs:112-117 | set intersection in place |
| `Bitmaps.Bits.OrWith` | src/boolean_bits.rs:119-124 | set union in place |
| `Bitmaps.Bits.AndNot` | src/boolean_bits.rs:126-131 | set difference in place |
| `Bitmaps.Bits.ClearAll` | src/boolean_bits.rs:133-135 | no slot is left |
| `Bitmaps.Bits.Iter` | src/boolean_bits.rs:138-150 | the lowest-bit loop yields every slot once, ascending |
| `Bitmaps.Bits.IterRange` | src/boolean_bits.rs:154-186 | the masked word walk yields exactly the slots of [start, min(end, len)), ascending, for any start and end, and stays inside the words |
| `Bitmaps.Bits.Count` | src/boolean_bits.rs:108-110 | the size of the set, which is the length of the iteration |
| `Bitmaps.Bits.ToBools` | src/boolean_bits.rs:189-191 | entry s is true exactly when slot s is held, so it inverts FromBools |
| `Bitmaps.BoolsThereAndBack` | src/boolean_bits.rs:60-68 | a list of bools survives the way through a bitmap and back |
| `Bitmaps.BitsThereAndBack` | src/boolean_bits.rs:189-191 | a bitmap survives the way through a list of bools and back, word for word |
| `Counting.RippleAddValue` | src/boolean_bits.rs:222-230 | one ripple-carry step adds the carry digit to every slot's binary column, counting the carry that leaves the top plane |
| `Counting.RippleAddCounts` | src/boolean_bits.rs:222-230 | no carry is lost while the count fits the planes |
| `Counting.BitLengthCovers` | src/boolean_bits.rs:219-219 | the number of planes is enough for every count up to the number of sets |
| `Counting.CountSets` | src/boolean_bits.rs:219-231 | after all sets every column of the planes is that slot's count in binary |
| `Counting.AdmitWord` | src/boolean_bits.rs:233-246 | gathering a slot's count from the planes admits exactly the columns at or above the minimum |
| `Counting.UnionOf` | src/boolean_bits.rs:203-209 | the OR shortcut holds exactly the slots at least one set holds |
| `Counting.IntersectionOf` | src/boolean_bits.rs:210-216 | the AND shortcut holds exactly the slots every set holds |
| `Counting.AtLeast` | src/boolean_bits.rs:196-250 | the shortcuts and the bit-sliced counter all hold exactly the slots below the length that at least the minimum number of sets hold |
| `Groups.Positive` | src/boolean_bits.rs:276-293 | the live seed without MUST and minimum, otherwise MUST intersection and SHOULD count |
| `Groups.GroupMembers` | src/boolean_bits.rs:262-298 | the word-level group equals the per-slot rule, and says whether it was seeded from the live set |
| `Groups.MembersWithin` | src/boolean_bits.rs:269-298 | clauses and live set inside a region keep the result inside it |
| `Groups.MinimumShrinks` | src/boolean_bits.rs:269-298 | a larger minimum only removes members |
| `Groups.SeedIsNotMonotone` | src/boolean_bits.rs:279-290 | a SHOULD outside the live set appears when the minimum rises from zero |
| `Groups.SeedShrinksExact` | src/boolean_bits.rs:279-290 | leaving the live seed only removes members if and only if the surviving SHOULD slots are live |
| `Groups.MustNotShrinks` | src/boolean_bits.rs:294-296 | one more MUST_NOT removes exactly its slots |
| `Groups.ClauseOrder` | src/boolean_bits.rs:269-298 | the rule reads its clause lists as bags |
| `Plans.GroupSlotwise` | examples/fleet_boolean.rs:67-77 | a nested tree folded bottom-up over sets equals its truth at every slot |
| `Plans.NodesSlotwise` | src/boolean_bits.rs:262-298 | the SHOULD count of a group is the number of children that match the slot |
| `Plans.GroupWindow` | docs/query-api.md:128-188 | evaluating the tree on any window of the slots gives that window of the whole answer |
| `Planner.BooleanMembership.MarkGroup` | src/node.rs:16165-16213 | the walk accepts exactly well-formed trees and marks exactly the leaves a MUST or SHOULD path reaches |
| `Planner.BooleanMembership.FilterLeafDomains` | src/node.rs:16246-16343 | every filter leaf is recorded with a domain that covers every position it is asked at |
| `Planner.BooleanMembership.ResolveFilter` | src/node.rs:16392-16461 | an unresolved filter leaf becomes its truth inside the recorded domain, marked for recheck exactly when the domain narrowed it; short-circuited it becomes empty and rechecked; a resolved one stays |
| `Planner.BooleanMembership.ResolveDense` | src/node.rs:16467-16506 | an unresolved dense leaf becomes its whole membership and a resolved one stays |
| `Planner.BooleanMembership.ResolveNode` | src/node.rs:16577-16606 | the bits agree with the node's truth on the slots its position decides, or the position admits nothing |
| `Planner.BooleanMembership.ResolveMust` | src/node.rs:16633-16678 | the cheapest-first fold either resolves every MUST child or stops where the group admits nothing |
| `Planner.BooleanMembership.ResolveGroup` | src/node.rs:16620-16707 | the group's bits agree with its truth under the bound of its position |
| `Planner.NarrowRegion` | src/node.rs:16261-16283 | narrowing by lexical siblings keeps exactly the slots those siblings hold |
| `Planner.GroupAgrees` | src/node.rs:16620-16707 | children that agree inside their narrowed regions give the same group inside the outer one |
| `Planner.EmptyMustAdmitsNothing` | src/node.rs:16666-16682 | an empty running intersection proves that the group admits no slot of its region |
| `Planner.CheapestFirst` | src/node.rs:16633-16652 | the evaluation order is a stable sort of the children by cost class and misses none |
| `Planner.Evaluate` | src/node.rs:16711-16908 | a tree is refused exactly when malformed; otherwise the members are the tree's truth with or without narrowing, the positive marks are exact and the matched lists are complete for every member |
| `Planner.ExactProvenance` | src/node.rs:17809-17822 | for every returned slot the resolved bits or the recheck say exactly which leaves match |
| `Allowlists.FillAllowlist` | src/node.rs:3405-3418 | the scan between pruned ranges allows exactly the passing rows, given that pruned rows cannot pass |
| `Allowlists.FillAllowlistDomain` | src/node.rs:3427-3444 | the same over a domain bitmap allows exactly the passing rows of the domain |
| `Ranking.SortOfBag` | src/merge.rs:21-26 | the hit order decides the sorted list from the bag alone |
| `Ranking.TopKOfPart` | src/merge.rs:35-52 | any part that holds the winners has the same top-k |
| `Ranking.TopKJoin` | src/merge.rs:35-52 | the top-k of two lists needs only the best of each |
| `ChunkScan.MergeChunkHits` | src/chunked.rs:147-207 | merging a chunk into the heap is the top-k of both, and with ties kept the top-k with its whole boundary tie group |
| `ChunkScan.TieTopShape` | src/chunked.rs:128-146 | the tie-complete best are exactly the rows at or above the k-th best score, sorted, with only ties past the k-th |
| `ChunkScan.LocalFloorIsFree` | src/chunked.rs:385-402 | seeding a chunk with the heap's own k-th best changes nothing |
| `ChunkScan.SharedCall` | src/chunked.rs:279-299 | a kernel call at a shared lower floor, filtered again, gives the query's own candidates |
| `ChunkScan.BatchIsSolo` | src/chunked.rs:279-299 | riding a shared kernel call at a lower floor and a larger cut gives one chunk's solo heap |
| `ChunkScan.QueryStep` | src/chunked.rs:380-477 | with or without kept ties, a query's heap after a shared call is the best of all its surviving rows so far, as if it scanned alone and had no floor of its own |
| `ChunkScan.PublishedBound` | src/chunked.rs:479-484 | no published floor is above the k-th best so far |
| `ChunkScan.PublishedRises` | src/merge.rs:53-59 | published floors never fall |
| `ChunkScan.FlooredScanExact` | src/chunked.rs:11-18 | with external floors the answer, ties kept or not, is that of the whole shard if and only if each of its rows meets its chunk's floor |
| `ChunkScan.OverhighFloor` | src/chunked.rs:1391-1408 | a floor above the best row empties the answer |
| `BatchScan.ChunksCover` | src/chunked.rs:377-379 | the chunks hold the allowed rows, each once and in order |
| `BatchScan.SkipIsEmpty` | src/chunked.rs:422-427 | a chunk is skipped exactly when it has no allowed row |
| `BatchScan.GroupByAllow` | src/chunked.rs:496-518 | one group per allowlist, in order of first use, each holding exactly its queries in order |
| `BatchScan.GroupCall` | src/chunked.rs:381-412 | the shared floor is at or below every member's own and the cut is enough for every member |
| `BatchScan.TakeShare` | src/chunked.rs:458-485 | a member's filtered share, merged, is its best so far, and its k-th best is published once it has k |
| `BatchScan.ScanGroup` | src/chunked.rs:380-486 | one kernel call moves exactly the queries of one allowlist on by one chunk |
| `BatchScan.BatchTopK` | src/chunked.rs:322-494 | refused exactly when there is something to scan and an allowlist does not cover it; otherwise every query has the hits and published floors of scanning its own allowed rows alone |
| `BatchScan.ChunkedTopK` | src/chunked.rs:251-276 | the best of the allowed rows that met their chunk's floor, and exactly the k-th best after each scanned chunk, in order |
| `BatchScan.ChunkingIsLossless` | src/chunked.rs:11-18 | without external floors the answer is the best of the allowed rows, whatever the chunk size |
| `CollapsedScan.Escalate` | src/chunked.rs:620-650 | doubling the cut until a call comes back short returns every row of the chunk at or above the floor |
| `CollapsedScan.KeepBest` | src/chunked.rs:656-663 | the map ends with every parent's best row |
| `CollapsedScan.CollapseStep` | src/chunked.rs:541-544 | rows dropped as followers or below the floor do not change the leaders at or above it |
| `CollapsedScan.CollapseChunk` | src/chunked.rs:587-681 | after every chunk the map holds exactly the leaders at or above the k-th best parent and the floor is the higher of that and the outside |
| `CollapsedScan.Collapsed` | src/chunked.rs:555-700 | refused exactly when parents or allowlist do not cover the slots; otherwise the answer is the top k of the parents' best rows and every published floor is the k-th best parent so far |
| `CollapsedScan.AnswerParents` | src/chunked.rs:532-534 | the answer names each parent once, by its best row |
| `CollapsedScan.ParentFloorSound` | src/chunked.rs:538-540 | the k-th best parent of a part never exceeds that of the whole |
| `CollapsedScan.ParentFloorBelow` | src/chunked.rs:540-541 | the parent floor never exceeds the plain floor and equals it if and only if k parents have a row there |
| `CollapsedScan.ParentFloorLower` | src/chunked.rs:540-541 | an input where the parent floor is strictly lower |
| `CollapsedScan.CollapsedExact` | src/chunked.rs:541-544 | with external floors the answer is that of the whole shard if and only if each winner's best row meets its chunk's floor |
| `FloorSharing.StepKeepsInv` | src/coordinator.rs:12148-12241 | every step of streams, tracker, relays and failures keeps the invariant: floors are sound and heaps hold every winner they have seen |
| `FloorSharing.RunInv` | src/coordinator.rs:7729-7887 | the invariant holds in every state of every run |
| `FloorSharing.PublishSound` | README.md:174-190 | a stream's k-th best never exceeds the fleet's k-th best |
| `FloorSharing.Lossless` | README.md:174-200 | in every interleaving, with late or lost floor updates, failed streams and hedged ones, merging the answers is the global top-k in order |
| `FloorSharing.Completes` | src/coordinator.rs:12243-12311 | a run in which no shard has used up its attempts extends, by finishing open streams and opening one only where none is alive, to one in which every shard has answered |
| `FloorSharing.NeverFinishes` | src/coordinator.rs:12243-12311 | a shard whose primary and replica both failed never answers, so that condition is exact |
| `FloorSharing.FloorTracker.ObserveFloor` | src/merge.rs:61-96 | the tracker keeps the maximum and reports exactly the raises |
| `HeapTopK.TopSlots.Offer` | src/node.rs:16949-16958 | the heap always holds the best of what was offered, and the cutoff is the depth-th score once full |
| `HeapTopK.TopSlots.IntoSorted` | src/node.rs:16960-16964 | draining gives the first entries of the full sort |
| `HeapTopK.HeapTopK` | examples/exact_rerank_scale.rs:473-487 | the bounded heap returns the first k entries of the full sort whatever the input order, and panics exactly on an entry for an empty heap |
| `Rerank.RankById` | examples/exact_rerank_scale.rs:553-556 | the inverted array gives every row its one-based rank |
| `Rerank.Needed` | examples/exact_rerank_scale.rs:528-532 | between one and all neighbours, all of them at full recall, never fewer than the target share |
| `Rerank.DepthIsLeast` | examples/exact_rerank_scale.rs:528-532 | a prefix reaches the required number of exact neighbours if and only if it is at least as deep as the computed rank |
| `Rerank.MeasureDepth` | examples/exact_rerank_scale.rs:553-575 | the measured depth is the smallest prefix that reaches the target |
| `Rerank.WinnersSuffice` | examples/exact_rerank_scale.rs:645-662 | reranking any candidates that contain the winners gives the global answer in order |
| `Rerank.RerankNeedsWinners` | examples/exact_rerank_scale.rs:757-784 | reranking a prefix equals the global answer if and only if the prefix contains it |
| `Rerank.FullRecallDepth` | examples/exact_rerank_scale.rs:757-784 | the rerank of a prefix is globally exact if and only if the prefix is at least as deep as the full-recall rank |
| `BooleanWalk.LexicalBits` | examples/boolean_walk.rs:182-193 | the bitmap holds exactly the rows some term posts |
| `BooleanWalk.FilterDomain` | examples/boolean_walk.rs:199-209 | the filter over the lexical members holds exactly those that pass |
| `BooleanWalk.FilterFull` | examples/boolean_walk.rs:210-216 | the filter over every row holds exactly those that pass |
| `BooleanWalk.GroupBits` | examples/boolean_walk.rs:182-228 | narrowed or full, the members are the same set |
| `BooleanWalk.Materialize` | examples/boolean_walk.rs:229-236 | the candidates are the whole member list |
| `BooleanWalk.Round` | examples/boolean_walk.rs:182-269 | members, candidates and ranked top-k are the same for both scans and equal the simple definition |
| `StreamingTopK.KeptScores` | examples/fp32_recall.rs:39-60 | at every threshold the kept rows are as many as the best k could have, so the kept scores are the best k |
| `StreamingTopK.PushRow` | examples/fp32_recall.rs:41-60 | a row at or below the floor may be skipped, and after every row the kept rows are a best choice |
| `StreamingTopK.Fp32TopK` | examples/fp32_recall.rs:31-69 | the streaming loop returns a best-k choice of all rows, sorted |
| `StreamingTopK.OfferKeeps` | examples/tei_rerank.rs:159-167 | offering a row to the heap keeps a best choice |
| `StreamingTopK.FoldKeeps` | examples/tei_rerank.rs:113-116 | the heap after any rows in file order is a best-k choice of them |
| `StreamingTopK.ExactPools` | examples/tei_rerank.rs:117-189 | however the rows are blocked and the queries split over threads, every query ends with the sorted heap of its own rows in file order; refused exactly when there is a row and no query or no room |
| `StreamingTopK.UntiedIsTopK` | examples/tei_rerank.rs:181-188 | where no two rows tie the kept rows are the canonical top-k |
| `Reshard.KeyRoundTrip` | examples/reshard_verify.rs:37-47 | the total-order key and the bit pattern are mutual inverses, in both directions |
| `Reshard.BitOrder` | examples/reshard_verify.rs:37-47 | bit order agrees with score order at or above zero and reverses below |
| `Reshard.LocalSearch` | examples/reshard_verify.rs:138-147 | searching local slots and mapping back through parent ids is the top-k by parent id exactly as the child keeps the parent's order |
| `Reshard.WinnersReachChildren` | examples/reshard_verify.rs:138-147 | every row of the parent's top-k is in its child's top-k |
| `Reshard.ReconstructionExact` | examples/reshard_verify.rs:138-151 | with children searched by local slot and mapped back, the check accepts a correct split if and only if no left-over child row has a negative score that matters |
| `Reshard.NonNegativeReconstructs` | examples/reshard_verify.rs:138-151 | with non-negative scores the children, searched by local slot, mapped back and merged, always equal the parent's top-k |
| `Reshard.NegativeScoreRejected` | examples/reshard_verify.rs:138-151 | a negative row in another child makes the check reject a correct split |
| `Reshard.BucketsNest` | src/reshard.rs:1658-1669 | whole ranges of finer buckets route as the coarser bucket count does |
| `Reshard.PartitionCheck` | examples/reshard_verify.rs:102-114 | the check with its own 64 buckets fails exactly when there are more than 64 children and one holds a row, and otherwise passes exactly when every id is in the child its top bits name |
| `Reshard.ChildrenDisjoint` | examples/reshard_verify.rs:102-114 | a passed check means no two children share an id |
| `ChunkPlans.SplitBlock` | src/demo/court.rs:675-701 | the pieces of an oversized block are non-empty, hold at most the cap's number of its tokens and fill the text up to the next block |
| `ChunkPlans.PlanChunks` | src/demo/court.rs:629-740 | fails exactly when text precedes a first block over the smaller limit; otherwise chunks are non-empty, span exactly their blocks, cut the whole text and keep to the token target |
| `ChunkPlans.LeadingTextFails` | src/demo/court.rs:663-674 | an input that fails |
| `ChunkPlans.BlockPlaces` | src/demo/court.rs:648-652 | block i is a kept sentence at a place no earlier than i, and at i if and only if no sentence up to it was dropped |
| `ChunkPlans.IndicesNameSentences` | src/demo/court.rs:627-628 | block indices are sentence positions if and only if no dropped sentence precedes a kept one |
| `ChunkPlans.ChunkNamesSentences` | examples/court_chunks.rs:85-95 | a packed chunk pools its own sentences' vectors if and only if no sentence up to its last index was dropped |
| `ChunkPlans.DroppedShifts` | src/demo/court.rs:627-628 | an input whose index names the wrong sentence |
| `ChunkPlans.ContiguousIsChain` | src/demo/court.rs:169-177 | the contiguity test passes exactly on plans that cover the text without gap or overlap |
| `ChunkPlans.Restores` | src/demo/court.rs:92-96 | contiguous spans give back the text character for character |
| `ChunkWriter.ChunksRestoreText` | src/demo/court.rs:194-220 | the chunk texts of an accepted opinion concatenate to its text |
| `ChunkWriter.Writer.WriteOpinionChunks` | src/demo/court.rs:194-220 | appends the opinion's records with sequential ids |
| `ChunkWriter.Writer.WriteOpinion` | examples/court_chunks.rs:348-373 | appends records, and the vectors whose key is not already on file |
| `ChunkWriter.Writer.Drain` | examples/court_chunks.rs:381-393 | writes held-back opinions up to the first line that failed or is missing, and stalls exactly on a failure |
| `ChunkWriter.Writer.Receive` | examples/court_chunks.rs:376-394 | after every message the files hold exactly lines [skip, watermark) in order |
| `ChunkWriter.Writer.CloseOut` | examples/court_chunks.rs:400-410 | the closing drain writes nothing |
| `ChunkWriter.Writer.Consume` | examples/court_chunks.rs:374-414 | for every arrival order the watermark ends at the first failed or missing line and the files hold exactly the lines before it |
| `ChunkWriter.StopUnique` | examples/court_chunks.rs:374-414 | that line does not depend on the order of arrival |
| `ChunkWriter.StopLine` | examples/court_chunks.rs:374-414 | with every fed line reported it is the smallest failed line or the end of the feed |
| `ChunkWriter.Feed` | examples/court_chunks.rs:416-439 | the feed is contiguous from the resume line and ends at the input's end, the limit or a seen failure |
| `ChunkWriter.Reconcile` | examples/court_chunks.rs:446-469 | the exit status counts results and failures |
| `ChunkWriter.CleanExit` | examples/court_chunks.rs:458-469 | whatever was lost or failed, the run reports success if and only if every fed line is written |
| `ChunkWriter.ChunksResumeState` | src/demo/court.rs:243-255 | the record count and the line after the last one with a record |
| `ChunkWriter.ResumeAfter` | src/demo/court.rs:241-255 | a rerun resumes at or before the watermark, loses nothing in between, and resumes exactly there if and only if the last written opinion has a chunk |
| `ChunkWriter.ResumeFallsBack` | src/demo/court.rs:241-255 | an opinion without text is gone over again |
| `ChunkWriter.CutResume` | src/demo/court.rs:241-255 | a file cut between any two records is completed by the rerun if and only if the cut kept all chunks of its last line |
| `ChunkWriter.CutLosesChunk` | src/demo/court.rs:241-255 | a cut inside an opinion loses its other chunks |
| `ChunkWriter.Session` | examples/court_chunks.rs:272-414 | a run over existing files leaves again exactly a line prefix of the corpus, writes a header exactly when no vector is on file, and fails at the start exactly when the vectors file has two |
| `ChunkWriter.Reruns` | examples/court_chunks.rs:272-414 | any number of reruns gives the chunks file of one uninterrupted run; the vectors file is one header and, for distinct ids, exactly those vectors if and only if there was no rerun or the first run wrote a vector; otherwise runs from the third on fail |
| `ChunkWriter.LayoutReads` | src/demo/court.rs:340-384 | reading back the vectors file gives its keys, and fails exactly on a second header |
| `ChunkWriter.RepeatedHeader` | examples/court_chunks.rs:330-339 | a failed first run and a rerun leave two headers before the records, and the next run fails |
| `ChunkWriter.InStep` | examples/court_chunks.rs:348-373 | chunk i and vector i carry the same key and ids count the records |
| `ChunkWriter.ResumeInStep` | examples/court_chunks.rs:363-371 | a resumed run keeps vectors in step with chunks if and only if no new key is already on file |
| `Ingest.BoundsPartition` | examples/court_ingest.rs:812-834 | equal or explicit bounds partition the corpus, and are refused exactly when the points do not cut it into one range per node |
| `Ingest.RowHome` | examples/court_ingest.rs:812-834 | every row belongs to exactly one shard |
| `Ingest.Feeder` | examples/court_ingest.rs:1009-1096 | what is fed is a run of joined rows in full blocks with at most a short last one, and the feed succeeds exactly when all rows join |
| `Ingest.Batched` | examples/court_ingest.rs:1114-1120 | cutting vectors into batches changes nothing |
| `Ingest.BatchSizes` | examples/court_ingest.rs:1114-1120 | every batch holds 512 rows except a short last one |
| `Ingest.LandBlock` | examples/court_ingest.rs:1101-1132 | one block lands documents, then vectors |
| `Ingest.LandBlocks` | examples/court_ingest.rs:1097-1137 | wherever the node gives out, landed documents and vectors are prefixes and documents lead by at most a block |
| `Ingest.CatchUp` | examples/court_ingest.rs:919-953 | the vectors a block still owes are sent first |
| `Ingest.ResumeShard` | examples/court_ingest.rs:906-1141 | from row prefixes a resumed run leaves longer row prefixes, and completes exactly when the files join and the node lasts |
| `Ingest.IngestShard` | examples/court_ingest.rs:900-1141 | health is refused exactly when counts are out of range; a fresh run appends the shard's rows in blocks and completes exactly when the files join and the node lasts; a resumed run keeps row prefixes |
| `Ingest.Node.Configure` | src/node.rs:8063-8089 | the backend is locked by the first vector and before that by the first configuration |
| `Ingest.Drive` | examples/court_ingest.rs:866-1141 | a run is refused by the backend step exactly when the node holds a vector and the run does not resume, or holds none and another backend; rows then stay as they were |
| `Ingest.Campaign` | examples/court_ingest.rs:734-739 | after any sequence of resumed runs cut off anywhere the node holds row prefixes with vectors at most a block behind, no run is refused, and a completing run leaves exactly the shard |
| `Ingest.FreshStart` | examples/court_ingest.rs:906-908 | appending the whole shard leaves exactly the shard if and only if the node held nothing, and otherwise more documents than a resume accepts |
| `Ingest.StartOver` | examples/court_ingest.rs:877-908 | starting over from any node is refused exactly when it holds a vector or another backend; else, completed, it leaves exactly the shard if and only if no document was held, and a later resume is accepted exactly then |
| `Ingest.DoubledDocuments` | examples/court_ingest.rs:877-908 | documents landed without vectors and a fresh second run: documents are held twice and no resume is accepted |
| `CivilDate.EraFloors` | examples/court_ingest.rs:212-214 | the branch on the sign turns division toward zero into floor division |
| `CivilDate.CountsDays` | examples/court_ingest.rs:203-220 | for every valid date of any year the count is the number of days since 1 January 1970 |
| `CivilDate.NextDayCounts` | examples/court_ingest.rs:203-220 | the epoch is day 0 and the next civil day is always one more |
| `CivilDate.EveryDay` | examples/court_ingest.rs:203-220 | every day number is reached by a valid date |
| `CivilDate.SecondsOrder` | examples/court_ingest.rs:203-220 | timestamps order dates exactly as the calendar does |
| `CivilDate.OverlongDay` | examples/court_ingest.rs:208-210 | a date that does not exist is accepted exactly up to day 31 and counted into the next month |
| `GlobalIds.ShardStarts` | examples/tei_rerank.rs:307-310 | each start is the number of rows before the shard |
| `GlobalIds.SearchFindsOwner` | examples/tei_rerank.rs:311-316 | without gaps every answer the binary search may give owns the row |
| `GlobalIds.SearchExact` | examples/tei_rerank.rs:311-316 | the search always names the owner if and only if no empty shard precedes a non-empty one |
| `GlobalIds.ShardRecovered` | examples/tei_rerank.rs:317-318 | the shard is recovered from every id if and only if no shard exceeds the stride |
| `GlobalIds.GidsAscend` | examples/tei_rerank.rs:311-317 | ids increase strictly with the file row |
| `GlobalIds.GidsOnto` | examples/tei_rerank.rs:311-317 | every occupied (shard, row) id is reached |
| `Canonical.LeUnique` | scripts/verify_capacity_tier_fixtures.py:43-50 | little-endian bytes determine the number |
| `Canonical.FieldUnique` | scripts/verify_capacity_tier_fixtures.py:39-55 | whatever follows, a field of known shape is read back in only one way |
| `Canonical.SortForgets` | scripts/verify_capacity_tier_fixtures.py:117-120 | sorting forgets the input order where keys tell records apart |
| `Canonical.DomainsSeparate` | scripts/verify_capacity_tier_fixtures.py:88-266 | documents of different kinds never encode to the same bytes |
| `CapacityDocuments.PolicyUnique` | scripts/verify_capacity_tier_fixtures.py:79-91 | policies encode alike if and only if they are the same tiers in the same precedence |
| `CapacityDocuments.NodesUnique` | scripts/verify_capacity_tier_fixtures.py:200-204 | registries encode alike if and only if they hold the same records in any order |
| `CapacityDocuments.ObsSetUnique` | scripts/verify_capacity_tier_fixtures.py:108-120 | observation sets with distinct keys encode alike if and only if they hold the same entries in any order |
| `CapacityDocuments.SharedKeyShows` | scripts/verify_capacity_tier_fixtures.py:117-120 | an observation set encodes alike in every input order if and only if no two different entries share a key |
| `CapacityDocuments.SortStable` | scripts/verify_capacity_tier_fixtures.py:117-120 | sorting keeps the rows of one key in their input order |
| `CapacityDocuments.SwapShows` | scripts/verify_capacity_tier_fixtures.py:117-120 | exchanging two entries of one key at the front of any list shows unless they are equal |
| `CapacityDocuments.FragmentsUnique` | scripts/verify_capacity_tier_fixtures.py:219-234 | fragment lists encode alike if and only if they agree position by position up to the order inside pools, owners and copies |
| `CapacityDocuments.PlanInputUnique` | scripts/verify_capacity_tier_fixtures.py:260-266 | the plan input binds every one of its inputs |
| `CapacityDocuments.RateFits` | scripts/verify_capacity_tier_fixtures.py:165-168 | within the stated bounds both sides of the rate stay below 2^124 |
| `CapacityDocuments.RateInTier` | scripts/verify_capacity_tier_fixtures.py:151-163 | the rounded rate falls in a tier exactly when the exact ratio does |
| `Facets.CountValues` | examples/facet_walk_probe.rs:85-99 | each count is the number of matched documents with that value, and counts plus valueless documents make up the matched total |
| `Facets.FacetWalk` | examples/facet_walk_probe.rs:74-99 | matched is the size of the union of the postings, each document counted once however many terms hit it |

## Left out

- Floating-point arithmetic of scores, recall averages, percentiles and vector pooling: only the order on scores is modelled.
- gRPC, tokio tasks, timing, printing, argument parsing, NDJSON and file access: peers and files are sequences, and concurrency is the order in which messages or steps arrive.
- Scoring kernels and analyzers (`search_unfiltered`, `score_candidates_plain_walk`, `analyze`): functions of a row or a line.
- SHA-256 and FNV-1a values: documents are modelled up to the bytes that are hashed, and a hash is any number.
- The block-max scorer, the write-ahead log, segments, the control plane and fusion: separate subsystems with their own invariants.
- `src/document_contract.rs` and the fixture literals of the capacity script: single branches and finite checks.
- Planner.BooleanMembership.ResolveFilter: the planner's bitmaps are sets of slots here; their word-level form is proved in `Bits.dfy` and `Groups.dfy`, and the depth and kind checks the walk repeats are done once.
- Bitmaps.Bits.Iter: the lazy iterators return their whole sequence, so what is not modelled is only that a caller may stop early.
- BatchScan.BatchTopK: the scan's counters and timings are not modelled; a kernel call is its best rows at or above the floor, up to its cut.
- Rerank.Needed: the target is a real number, so rounding of the product is not modelled.
- StreamingTopK.ExactPools: threads own disjoint queries and are run one after another, and the header and torn-record checks of the file are not modelled. Where rows tie at the boundary score the result is that of the heap fold, which need not be the lowest ids.
- FloorSharing.Completes: deadlines and the delay before a hedge are not modelled, so a replica may be tried at any time.
- CollapsedScan.Collapsed: the parent of a hit is read off its slot, and the map of parents is listed in any order before it is sorted.
- ChunkWriter.CutResume: a cut inside a JSON line, or before its line end, is not modelled; the tool stops on an unreadable line.
- Planner.BooleanMembership.ResolveGroup: the counts of evaluated, skipped and live-seeded groups the planner reports are not modelled.
- ChunkPlans.PlanChunks: contiguity is stated one way, for sentences and tokens in text order or when no block is over the cap; for other input the caller's own contiguity test decides, and `ContiguousIsChain` says what that test accepts.
- `assemble_chunks` of the demo corpus: the older planner with the same contiguity promise.
- Ingest.Drive: one node per driver; a broadcast to several nodes fails for all when one refuses. The vectors-only mode and invalid backend requests are not modelled.
- CivilDate.CountsDays: the text is already split into three numbers, and 64-bit overflow of far years is not modelled.
- GlobalIds.GidsAscend: ids are unbounded, so the 64-bit range of the product is not modelled.
- CapacityDocuments.PlanInputUnique: the inputs the script fixes as constants are fields here.
- Canonical.SortForgets: strings are compared by their UTF-8 bytes, which order as their code points do.
