# Sparse attention addressing and its companions, in Dafny

This project models the parts of the inference runtime in which index arithmetic, reused buffers and
running counters have to agree, and proves that they do. The arrays, rings, buffers, registers and
records the program updates in place are classes and arrays here; the address arithmetic is written as
functions.

**Sparse, paged attention.** `Ranking` and `Attention` give top-k over masked scores and attention as
an order-independent accumulation. `Selection`, `Dsa` and `IndexShare` cover the GLM-DSA backend:
chunked causal selection, the map from positions to physical rows, device-side counts, the batch-wide
switch between dense and sparse, and the layers that share one selection. `WindowRing`,
`CompressedRows`, `Snapshot`, `Segments` and `Dsv4` cover the DeepSeek-V4 backend: the window ring, the
compressed rows, the captured snapshot and the prefill segments. The composed results say that a
captured, paged, sparse decode attends what a prefill query at the same position would, which is the
dense reading of its history while that fits (`Dsv4.CapturedDecodeReadsAsPrefill`,
`Dsv4.CapturedDecodeReadsOwnHistory`, `Dsa.CapturedDecodeAttends`).

**The compressor.** `CarryRing` is the per-page state ring. `Compressor`, `CompressorPaths` and
`CompressorRuns` prove that the four code paths (from-scratch prefill, page-aligned extend, unaligned
extend, decode) pool the same input for the same block. The register may hold stale rows, a prompt may
be cut anywhere, a request may resume from any page boundary, and other requests may decode beside it:
the stored blocks are always those of the request's own tokens. `CompressorServing` joins this with
the pool, and `ServingRuns` is the state machine of a whole server: in every interleaving of arrivals,
prefill chunks, decode runs of padded batches, prefix hits, re-pointings to cached copies and departures,
from any initial ring and pool, every request can read back every block it has finished and be continued
(`ServingRuns.RunServes`). `ServedReads` closes the circle: the attention such a request reads off the
shared pools is a reference function of its own tokens, so it does not depend on locations, staging
widths or other requests (`ServedReads.ReadIsIsolated`).

**State machines across batches.** `Snapshot` (above), `FlashCapture` (captured page tables),
`TrackCheckpoints` (ping-pong snapshots of recurrent state) and `Core` (request counters and token
buffer).

**Independent algorithms.** `BankChecksum` (a chunking-independent sample hash with its 64-bit bound),
`Safetensors` (the range check as a tiling test, and the byte accounting) and `Sessions` (the session
runner against its plan).

`Sequences`, `Arithmetic`, `Paging`, `Matrices` and `Options` hold shared vocabulary: permutations,
scatters, prefix sums, division with remainder, and the page layout of a request's locations.

## Contracts taken from the code's own documentation

- Page layout: the positions of a page occupy one contiguous, page-aligned run of full locations
  (`Paging.Paged`), and a page is a whole number of compression blocks.
- Scoring kernels: finite scores before the live length, minus infinity from there on.
- `translate_full_to_window` is an arbitrary function, fixed within a step. In the carry ring a window
  slot is a live, non-negative one.
- `prepare_chunk_offsets`: prefix sums of `ceil(len / chunk)`.
- A captured batch is padded with rows at position 0, on a reserved window page that no request uses
  (`python/sparklab/runtime/engine/graph.py`, lines 217-224); compression ratios are above 1, so such a
  row never finishes a block.
- The from-scratch compressor path starts from a reset register
  (`python/sparklab/models/deepseek_v4/attention.py`, line 145).
- The attention kernel's output is a quotient of two running sums; both sums are modelled, so equal
  sums mean equal outputs. Scores, weights and values are reals, one value coordinate at a time.

## Where the code and its documentation differ

The model follows the code.

- The checksum is documented to sample about a million bytes. It samples every byte of a bank below
  two million bytes, and between one and two million positions of a larger one
  (`BankChecksum.SampleCountBounds`). Exchanging two bytes leaves the hash alone exactly when the bytes
  are equal, or neither is sampled, or both are and their offsets agree modulo 1,000,000,007
  (`BankChecksum.SwapVisibleIff`).
- `write_boundary_carries` says the first boundary written is one page after `lo`; the loop writes the
  first multiple of the page after `lo`, which is the same only for an aligned `lo`
  (`CarryRing.FirstBoundary`).

## Limits stated exactly

- The view handed to a captured decode is a window onto one buffer, staged immediately before its
  replay. A second staging in between keeps the first view exactly when the shared rows agree on the
  copied columns (`Snapshot.SecondStagingRedirects`).
- A recurrent-state snapshot sits on the chunk grid exactly when its forward started on it
  (`TrackCheckpoints.BoundaryAlignedIff`).
- The FlashAttention capture keeps only whole pages of the captured length, so a request that needs
  the last partial page does not fit (`FlashCapture.ReplayFitsIff`).
- Slots numbered by map size are dense only when no layer id is listed twice
  (`IndexShare.OwnSlotsDenseIff`).

## Model

| member | source | states |
|---|---|---|
| Ranking.LivePicksArePrefix | python/sparklab/attention/dsv4_indexer.py:85-93 | whichever way ties are broken, the picks below the live count are exactly the leading `live` columns of the selection, because masked columns score minus infinity |
| Ranking.TopKIgnoresPadding | python/sparklab/attention/dsa_indexer.py:10-15 | with a fixed tie order, masked padding changes neither the live picks nor their order |
| Attention.FoldPermutation | python/sparklab/kernels/triton/glm_dsa_sparse.py:76-98 | the accumulated numerator and denominator do not depend on the order in which rows are visited |
| Attention.CountIsExact | python/sparklab/kernels/triton/glm_dsa_sparse.py:71-93 | bounding the column loop by a count and masking the columns past it accumulate the same |
| Attention.AttendSteps | python/sparklab/kernels/triton/glm_dsa_sparse.py:76-98 | what the kernel accumulates, column by column: the weighted value in the numerator, the weight in the denominator, nothing for a masked column |
| Attention.FoldIsAttend | python/sparklab/kernels/triton/glm_dsa_sparse.py:76-98 | without a count the kernel visits every column |
| Selection.SelectionMeaning | python/sparklab/attention/dsv4_indexer.py:79-83 | for every top-k routine: the first `min(live, k)` entries of a mapped selection are the rows of that many different live positions, best first, no better one is left out, and every later entry is -1 |
| Selection.SparseIsDense | python/sparklab/attention/dsa.py:211-243 | while the live length fits the selection, the rows exposed by the count are a permutation of the live rows and attention equals dense attention, for all scores, ties and table widths |
| Selection.SelectionCountIsExact | python/sparklab/attention/dsa.py:231-236 | at every live length the device-side count cuts exactly the sentinels, so no selected row is lost |
| Selection.PrefillDecodeAgree | python/sparklab/attention/dsa.py:229-236 | decode at the last position, over a padded snapshot, exposes the same rows in the same order as ratio-1 prefill selection over exactly the live keys |
| Selection.LiveBlockIsPast | python/sparklab/attention/dsv4_indexer.py:71-79 | a block is live for a query exactly when its last position is at or before the query |
| Selection.PrefillSelectionIsCausal | python/sparklab/attention/dsv4_indexer.py:67-83 | at every ratio and offset: different, shifted blocks ending at or before the query first, as many as are live and fit, then sentinels only |
| Selection.BlockPicksAgree | python/sparklab/attention/dsv4_indexer.py:67-93 | at every ratio, prefill and decode pick the same live blocks in the same order however many more blocks either has staged |
| Selection.ListedBlocksAreSelection | python/sparklab/models/deepseek_v4/attention.py:360-364 | the block list of layers without an indexer is a top-k of equal scores, so everything proved of selections holds of it |
| Dsa.SelectPrefillRows | python/sparklab/attention/dsa.py:246-270 | the chunked loop, filling its output slice by slice, equals one unchunked selection call, with the clamped counts, for every chunk size it computes |
| Dsa.PrefillChunkMeaning | python/sparklab/attention/dsa.py:257-259 | a chunk is the largest of at most 512 queries whose 32-bit scores stay within 128 MiB, and at least 16 |
| Dsa.ChunkOfWhole | python/sparklab/attention/dsa.py:260-268 | a call on a slice of the queries with a shifted start is that slice of the whole call |
| Dsa.PrefillRowMeaning | python/sparklab/attention/dsa.py:246-270 | each row of the prefill selection is the causal top-k of its position, best first, and sentinels after it |
| Dsa.PrefillCountIsExact | python/sparklab/attention/dsa.py:269 | the clamped count of a prefill row cuts exactly its sentinels |
| Dsa.PrefillRowDistinct | python/sparklab/attention/dsa.py:246-270 | different live rows stay different in the exposed part of a selection |
| Dsa.Prefill | python/sparklab/attention/dsa.py:337-388 | the per-request loop over a batch yields, in batch order, each request's attention; the batch goes sparse as a whole exactly when some request is longer than `index_topk`; a request without new tokens is skipped on the dense path and fails the batch on the sparse one |
| Dsa.MaxKvLenMeaning | python/sparklab/attention/dsa.py:343 | the longest request decides: the maximum exceeds a bound exactly when some request does |
| Dsa.SparseQueryAttention | python/sparklab/attention/dsa.py:375-387 | on the sparse path a query attends all of the causal selection made with its own scorer |
| Dsa.DenseQueryAttention | python/sparklab/attention/dsa.py:375-387 | on the dense path it attends all rows up to its own position |
| Dsa.MaskedKeyScores | python/sparklab/attention/dsa.py:246-270 | a query ranks its own logits up to its position; later keys score minus infinity |
| Dsa.BatchAttentionAt | python/sparklab/attention/dsa.py:371-387 | query `s` of request `i` is found at its request's offset plus `s` of the flat output |
| Dsa.ShortQueryIsDense | python/sparklab/attention/dsa.py:375-387 | a query within `index_topk` gets dense causal attention whichever path its batch took |
| Dsa.DecodeStaging.StageDecode | python/sparklab/attention/dsa.py:405-412 | staging overwrites the leading rows and lengths of the static buffers with the live table's rows and leaves the rest |
| Dsa.StepLengths | python/sparklab/attention/dsa.py:396-412 | staging overwrites the leading lengths, re-arming gives zeros, an allocation changes none |
| Dsa.ReplayReads | python/sparklab/attention/dsa.py:405-412 | in every interleaving, row `r` of a replay reads its own rows and its own length as staged: no stale length of an earlier batch |
| Dsa.CapturedDecodeAttends | python/sparklab/attention/dsa.py:211-243 | for every history of stagings, allocations and re-captures, a replayed decode, scored and counted with the length it reads, accumulates at every length what the last prefill query over its request's rows would, rows and length as they stood at staging; within `index_topk` that is dense attention |
| Dsa.PrefillAndDecodeAttendAlike | python/sparklab/attention/dsa.py:211-270 | the last prefill query and the first decode over the same history accumulate the same attention at every length |
| Snapshot.CaptureBackend.PointToCapture | python/sparklab/attention/dsv4_sparse.py:274-288 | in-place staging of a batch into the captured buffer: copied columns of the batch's rows, nothing else |
| Snapshot.CaptureBackend.constructor | python/sparklab/attention/dsv4_sparse.py:136-143 | a fresh capture buffer holds the -1 sentinel everywhere |
| Snapshot.CaptureBackend.Recapture | python/sparklab/attention/base.py:80-90 | dropping and re-arming the capture yields a blank buffer of the new size and leaves the live table alone |
| Snapshot.CaptureBackend.Allocate | python/sparklab/runtime/scheduler/cache.py:301 | an allocation re-points one stretch of one request's row, cell by cell, and leaves the captured buffer alone |
| Snapshot.EagerMetadata.FullSnapshot | python/sparklab/attention/dsv4_sparse.py:80-91 | the eager snapshot is the table's rows for the batch, copied at the first read and returned unchanged from then on |
| Snapshot.RunKeepsInv | python/sparklab/attention/dsv4_sparse.py:136-143 | over every run, captured columns the live table does not have stay -1 |
| Snapshot.ReplayReadsStagedRows | python/sparklab/attention/dsv4_sparse.py:80-91 | in every interleaving, a replay reads the locations as they were when its batch was staged: no later allocation, no row of a larger earlier batch |
| Snapshot.SecondStagingRedirects | python/sparklab/attention/dsv4_sparse.py:274-288 | the exact limit of one shared buffer: a second staging before the replay leaves the first batch its own locations if and only if the shared rows agree on the copied columns |
| Dsv4.CompressedHalf | python/sparklab/models/deepseek_v4/attention.py:352-372 | any top-k over the staged scores selects causally, its device-side count cuts exactly the sentinels, and it is every live block while they fit |
| Dsv4.LookupIsMapRows | python/sparklab/attention/dsv4_sparse.py:229-243 | the block lookup through the snapshot is the shared position-to-row map over the staged blocks' rows |
| Dsv4.ListedDecodeIsDense | python/sparklab/models/deepseek_v4/attention.py:360-372 | a layer without an indexer reads exactly the sliding window and every finished block |
| Dsv4.CapturedDecodeReadsOwnHistory | python/sparklab/models/deepseek_v4/attention.py:307-382 | after any history, a replayed decode whose live blocks fit the selection reads, for any ties, the sliding window and the finished blocks of its request as the table stood at staging; longer histories are `CapturedDecodeReadsAsPrefill` |
| Dsv4.CapturedDecodeReadsAsPrefill | python/sparklab/models/deepseek_v4/attention.py:117-150 | after any history and at every length, a replayed decode accumulates, window and compressed half, what a prefill query at its position would off the table as it stood at staging, whichever segment the position is prefilled in and however either batch is padded |
| Dsv4.ListedPrefillIsDense | python/sparklab/models/deepseek_v4/attention.py:296-305 | a prefill query of a layer without an indexer reads exactly the sliding window and every finished block |
| IndexShare.BuildSharedMaps | python/sparklab/attention/dsa.py:122-134 | every served layer is led by the nearest full layer at or before it, full layers are numbered in order, and a list that starts with a shared layer is rejected (and no other) |
| IndexShare.SharedSlotsDense | python/sparklab/attention/dsa.py:129-134 | the slots are a dense bijection over the leaders, in layer order |
| IndexShare.BuildOwnMaps | python/sparklab/attention/dsa.py:115-120 | each listed layer leads itself |
| IndexShare.OwnSlotsDenseIff | python/sparklab/attention/dsa.py:115-120 | numbering by map size is dense if and only if no layer id is listed twice |
| IndexShare.OwnSlotsInOrder | python/sparklab/attention/dsa.py:115-120 | for distinct ids the i-th listed layer gets number i |
| IndexShare.SelectionStore.RunLayer | python/sparklab/attention/dsa.py:221-240 | a full layer replaces the only stored selection; every layer then reads its leader's entry |
| IndexShare.Forward | python/sparklab/attention/dsa.py:221-240 | running the layers in order, every lookup succeeds if and only if the first layer run is full, and each layer then uses the selection its own leader made in this forward |
| WindowRing.RingPositionProperties | python/sparklab/attention/dsv4_sparse.py:117-124 | ring column `j` stands for a position congruent to `j` among the last `win`, and the two masks are one |
| WindowRing.RingCoversWindow | python/sparklab/attention/dsv4_sparse.py:117-119 | every position of the window is held by the column it is congruent to and no other |
| WindowRing.EarlyRing | python/sparklab/attention/dsv4_sparse.py:119-124 | before the window is full the ring is the history so far, then masked columns |
| WindowRing.FullRing | python/sparklab/attention/dsv4_sparse.py:119-124 | from then on the ring is the sliding window, rotated |
| WindowRing.RingAttendsWindow | python/sparklab/attention/dsv4_sparse.py:111-124 | attention over the ring equals attention over the sliding window, for every position and window size |
| WindowRing.PrefillShowsWindow | python/sparklab/models/deepseek_v4/attention.py:122-137 | cold or extended, in every segment, a prefill query is shown its sliding window in order and then sentinels only |
| WindowRing.PrefillAttendsRing | python/sparklab/models/deepseek_v4/attention.py:122-137 | a prefill query and the decode ring at the same position attend the same window |
| CompressedRows.BlockContiguous | python/sparklab/attention/dsv4_compress.py:47-51 | a block occupies consecutive full locations when pages are whole numbers of blocks |
| CompressedRows.BlockSharesRow | python/sparklab/attention/dsv4_compress.py:47-51 | every position of a block is addressed to one and the same compressed row |
| CompressedRows.RowSpans | python/sparklab/attention/dsv4_compress.py:47-51 | compressed row r stands for exactly the full locations from r * ratio up to the next multiple |
| CompressedRows.DestMeaning | python/sparklab/attention/dsv4_compress.py:53-66 | a finished block goes to exactly the row the block lookup reads, an unfinished one to the row's own scratch row |
| CompressedRows.DestsDistinctIff | python/sparklab/attention/dsv4_compress.py:53-66 | destinations are never negative, and collide if and only if two rows finish a block at the same full location |
| CompressedRows.ScatterCompressed | python/sparklab/attention/dsv4_compress.py:68-79 | the in-place store equals storing each value at its destination in order |
| Sequences.ScatterMeaning | python/sparklab/attention/dsv4_compress.py:68-79 | with distinct destinations each value lands and every other row is untouched |
| CompressedRows.OwnRowOnly | python/sparklab/attention/dsv4_compress.py:60-63 | no decode row stores over an earlier block of any row of the batch |
| CompressedRows.DecodeStepKeepsBlocks | python/sparklab/attention/dsv4_compress.py:53-79 | a decode step of a batch, padded or not, keeps every request's finished blocks and adds the ones it finishes |
| CompressedRows.DecodeRunKeepsBlocks | python/sparklab/attention/dsv4_compress.py:53-79 | over a decode run of any length, requests advancing and padding rows staying, every finished block of every request can be read back |
| CompressedRows.PaddedBatchRuns | python/sparklab/runtime/engine/graph.py:217-224 | any batch that can run can run padded with rows at position 0 to any size |
| CompressedRows.RunKeepsOtherRows | python/sparklab/attention/dsv4_compress.py:53-66 | a pool row at which no request of the run finishes a block keeps its value |
| CompressedRows.LookupReadsStored | python/sparklab/attention/dsv4_sparse.py:229-243 | a block lookup through the snapshot reads the values that prefill and decode stored |
| CompressedRows.PrefillStoresBlocks | python/sparklab/models/deepseek_v4/compress.py:182-188 | prefilling whole blocks stores all of them and keeps the earlier ones |
| CarryRing.PagesDisjoint | python/sparklab/attention/dsv4_compress.py:87-90 | distinct window pages own disjoint ring blocks |
| CarryRing.PageBaseMeaning | python/sparklab/attention/dsv4_compress.py:87-90 | page 0 starts the ring, each page lies one block after the one before, and the slots of a page share its block |
| CarryRing.EmptyRowMeaning | python/sparklab/models/deepseek_v4/compress.py:84-87 | the reset state: zero values, scores of minus infinity |
| CarryRing.ZeroRowMeaning | python/sparklab/runtime/kvcache/dsv4_paged_pool.py:118 | a new ring row is zeros, scores included |
| CarryRing.CarryBlockMeaning | python/sparklab/attention/dsv4_compress.py:145-160 | a boundary carry row by row: with overlap the tokens right before the boundary, each score raised by its position embedding; reset rows otherwise |
| CarryRing.CompressStateRing.constructor | python/sparklab/runtime/kvcache/dsv4_paged_pool.py:104-124 | a new ring is zeros except for the scratch row, which holds the reset state |
| CarryRing.CompressStateRing.Set | python/sparklab/runtime/kvcache/dsv4_paged_pool.py:134-137 | a block is scattered in place and the scratch row re-cleared; nothing else changes |
| CarryRing.CompressStateRing.WriteCarry | python/sparklab/attention/dsv4_compress.py:101-113 | the carry lands at the block of the slot's window page |
| CarryRing.SetGet | python/sparklab/attention/dsv4_compress.py:107-113 | a written block reads back, and a disjoint block is untouched |
| CarryRing.SetBlockMeaning | python/sparklab/runtime/kvcache/dsv4_paged_pool.py:134-137 | a written block row by row, the scratch row cleared, every other row as it was |
| CarryRing.CompressStateRing.WriteBoundaryCarries | python/sparklab/attention/dsv4_compress.py:130-160 | the boundary loop equals writing the carry of each window-page boundary of the range in turn |
| CarryRing.BoundaryCarriesComplete | python/sparklab/attention/dsv4_compress.py:130-160 | exactly the boundaries in `(lo, hi]` are written, each reads back as its position-local carry, and every other page is unchanged |
| CarryRing.CarryIsLocal | python/sparklab/attention/dsv4_compress.py:138-141 | the carry at a boundary does not depend on where the range starts |
| CarryRing.SplitPrefillSameRing | python/sparklab/attention/dsv4_compress.py:130-160 | writing `[lo, mid)` and then `[mid, hi)` leaves the same ring as `[lo, hi)` at every page-aligned `mid` (and wherever a whole seed follows) |
| CarryRing.SetBlocksMeaning | python/sparklab/attention/dsv4_compress.py:122-128 | a batched carry write gives every row that shares its page with no other its own block, and leaves pages without rows alone |
| CarryRing.CarryFollowsRequest | python/sparklab/models/deepseek_v4/compress.py:387-428 | over any decode run, across pages, next to co-tenants and padding, the page of a row that shares it with no other holds its own carry advanced once per step |
| CarryRing.RunKeepsOtherPages | python/sparklab/attention/dsv4_compress.py:87-90 | a run leaves the carry of every page alone that none of its tokens sits on |
| Compressor.DecodeStepOk | python/sparklab/models/deepseek_v4/compress.py:400-423 | a decode step keeps the rolling carry right and, when it finishes a block, pools exactly that block's reference input, whatever stale rows the register held |
| Compressor.ForwardIsReference | python/sparklab/models/deepseek_v4/compress.py:158-163 | the from-scratch blocks, with the overlap transform, pool the reference inputs |
| Compressor.ExtendIsReference | python/sparklab/models/deepseek_v4/compress.py:231-250 | the aligned extend, with the carried block put in front and dropped again, pools the reference inputs |
| Compressor.OverlapBlockPools | python/sparklab/models/deepseek_v4/compress.py:120-126 | with overlap a block pools the second half of the columns of its own tokens, scores raised by the embedding of the offset in the block |
| Compressor.OverlapSeedPools | python/sparklab/models/deepseek_v4/compress.py:120-126 | in front of them the first half of the columns of the tokens of the block before |
| Compressor.FirstBlockPools | python/sparklab/models/deepseek_v4/compress.py:120-126 | the first block has only reset rows in front |
| Compressor.PlainBlockPools | python/sparklab/models/deepseek_v4/compress.py:158-163 | without overlap a block pools its own tokens whole, in order |
| Compressor.FinishedSplit | python/sparklab/models/deepseek_v4/compress.py:191-203 | the blocks finished by a range do not depend on how the range is cut |
| Compressor.FinishedMeaning | python/sparklab/models/deepseek_v4/compress.py:182-188 | a history has finished each of its whole blocks once, in order, with its reference input |
| CompressorPaths.Register.Forward | python/sparklab/models/deepseek_v4/compress.py:141-188 | from a reset register, the from-scratch path finishes the reference blocks and leaves the carry of the whole prompt |
| CompressorPaths.Register.ExtendAligned | python/sparklab/models/deepseek_v4/compress.py:216-296 | so does the page-aligned extend, also when it completes no block |
| CompressorPaths.Register.Feed | python/sparklab/models/deepseek_v4/compress.py:324-346 | one token of the unaligned path finishes exactly the block it completes and advances the carry |
| CompressorPaths.BoundaryCarryOk | python/sparklab/attention/dsv4_compress.py:138-141 | the position-local carry at a page boundary is the carry a request would have rolled up to there |
| CompressorPaths.BoundariesResumable | python/sparklab/attention/dsv4_compress.py:135-141 | after a parallel path every window page it closed can be resumed from by value |
| CompressorPaths.ExtendUnaligned | python/sparklab/models/deepseek_v4/compress.py:298-366 | the token-by-token path finishes the reference blocks and leaves resumable pages |
| CompressorPaths.Prefill | python/sparklab/models/deepseek_v4/compress.py:129-296 | whichever path a prefill call takes, it finishes the reference blocks of its range, leaves a resumable carry at every page it closed and at its last token's page, and touches no other page |
| CompressorRuns.PrefillPrompt | python/sparklab/models/deepseek_v4/compress.py:191-203 | for every way of cutting a prompt into chunks, aligned or not, later chunks free to reuse the window pages of earlier ones: the stored blocks are those of the whole prompt, its last page holds its carry, and pages it never sat in are untouched |
| CompressorRuns.DecodeStoresOwnBlocks | python/sparklab/models/deepseek_v4/compress.py:379-448 | over any decode run, next to any co-tenants and in a batch padded to any size, the blocks a request stores off the registers it reads are those a prefill of the same tokens would have stored |
| CompressorRuns.WholeRequest | python/sparklab/models/deepseek_v4/compress.py:129-448 | what the chunks of a prompt have stored followed by what its decode steps store, in any padded batch, is the blocks of all the request's tokens |
| CompressorPaths.Register.Reset | python/sparklab/models/deepseek_v4/compress.py:84-87 | a reset clears the register: zero values, scores of minus infinity |
| CompressorPaths.ResetIsCarry | python/sparklab/models/deepseek_v4/compress.py:84-87 | a reset register is the carry of an empty history, whatever tokens follow |
| CompressorServing.PoolHoldsMeaning | python/sparklab/attention/dsv4_compress.py:47-79 | a request is held by the pool exactly in the sense of the block lookup: each finished block at its row, with the value of the request's own tokens |
| CompressorServing.CompressChunk | python/sparklab/models/deepseek_v4/attention.py:117-150 | one chunk of one request, reset or resumed from the page of its last token: its blocks are finished, its carry left at its last page, pages it does not sit in untouched |
| CompressorServing.ServeChunk | python/sparklab/models/deepseek_v4/attention.py:141-150 | compressing a chunk and scattering its blocks into the pool keeps every request readable and resumable, the chunk's own one with its new tokens, and every window page the chunk closed can be hit |
| CompressorServing.ServeSchedule | python/sparklab/runtime/scheduler/cache.py:222-243 | over any interleaving of the prefill chunks of any requests, through one register, one ring and one pool, every finished block of every request stays readable and every request stays resumable |
| CompressorServing.ClosedPageServed | python/sparklab/attention/dsv4_compress.py:135-141 | the prefix up to any window page a chunk has closed is itself a served request |
| CompressorServing.PrefixHitServed | python/sparklab/runtime/scheduler/cache.py:92-112 | a request that continues a cached prefix cut at a closed page is served by value: it reads the finished blocks of the shared locations as its own and resumes from that page |
| CompressorServing.RepointedServed | python/sparklab/runtime/scheduler/cache.py:560-568 | a request whose first pages are re-pointed to a cached copy of the same tokens stays served, its own tail kept |
| CompressorServing.RepointedMeaning | python/sparklab/runtime/scheduler/cache.py:560-568 | the locations and slots before the cut are those of the copy, the others the request has kept |
| Compressor.SameInput | python/sparklab/models/deepseek_v4/compress.py:158-163 | what a block pools does not depend on the slots its tokens sit in |
| CompressorServing.DecodePool | python/sparklab/models/deepseek_v4/compress.py:379-448 | over any decode run of any padded batch, what the steps store off the carries they read makes every finished block of every request of it readable, by prefill or decode |
| CompressorServing.DecodeServesBatch | python/sparklab/models/deepseek_v4/compress.py:379-448 | a served batch, eager or padded, is served after any number of decode steps, with all the tokens decoded |
| CompressorServing.DecodeServes | python/sparklab/models/deepseek_v4/compress.py:387-448 | a decode run of any padded batch keeps every request served, those of the batch with their new tokens and those outside as they were |
| ServingRuns.NextKeeps | python/sparklab/runtime/scheduler/cache.py:490-569 | arrival, prefill chunk, decode run, prefix hit, re-pointing and departure each keep every request served |
| ServingRuns.RunServes | python/sparklab/runtime/scheduler/cache.py:490-569 | from an idle server with any ring and pool, at every moment of every run, every request can read back every block it has finished, with the value of its own tokens, and can be continued |
| ServingRuns.PerformChunk | python/sparklab/models/deepseek_v4/attention.py:141-150 | the prefill code, on the ring and the pool in place, performs exactly the chunk step of the state machine |
| ServedReads.ReadIsOwn | python/sparklab/models/deepseek_v4/attention.py:352-372 | the compressed attention a served request reads off the key pool and the block pool is the reference reading of its own tokens, at every length and staging width |
| ServedReads.ReadIsIsolated | python/sparklab/models/deepseek_v4/attention.py:352-372 | two servers that hold the same tokens, at other locations and next to other requests, give the same attention |
| ServedReads.RunReadsOwn | python/sparklab/models/deepseek_v4/attention.py:352-372 | so at any moment of any run every served request reads the reference of its own tokens |
| FlashCapture.QueryOffsetsAgree | python/sparklab/attention/fa.py:100-106 | both query-offset shortcuts equal the general prefix sums |
| FlashCapture.MetadataOffsets | python/sparklab/attention/fa.py:95-106 | the key and query offsets of a forward start at zero and grow by each request in batch order: by its length and by its new tokens |
| FlashCapture.PageColumnsResolve | python/sparklab/attention/fa.py:108-113 | the sliced, divided page column of every live position resolves to its live table entry |
| FlashCapture.Capture.constructor | python/sparklab/attention/fa.py:123-129 | the initial capture buffers: lengths one, offsets counting up, and as many page columns as whole pages fit the captured length |
| FlashCapture.Capture.PrepareForReplay | python/sparklab/attention/fa.py:144-152 | the in-place refresh of all three buffers, what stays, and exactly when the page-table copy fails |
| FlashCapture.StaleColumnsUnobserved | python/sparklab/attention/fa.py:144-152 | after any history, every position below a row's length resolves through the captured table to the live entry, although later columns hold old data |
| FlashCapture.ReplayFitsIff | python/sparklab/attention/fa.py:123-129 | a batch fits the capture if and only if its longest request fits the whole pages of the captured length; a last partial page is lost |
| FlashCapture.PagesInMeaning | python/sparklab/attention/fa.py:126 | the captured table has as many columns as whole pages fit the captured length |
| Core.MakeReq | python/sparklab/core.py:93-108 | construction succeeds exactly when the asserted counter order holds, and starts the counters and the buffer from the prompt |
| Core.Req.CompleteOne | python/sparklab/core.py:118-120 | one step moves both counters, and the invariant survives if and only if the request could still decode |
| Core.Req.AppendHost | python/sparklab/core.py:122-127 | tokens are appended in place behind everything before them, or refused when they would overrun the buffer |
| Core.Generate | python/sparklab/core.py:110-131 | a run that steps while it can decode appends exactly the output budget, with the prompt and all earlier tokens a prefix |
| Core.RunKeepsCounters | python/sparklab/core.py:110-131 | over every interleaving of guarded steps and late drains the counters stay ordered, tokens are only appended, and no run takes more steps than the budget |
| Core.GuardsAreExact | python/sparklab/core.py:118-127 | a step or a drain keeps the counters in order exactly when it is allowed |
| Segments.PrepareSegments | python/sparklab/attention/dsv4_sparse.py:169-184 | each request's segment starts at the running total and its last row is the last of the segment, also when dummies pad the batch |
| Segments.SegmentsTile | python/sparklab/attention/dsv4_sparse.py:174-177 | every flat token belongs to exactly one segment |
| TrackCheckpoints.Track | python/sparklab/attention/linear.py:112-125 | one request either is left alone, or, when its chunk is longer than 64 tokens, records the deepest 64-token boundary strictly inside the chunk and flips its pair |
| TrackCheckpoints.BoundaryIsDeepest | python/sparklab/attention/linear.py:112-125 | a request tracks exactly when its chunk is longer than 64 tokens, and records the last whole 64 tokens that leave at least one behind |
| TrackCheckpoints.EntryMeaning | python/sparklab/attention/linear.py:116-125 | an entry names the slot whose turn it is, the state row as many chunks in as the boundary, and the tokens right before it |
| TrackCheckpoints.BuildTrackMetadata | python/sparklab/attention/linear.py:97-130 | one entry per tracking request, in batch order, every request's bookkeeping advanced, and nothing at all when none tracks |
| TrackCheckpoints.EntriesMeaning | python/sparklab/attention/linear.py:111-125 | the entries are exactly those of the tracking requests, each once |
| TrackCheckpoints.StateRowIsOwn | python/sparklab/attention/linear.py:109-122 | the state row lies inside its own request's chunk-row interval for any batch of lengths |
| Arithmetic.DivCeilMeaning | python/sparklab/attention/linear.py:109 | a request has as many chunk rows as chunks are needed to hold its tokens |
| TrackCheckpoints.ConvWindowIsOwn | python/sparklab/attention/linear.py:119-123 | the convolution sources are exactly the tokens before the boundary, inside the request's segment if and only if the kernel reaches back no further than the boundary |
| TrackCheckpoints.DestinationsDistinct | python/sparklab/attention/linear.py:121 | the snapshots of one forward never share a slot when the pairs are disjoint |
| TrackCheckpoints.PendingSlotUntouched | python/sparklab/attention/linear.py:121-125 | the slot opposite a request's next destination is nobody's destination |
| TrackCheckpoints.ForwardKeepsHeld | python/sparklab/attention/linear.py:121-125 | after a forward each request's held slot is its state at its recorded boundary, newly taken or kept |
| TrackCheckpoints.CommitDonatesState | python/sparklab/runtime/scheduler/cache.py:466-488 | the slot a commit hands to the prefix tree holds the request's state at its recorded boundary |
| TrackCheckpoints.RunSparesTree | python/sparklab/attention/linear.py:109-127 | no forward writes into a slot the tree owns |
| TrackCheckpoints.EventKeepsPool | python/sparklab/runtime/scheduler/cache.py:456-488 | each forward, commit or eviction keeps slots disjoint, pending snapshots right and donated ones untouched |
| TrackCheckpoints.PoolRunKeepsHeld | python/sparklab/runtime/scheduler/cache.py:456-488 | over any sequence of forwards, commits and evictions sharing one slot pool, started in a good state and each step allowed where it comes, every pending snapshot stays the state at its recorded boundary, all slots stay apart, and what the prefix tree owns stays as it was donated |
| TrackCheckpoints.BoundaryAlignedIff | python/sparklab/attention/linear.py:116-120 | a boundary is chunk-aligned if and only if its forward started aligned, and lies inside the forward |
| TrackCheckpoints.RunKeepsProgress | python/sparklab/runtime/scheduler/cache.py:456-481 | over any chunks and commits the recorded boundaries strictly increase, the pending one is the newest, and all are aligned if and only if every recording chunk starts aligned |
| BankChecksum.SampleCountBounds | benchmarks/bench_load_weight_generic.py:121 | at most two million samples at every size, at least a million from a million bytes on, and every byte of a bank below two million |
| BankChecksum.StepIsLargest | benchmarks/bench_load_weight_generic.py:121 | the stride is the largest that leaves a million steps, and at least one |
| BankChecksum.RaisingAByte | benchmarks/bench_load_weight_generic.py:124-130 | raising a sampled byte by one raises the hash by one more than its offset modulo 1,000,000,007 |
| BankChecksum.ZeroBank | benchmarks/bench_load_weight_generic.py:119-132 | an all-zero bank hashes to zero |
| BankChecksum.PartSumFitsInt64 | benchmarks/bench_load_weight_generic.py:124-130 | no part sum leaves int64, whatever the bank and wherever it is cut |
| BankChecksum.PartSum | benchmarks/bench_load_weight_generic.py:124-130 | the strided loop over one part, in wrapping 64-bit arithmetic, adds exactly that part's stretch of the flat sum |
| BankChecksum.BankSum | benchmarks/bench_load_weight_generic.py:119-132 | the hash is the strided position-weighted sum over the flat bytes, for every way of cutting them, empty parts included |
| BankChecksum.Checksum | benchmarks/bench_load_weight_generic.py:103-133 | every bank, flat or per layer, gets its own hash |
| BankChecksum.ChangeVisibleIff | benchmarks/bench_load_weight_generic.py:106-115 | changing a byte changes the hash if and only if the byte is sampled |
| BankChecksum.SwapVisibleIff | benchmarks/bench_load_weight_generic.py:106-110 | exchanging any two bytes leaves the hash alone if and only if they are equal, or neither is sampled, or both are and their offsets agree modulo the weight period |
| BankChecksum.ShortBankWeightsDiffer | benchmarks/bench_load_weight_generic.py:100 | in a bank no longer than the period all offsets have different weights |
| Safetensors.TilesIffSortedChain | python/sparklab/acquire.py:133-141 | some ordering of the ranges tiles from zero if and only if the sorted one does |
| Safetensors.TilesEnd | python/sparklab/acquire.py:141-149 | tiled ranges end at the sum of their lengths |
| Safetensors.ChainMeaning | python/sparklab/acquire.py:133-141 | tiling range by range: each begins where the one before ends, the first and the last at the ends of the stretch, none reversed |
| Safetensors.CheckContiguous | python/sparklab/acquire.py:44-50 | the cursor walk accepts exactly the ranges some ordering of which tiles, zero lengths included, and returns the end |
| Safetensors.ValidateDraft | python/sparklab/acquire.py:24-55 | a draft is accepted if and only if its header length is in range, it has tensors, and they tile the rest of the file |
| Safetensors.TensorsTileIff | python/sparklab/acquire.py:121-140 | the check over one enumeration of the tensors decides whether any ordering of them tiles |
| Safetensors.ReadRanges | python/sparklab/acquire.py:120-132 | reading the ranges fails exactly when some tensor's metadata is invalid |
| Safetensors.ReadableMeaning | python/sparklab/acquire.py:120-132 | metadata is valid when the range starts at or above zero and does not end before it starts, no dimension is negative and a type is named |
| Safetensors.RangesMeaning | python/sparklab/acquire.py:120-132 | the ranges checked are those of the headers, tensor by tensor |
| Safetensors.ValidateShard | python/sparklab/acquire.py:91-149 | a shard is accepted if and only if it is complete for the names mapped to it |
| Safetensors.GroupByFile | python/sparklab/acquire.py:82-88 | the index is grouped by file, no name lost, or refused exactly when some file path is absolute or climbs through `..` |
| Safetensors.ComponentsMeaning | python/sparklab/acquire.py:86 | the components of a path are its slash-free pieces, and joining them gives the path back |
| Safetensors.SafePathMeaning | python/sparklab/acquire.py:86 | a path is refused exactly when it starts at the root or has a `..` component |
| Safetensors.CheckFiles | python/sparklab/acquire.py:90-149 | the loop accepts if and only if every file is complete, and then physical bytes are logical bytes plus prefixes and headers |
| Safetensors.ValidateSnapshot | python/sparklab/acquire.py:58-169 | an indexed snapshot is accepted if and only if its map is not empty, every path in it is safe and every file is complete; a stale published total is reported, not rejected |
| Sessions.PlannedDistinct | benchmarks/validate_runtime_sessions.py:312-325 | planned case names are all different |
| Sessions.PlanMeaning | benchmarks/validate_runtime_sessions.py:312-325 | the plan case by case, and its length: an answer per turn, a tool step on every fourth, three fixed cases, two legal ones when asked for, three per recall length |
| Sessions.ToolTurnsEveryFourth | benchmarks/validate_runtime_sessions.py:318-320 | the fourth turn is the first tool turn, and so is every fourth from there |
| Sessions.TurnExtendsHistory | benchmarks/validate_runtime_sessions.py:452-482 | the messages each kind of turn adds, the id of the server in the call and in its result |
| Sessions.EnvelopeMeaning | benchmarks/validate_runtime_sessions.py:271-296 | the declared envelope bound by bound |
| Sessions.NewSession | benchmarks/validate_runtime_sessions.py:271-325 | a session is refused exactly outside its declared envelope of turns, budget, context, recall lengths, timeout and identity, and starts empty inside it |
| Sessions.SessionRun.Skip | benchmarks/validate_runtime_sessions.py:327-328 | a skipped case is recorded as not attempted, with an error |
| Sessions.SessionRun.Step | benchmarks/validate_runtime_sessions.py:330-433 | one attempted record per step, validated if and only if the rendered prompt fits, the reply's usage reconciles and its message is the one the step expects; a tool call needs a fresh id, which is then used up |
| Sessions.SessionRun.RunTurns | benchmarks/validate_runtime_sessions.py:436-482 | after the turns: planned names in order, each step attempted exactly while all before it were validated, the history and the shared parent of the completed turns |
| Sessions.SessionRun.RunBranches | benchmarks/validate_runtime_sessions.py:483-498 | both branches run from the shared parent alone, or are skipped when there is none |
| Sessions.SessionRun.RunRecall | benchmarks/validate_runtime_sessions.py:524-540 | one recall record per length and key, attempted exactly when its prompt could be built |
| Sessions.SessionRun.Run | benchmarks/validate_runtime_sessions.py:435-542 | for every server behaviour the finished records carry exactly the planned names in order, with the attempt conditions and requests of every case; the report counts the attempted and the validated records, the rest of the attempted ones as failed and of the plan as not run |
| Sessions.FailureStopsSession | benchmarks/validate_runtime_sessions.py:443-447 | after a failed turn step no later turn step and no summary is attempted, nor the branches when it fails in the first half |
| Sessions.HistoryPrefix | benchmarks/validate_runtime_sessions.py:480-482 | the saved parent is a prefix of every longer completed history |
| Sessions.ReportAddsUp | benchmarks/validate_runtime_sessions.py:544-582 | passed, failed and not run add up to the plan and are never negative, at every progress point; complete means every planned case was validated |
| Sessions.ReportMeaning | benchmarks/validate_runtime_sessions.py:544-582 | the counts of a finished report are the numbers of attempted and of validated records, and what is left of them and of the plan |

Notation: "live" positions or blocks are those a query may attend; a "sentinel" is the -1 entry.
A statement "for every top-k routine" is proved from `Ranking.IsTopK` alone, which fixes no tie
order; equality of two separately computed selections uses the index tie order of `Ranking.TopK`.

## Left out

- Triton, FlashInfer and sgl kernels, CUDA streams and events, dtypes, FP8 and FP4 packing: foreign
  calls, present only through the contracts above.
- KPool selection (`index_kpool > 1`): its selector is not part of this model; the GLM-DSA rows are
  those of the token-granular indexer.
- Radix caches, the scheduler and the pool allocators: present only as the placements they guarantee.
  While a chunk is prefilled, its tokens of different pages sit in slots of different window pages, and
  none of these is the page another request continues from; pages that have slid out of the window may
  be reused, within a prompt as well. In a decode step no other row sits on a request's window page. New
  blocks are stored at full locations no other live request reads. Ping-pong pairs are disjoint.
- Speculative verification: the prefix captures it writes and the draft fields of a request. The
  unaligned extend it uses is modelled.
- What follows pooling in the compressor (norm, rotary, quantisation): a fixed function of a block's
  pooled input and start, so equal inputs mean equal stored rows.
- Padding rows that share a page write it in an order the program does not fix; the model writes in row
  order, and nothing stated of a request depends on what that page holds.
- FLAMetadata beyond the track lists (continuation flags, fresh slots, `disable_state_tracking`), and
  the tool-call anchor snapshot.
- `last_indices` of the decode branch, the registry and the FlashInfer backend: a one-line gather and
  library glue.
- HTTP, JSON, hashing, file reading, the CLI, telemetry and comparison of reports; with them the
  checks that a parsed value has the right JSON or Python type (`legal_case` is a boolean, counts are
  integers, names are strings, the weight map is an object).
- ServingRuns.RunServes: an entry of the prefix tree is kept as a request of its own, and a hit continues
  an entry from its end. Locks, eviction order and reference counts are not modelled: an entry whose
  pages are taken back has left before.
- ServedReads.ReadIsOwn: the compressed half only. What the window pool holds is not modelled; that prefill
  and decode read the same window slots is `WindowRing.PrefillAttendsRing`.
- CompressorServing.DecodeServes: the steps of one run decode the same batch; a batch that changes is
  a new run. The window pages and full locations a request will get are given with it.
- CarryRing.CompressStateRing.WriteBoundaryCarries: ranges whose first boundary has fewer than `ratio`
  tokens of the range before it are outside its precondition, because the source's slice has the wrong
  shape there; aligned ranges never are.
- CompressorPaths.Prefill: a call without tokens is outside its precondition.
- TrackCheckpoints.BuildTrackMetadata: an entry carries its request's index in place of a position in
  three parallel lists; km1 stands for the width of the convolution state.
- Safetensors.CheckContiguous: one walk serves the draft and the shard checks; the shard check has
  already rejected reversed ranges by then. Sorting ignores the tensor name, the last part of the key.
- TrackCheckpoints.PoolRunKeepsHeld: every forward runs all requests of the pool; requests that leave
  for good and return their slots are not modelled.
- Safetensors.ValidateSnapshot: files and tensors are visited in an arbitrary order, and the errors are
  one rejection without their texts.
- Sessions.SessionRun.Step: an error raised after a tool id has been taken (by the signature of a
  malformed message) is not distinguished from success. The progress callback is covered by
  `Sessions.ReportAddsUp` holding at every prefix of the plan.
- Core.Req.CompleteOne: only the two counters; `allocated_len`, reservations and the chunked subclass
  are not modelled.
- FlashCapture.Capture.PrepareForReplay: `cu_seqlens_q`, which never changes in decode, and `positions`
  are not modelled.
