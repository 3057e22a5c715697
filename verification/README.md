# Verified models of C-Blosc2

This project models the parts of C-Blosc2 whose correctness is hard to see from the code, in
Dafny, and proves what the library promises about them. It has six parts.

* **BloscLZ** (`FastCopy`, `BloscLzFormat`, `BloscLzDecoder`, `BloscLzEncoder`). The encoder with
  its hash table, its back-patched literal counts and its four match forms, and the decoder with
  its three overlapping-copy routines. A stream is a list of tokens; `Serialize` lays the tokens
  out, `Expand` says what they mean, and `Decode` is a recursive reference decoder. The decoder
  is proved equal to `Decode` on every input, the encoder's output is proved to decode to its input.
* **Parallel jobs** (`ParallelJob`, `VlReorder`, `SharedPool`). Workers that claim blocks, reserve
  spans under a mutex and copy outside it are a step relation with one byte per copy step; the
  theorems quantify over every interleaving. Variable-length blocks are put back into index order
  in place. The shared pools, their queues, workers, reference counts and epoch are a second
  step relation with an invariant that every step keeps.
* **Chunk streams** (`BlockStream`, `ChunkStream`, `ParallelChunk`, `GetItem`). The streams of a
  block, whole chunks with the copy fallback and the collapse to a chunk of zeros, chunks compressed
  by any schedule of workers, and partial reads. Codecs and filters are abstract: any encode/decode
  pair that is sound.
* **B2ND** (`NdIndex`, `NdGeometry`, `NdCopy`, `NdBlocks`, `NdSlice`, `NdChunkList`,
  `NdFastPath`, `NdRead`, `NdWrite`, `NdResize`, `NdArrays`, `NdSelection`, `NdOrthogonal`, `NdOutside`). The
  specification is an ordinary n-dimensional array: `Value` gives the element at an index.
  Reading, writing, resizing and orthogonal selection are proved against it for any number of
  dimensions.
* **Bitshuffle** (`Transpose`, `BitMatrix`, `Bitshuffle`, `SseTranspose`, `BitshuffleSse`). The
  closed form of the transform bit by bit, its inverse, and the SSE2 versions, register by register.
* **Delta** (`Delta`). Encoding, and decoding in place with the reference in the same buffer.

`Bytes`, `Seqs`, `Arith`, `Counting` and `Sorting` hold shared definitions and lemmas.
`dafny verify dfyconfig.toml` checks everything.

## How to read the model

* Read-only inputs are sequences, buffers that are written are arrays, pointers are positions.
  Bytes are `Byte` (0 to 255), or `bv8` where bits matter. Array items of B2ND are moved as units.
* Functions and predicates state specifications; methods follow the loops of the source and are
  tied to them by `ensures`. `hide` statements only limit what the solver looks at.
* In `ParallelJob` what a block compresses to is a parameter (`outcomes`), in `BlockStream` the
  codec is. The entropy probe of BloscLZ is an arbitrary boolean.
* Steps of `ParallelJob` and `SharedPool` are the sections under a lock and the actions of a
  thread on its own data.

## Promises that do not hold everywhere

Each has its exact condition, and the failing inputs are given.

* A slice that is exactly one chunk takes a fast path which ignores the shape of the buffer. With a
  buffer larger than the slice the elements go to the wrong places unless the layouts agree:
  `NdRead.FastRead` and `NdRead.FastMisread` (`NdArrays.FastWrite` and `NdArrays.FastMiswrite` for
  writes) show that `SameLayout` is the exact condition. With a buffer of the shape of the slice,
  every read is right (`NdRead.ExactShapeReadsRight`).
* Reads and writes of slices check that the buffer has the bytes of the slice, not that it reaches
  the last element at the strides of its shape. The check is enough exactly when the slice has the
  layout of the buffer or no elements (`NdRead.RoomExact`; `NdRead.RoomExample` is a buffer that
  passes and is too short). `NdRead.GetSlice`,
  `NdArrays.NdArray.GetSlice` and `NdArrays.NdArray.SetSlice` are for buffers that are long enough
  whenever they pass the check.
* A partial read that starts inside a block, goes on into the next one and asks for as many bytes
  as that block has, returns that block instead: `GetItem.PartialReadExact` gives the exact
  condition, `GetItem.ClobberedExample` a case.
* After growing, a new element shows what the padding held if its chunk existed before
  (`NdResize.ResizeNewElements`). It is zero whatever the array held exactly if its chunk lies
  outside the old grid (`NdResize.NewElementExact`); `NdResize.NewElementExample` is a new element
  that is 7.
* Delta coding does not store the bytes after the last whole element of a block; in their place
  comes back what the output buffer held. A block, be it the first or another, comes back for all
  contents exactly if it holds whole elements (`Delta.WholeElementsExact`). A chunk does exactly if
  its bytes are a multiple of the element width and either it is a single block or the block size is
  such a multiple too (`Delta.ChunkExact`).
* `b2nd_get_slice_nchunks` may list a chunk for a slice without elements. The list is that of the
  chunks with an element exactly if the slice is not empty along any axis, or is empty along one at
  the edge of a chunk or at the end of the array (`NdChunkList.ListedIff`);
  `NdChunkList.ListedExample` is a slice for which it is not.
* `orthogonal_selection` rejects entries larger than the length of the axis. What it accepts are
  coordinates exactly if no entry is negative and none equals the length of its axis
  (`NdOutside.BoundsCheckExact`).
  * An entry equal to the length either leads to no chunk, and the read fails, or it reads the item
    at its `Landing`: an element if that lies in the array, a padding item otherwise
    (`NdOutside.LandingExact`). `NdOutside.NeighbourExample` reads the first element of the next row,
    `NdOutside.PaddingExample` padding. The length of the first axis leads to no chunk if it is whole
    chunks (`NdOutside.EndOfFirstAxis`).
  * A negative entry is read with the division of C. Along one axis a small one is an item before the
    chunk (`NdOutside.NegativeExact`); along two it can be another element (`NdOutside.NegativeExample`).
* `orthogonal_selection` compares the size of the buffer the wrong way round: it rejects buffers
  larger than the selection and accepts smaller ones. It accepts just the buffers that hold the
  selection exactly if the buffer has the size of the selection (`NdOutside.SizeCheckExact`,
  `NdOutside.SizeCheckExample`).

## Model

| member | source | states |
|---|---|---|
| FastCopy.LzCopyUnique | blosc/blosclz.c:745-770 | the meaning of a match, `out[i] == out[i - distance]` byte by byte, leaves one possible result |
| FastCopy.CopyBytes | blosc/fastcopy.c:37-158 | a register copy within one period of an overlapping copy writes right bytes only |
| FastCopy.ChunkMemcpy | blosc/fastcopy.c:200-310 | words written twice still give the overlapping copy, for widths 8, 16 and 32 |
| FastCopy.Fastcopy | blosc/fastcopy.c:504-533 | for a distance above the register width the result is the bytewise copy |
| FastCopy.CopyMatch | blosc/fastcopy.c:537-646 | for every distance and length the result is the bytewise LZ copy and nothing after it is touched |
| FastCopy.WildCopy | blosc/blosclz.c:677-683 | for distances of at least 8 the first bytes are the LZ copy, with an overrun of at most 7 bytes |
| BloscLzFormat.ParseMatchBytes | blosc/blosclz.c:270-316 | near and far distances and short and chained lengths are each read back as themselves, never as another |
| BloscLzFormat.DecodeTokens | blosc/blosclz.c:696-794 | a stream of valid tokens that ends in literals decodes to the expansion of the tokens |
| BloscLzFormat.DecodeStream | blosc/blosclz.c:606-615 | with the marker bit set on the first byte, the reference decoder gives the expansion |
| BloscLzDecoder.ReadMatch | blosc/blosclz.c:697-732 | the header of a match is parsed as the reference parser does, and rejected exactly when it rejects |
| BloscLzDecoder.MatchTurn | blosc/blosclz.c:734-771 | a turn for a match leaves the output and position of the reference decoder |
| BloscLzDecoder.LiteralTurn | blosc/blosclz.c:772-791 | a turn for literals leaves the output and position of the reference decoder |
| BloscLzDecoder.Decompress | blosc/blosclz.c:685-795 | on every input it terminates, stays within maxout and returns exactly what the reference decoder yields, 0 where that fails |
| BloscLzEncoder.GetMatch | blosc/blosclz.c:148-189 | returns the position after the first byte that differs, or the bound |
| BloscLzEncoder.GetRun | blosc/blosclz.c:119-144 | the same for a run of one byte |
| BloscLzEncoder.Search | blosc/blosclz.c:501-544 | the hash entry is replaced, and a match is reported exactly when the old entry holds one that is worth it |
| BloscLzEncoder.EmitLiteral | blosc/blosclz.c:248-258 | the pending literal run and the count of full runs are kept exact, and it fails only without room |
| BloscLzEncoder.CloseRun | blosc/blosclz.c:546-554 | the count of the run is patched, or the unused placeholder dropped, so that the output serializes tokens |
| BloscLzEncoder.EmitMatch | blosc/blosclz.c:270-316 | appends exactly the bytes of the match token for the biased length and distance |
| BloscLzEncoder.EncodeMatch | blosc/blosclz.c:546-592 | after a match the output still stands for the consumed input |
| BloscLzEncoder.Finish | blosc/blosclz.c:606-615 | the finished stream decodes to the input |
| BloscLzEncoder.Compress | blosc/blosclz.c:422-619 | a positive result is at most maxout and decodes to the input, whatever the hash table holds and the probe says; it gives up only on the probe, small buffers or too little room |
| BloscLzEncoder.RoundTrip | blosc/blosclz.c:422-795 | compressing and decompressing with room for the input gives the input back |
| ParallelJob.InitInv | blosc/blosc2.c:5079-5096 | a fresh job satisfies the invariant |
| ParallelJob.StepKeeps | blosc/blosc2.c:4889-5075 | every step of every worker keeps the invariant: spans tile the output, each claimed block has one owner, copied bytes are right |
| ParallelJob.GiveupStays | blosc/blosc2.c:5022-5041 | once the job has given up it stays so, in every run |
| ParallelJob.DoneIsComplete | blosc/blosc2.c:4967-5057 | when all workers are done without giving up, every block was claimed once and the spans at its block starts are disjoint, tile the output and hold its bytes |
| ParallelJob.ParallelCompression | blosc/blosc2.c:4898-5075 | the same for every interleaving of every number of workers |
| ParallelJob.PrefixUntouched | blosc/blosc2.c:5031-5045 | header, block starts and dictionary are never overwritten by a copy |
| VlReorder.SortRecoversLog | blosc/blosc2.c:3369-3380 | sorting by block start recovers the order in which the spans were reserved |
| VlReorder.OrderedIsDone | blosc/blosc2.c:3335-3345 | block starts that increase already are in index order, so the early return is right |
| VlReorder.Reorder | blosc/blosc2.c:3325-3398 | from any tiling the blocks end in index order with their bytes, and nothing before or after them changes |
| VlReorder.SerialBlosc | blosc/blosc2.c:2161-2228 | if every block compresses and all fit, the blocks are laid out in index order; otherwise the result is not positive |
| VlReorder.SameEnd | blosc/blosc2.c:3325-3398 | the serial layout ends where the parallel one does |
| VlReorder.ParallelEqualsSerial | blosc/blosc2.c:3325-3398 | for every schedule the reordered output and block starts equal those of the serial compressor |
| VlReorder.ReadStarts | blosc/blosc2.c:2866-2905 | accepts the block starts exactly when they increase, stay inside the chunk and announce sizes that add up, and fills the tables |
| VlReorder.ReorderedIsAcceptable | blosc/blosc2.c:2866-2905 | the reordered chunk passes every check of the decoder |
| SharedPool.DrainRestores | blosc/blosc2.c:5542-5566 | when posting fails half-way, draining the entries of the job gives the queue back as it was |
| SharedPool.StepKeeps | blosc/blosc2.c:5105-5597 | every step of every thread keeps the invariant of pools, jobs and contexts |
| SharedPool.CountersExact | blosc/blosc2.c:5105-5159 | in every reachable state active_jobs is the queue length plus the busy workers, pending_workers the entries and holders of the job, context_refs the contexts that use the pool |
| SharedPool.ReturnIsSafe | blosc/blosc2.c:5537-5597 | when parallel_blosc returns, no entry and no worker of any pool refers to its job |
| SharedPool.FinishFindsJob | blosc/blosc2.c:5132-5147 | a worker that is done finds its job alive, with a positive count to decrement |
| SharedPool.ReleaseFindsIdle | blosc/blosc2.c:5461-5480 | a release takes a pool off the list only when every worker of it is waiting |
| SharedPool.DestroyedIsUnused | blosc/blosc2.c:5257-5277 | a pool that is being destroyed or freed has no user, no entry and no worker with a job |
| SharedPool.PointerIsLive | blosc/blosc2.c:2310-2318 | a context follows its pool pointer only when the pool is listed, so a stale pointer is never followed |
| BlockStream.GetRun | blosc/blosc2.c:1184-1206 | true exactly when all bytes are equal |
| BlockStream.ChooseStream | blosc/blosc2.c:1284-1459 | the stream chosen stands for the bytes and fits, 0 only without room for the bytes and a size field, negative only if the codec misbehaves |
| BlockStream.EncodeBlock | blosc/blosc2.c:1269-1468 | a positive result is the size of streams that stand for the block, written within the room and nowhere else; 0 only if there is less room than bytes and size fields take |
| BlockStream.BlockBound | blosc/blosc2.c:1269-1468 | a block takes at most its bytes and four for each stream, and the latter alone exactly when all streams are zero runs |
| BlockStream.ZeroBlock | blosc/blosc2.c:1296-1340 | a block takes no more than its size fields exactly when all its bytes are zero |
| BlockStream.ReadBack | README_CHUNK_FORMAT.rst:228-256 | reading a stream gives back the bytes it stands for |
| BlockStream.StreamsUnambiguous | README_CHUNK_FORMAT.rst:237-256 | the cases of the size field never overlap: equal bytes stand for equal data |
| BlockStream.BlockRoundTrip | blosc/blosc2.c:1971-2143 | reading the streams of a block gives back the block |
| BlockStream.DecodeBlock | blosc/blosc2.c:1938-2157 | on every input the loop returns what the reference decoder yields or its error, and writes only its block |
| ChunkStream.AllStreamsRight | blosc/blosc2.c:3024-3034 | the formula for the number of streams counts split, unsplit and leftover blocks right |
| ChunkStream.CompressInWorker | blosc/blosc2.c:4998-5003 | with a codec that keeps to its space, the buffer of a worker is always enough for a block |
| ChunkStream.CompressBlocks | blosc/blosc2.c:2177-2228 | the blocks are laid out at their block starts within destsize and nothing else is written; 0 is returned only if there is less room than bytes and size fields take |
| ChunkStream.CollapseExact | blosc/blosc2.c:3053-3063 | the size is that of header, block starts and size fields exactly when every block is all zeros after the filters |
| ChunkStream.ZeroChunk | blosc/blosc2.c:3053-3063 | if the inverse filters keep zeros, every block of such a chunk goes through the filters and back to zeros, whether or not the filters lose information; without loss the data were zeros |
| ChunkStream.CompressChunk | blosc/blosc2.c:3004-3067 | the chunk, whether regular, copied or collapsed, is at most destsize long and decompresses to the source, and nothing past destsize is written; it fails only without room for a copy or with a bad codec |
| ChunkStream.DecompressChunk | blosc/blosc2.c:2177-2228 | returns the data that the chunk decodes to, and fails exactly if some block does not decode |
| ChunkStream.ChunkRoundTrip | blosc/blosc2.c:3004-3063 | compressing any chunk within destsize and decompressing it gives it back, for all sound codecs and filters |
| ParallelChunk.EveryScheduleDecodes | blosc/blosc2.c:4898-5075 | a regular chunk whose workers all finish without giving up decompresses to the source, for every interleaving |
| ParallelChunk.EveryScheduleCollapses | blosc/blosc2.c:3053-3063 | the test for a chunk of zeros is exact for every interleaving |
| GetItem.SingleLater | blosc/blosc2.c:4399-4461 | after the first block, the shortcut is taken exactly for the next block of a clobbered request |
| GetItem.GetItems | blosc/blosc2.c:4265-4474 | requests out of bounds are rejected, others return the matching bytes of the chunk, or the next block if the request is clobbered; the rest of the destination is kept |
| GetItem.PartialReadExact | blosc/blosc2.c:4433-4458 | partial reads agree with full decompression for all data exactly when the request is not clobbered |
| GetItem.SafeRequests | blosc/blosc2.c:4399-4461 | requests that start on a block boundary, lie in one block, or ask for neither a block nor the leftover are right |
| GetItem.ClobberedExample | blosc/blosc2.c:4433-4458 | 32 bytes from the middle of the first of two blocks of 32 return the second block |
| NdIndex.UnravelRavel | blosc/blosc2.c:6849-6872 | flattening an index and unflattening it gives the index back |
| NdIndex.RavelUnravel | blosc/blosc2.c:6849-6872 | unflattening a position and flattening it gives the position back |
| NdIndex.UnidimToMultidim | blosc/blosc2.c:6849-6865 | computes the index at a row-major position |
| NdIndex.MultidimToUnidim | blosc/blosc2.c:6867-6872 | computes the row-major position of an index |
| NdGeometry.StorageInjective | blosc/b2nd.c:861-904 | the storage offset of an element is within the stored items and differs from that of every other element |
| NdGeometry.PlaceInjective | blosc/b2nd.c:890-902 | chunk number and place in the chunk determine the index |
| NdCopy.CopyBuffer | blosc/b2nd_utils.c:255-326 | every index of the destination box holds the corresponding source item, everything else is unchanged, for any number of axes |
| NdBlocks.BlockMeets | blosc/b2nd.c:1356-1412 | the clamped bounds of a block contain an element of the slice exactly when it belongs to that block |
| NdSlice.AxisRange | blosc/b2nd.c:1190-1202 | the stepping loops give the first chunk and the number of chunks along an axis |
| NdSlice.TurnIsChunk | blosc/b2nd.c:1204-1212 | an element is met in the turn that visits its chunk, and only then |
| NdSlice.BlockMask | blosc/b2nd.c:1259-1291 | a block is masked out exactly when it does not meet the slice, and the needed ones are counted |
| NdSlice.DecompressMasked | blosc/b2nd.c:1339-1349 | the blocks that are not masked are decompressed to their places |
| NdChunkList.ListedIff | blosc/b2nd.c:916-1004 | exactly the chunks with an element of the slice are listed, if and only if the slice is not empty along any axis or is empty along one at an edge |
| NdChunkList.ListedExample | blosc/b2nd.c:916-1004 | a chunk is listed for a slice without elements that starts inside it |
| NdChunkList.ListedOnce | blosc/b2nd.c:965-997 | no chunk is listed twice |
| NdChunkList.SliceChunks | blosc/b2nd.c:916-1004 | returns the numbers of the chunks with an element of the slice, under the same condition and only then |
| NdFastPath.BlockMajorIsRowMajor | blosc/b2nd.c:1028-1040 | under the condition on the block shape, block-major order in a chunk is C order |
| NdFastPath.CheckBlocks | blosc/b2nd.c:1017-1040 | the loop with its counter decides that condition |
| NdRead.OneChunkListed | blosc/b2nd.c:1042-1049 | a slice that passes the tests of the fast path lists one chunk, so its internal error never occurs |
| NdRead.NchunkFastpath | blosc/b2nd.c:1009-1053 | returns the number of the chunk exactly for a slice of one whole chunk in C order |
| NdRead.FastRead | blosc/b2nd.c:1150-1156 | the fast read is right if the layouts agree |
| NdRead.FastMisread | blosc/b2nd.c:1150-1156 | if the layouts differ, some array is read wrongly |
| NdRead.GetChunk | blosc/b2nd.c:1204-1462 | one turn adds the elements of its chunk, by the masked or the compact path |
| NdRead.GetSlice | blosc/b2nd.c:1057-1492 | each element of the slice is at its place in the buffer and the rest is zero, on every path that is right; too small a buffer shape or too few bytes are rejected |
| NdRead.RoomExact | blosc/b2nd.c:1121-1123 | the check on the size of the buffer is enough exactly when the slice has the layout of the buffer |
| NdRead.RoomExample | blosc/b2nd.c:1121-1123 | a buffer with the items of the slice whose shape puts the last of them past its end |
| NdRead.ExactShapeReadsRight | blosc/b2nd.c:1057-1492 | with a buffer of the shape of the slice every path reads right |
| NdWrite.PutBlocks | blosc/b2nd.c:1354-1456 | the scratch buffer holds the buffer's elements in the slice and what it held before elsewhere |
| NdArrays.NdArray.SetChunk | blosc/b2nd.c:1204-1486 | one turn writes the elements of the slice in its chunk and no others |
| NdArrays.NdArray.GetSlice | blosc/b2nd.c:1495-1507 | the array's elements at the strides of the buffer, with the same checks |
| NdArrays.NdArray.SetSlice | blosc/b2nd.c:1510-1533 | afterwards the slice holds the buffer and every other element is unchanged; a write that is rejected changes nothing |
| NdArrays.FastWrite | blosc/b2nd.c:1128-1149 | the fast write is right if the layouts agree |
| NdArrays.FastMiswrite | blosc/b2nd.c:1128-1149 | if the layouts differ, some buffer is written to the wrong elements |
| NdArrays.SetThenGet | blosc/b2nd.c:1057-1492 | a slice that is written and read comes back as it was |
| NdArrays.GetThenSet | blosc/b2nd.c:1057-1492 | a slice that is read and written back leaves every element as it was |
| NdArrays.NdArray.GetSparse | blosc/b2nd.c:839-912 | each coordinate in bounds gives the element at that row-major position; any other is rejected |
| NdResize.RankStep | blosc/b2nd.c:2127-2149 | the number of kept chunks before a cell grows by one exactly at the cells of the smaller grid |
| NdResize.RankOfCell | blosc/b2nd.c:2127-2149 | for a common cell that number is its position in the smaller grid |
| NdResize.GrownAll | blosc/b2nd.c:2119-2152 | the insertions in order leave the old chunk at every common coordinate and zeros elsewhere |
| NdResize.ShrunkAll | blosc/b2nd.c:2206-2220 | the deletions in reverse order leave the old chunk at every coordinate |
| NdResize.FirstAxisKeeps | blosc/b2nd.c:2107-2157 | growing along the first axis, old chunks keep number and content in every intermediate state |
| NdResize.ResizeKeepsElements | blosc/b2nd.c:2227-2281 | every element inside both shapes keeps its value |
| NdResize.ResizeNewElements | blosc/b2nd.c:2129-2147 | a new element is zero in a chunk outside the old grid, and otherwise what the padding held |
| NdResize.NewElementExact | blosc/b2nd.c:2129-2147 | a new element is zero for all contents of the array exactly when its chunk lies outside the old grid |
| NdResize.NewElementExample | blosc/b2nd.c:2129-2147 | a new element that shows the padding item 7 |
| NdArrays.NdArray.ExtendShape | blosc/b2nd.c:2076-2160 | rejects a shrinking shape; else the chunks of the new grid, with no intermediate state whose published shape needs more chunks than are stored |
| NdArrays.NdArray.ShrinkShape | blosc/b2nd.c:2163-2224 | the same for shrinking, where the shape is published first |
| NdArrays.NdArray.Resize | blosc/b2nd.c:2227-2281 | any mixture of growing and shrinking axes leaves a row-major list with the old chunk at every common coordinate, through safe states only |
| NdSelection.WhereSlots | blosc/b2nd.c:2783-2790 | a tuple of sorted entries and the buffer index it is meant for determine each other |
| NdSelection.Flush | blosc/b2nd.c:2468-2505 | one batched memcpy puts every element of the batch where its indices say and touches nothing else |
| NdSelection.CopyRow | blosc/b2nd.c:2433-2506 | the batches together copy every entry of the innermost axis |
| NdSelection.CopyBlock | blosc/b2nd.c:2419-2516 | every tuple of a block is copied, and as many items are copied as there are tuples |
| NdOrthogonal.MaskBlocks | blosc/b2nd.c:2590-2630 | every block that some tuple needs is unmasked |
| NdOrthogonal.CopyBlocks | blosc/b2nd.c:2519-2587 | every tuple of a chunk is copied once, from a block that was unmasked |
| NdOrthogonal.CopyChunks | blosc/b2nd.c:2633-2737 | every tuple of the product is copied once; it fails exactly if the chunk of some tuple does not exist |
| NdOrthogonal.SortedAxis | blosc/b2nd.c:2409-2416 | after sorting each coordinate is there once with its original index |
| NdOrthogonal.GetOrthogonal | blosc/b2nd.c:2740-2828 | succeeds exactly if the two checks pass as they are written and all chunks needed exist; then each buffer position holds the item its original indices lead to, with as many copies as tuples |
| NdOutside.BoundsCheckExact | blosc/b2nd.c:2750-2758 | what the bounds check accepts are coordinates exactly if no entry is negative or the length of its axis |
| NdOutside.SizeCheckExact | blosc/b2nd.c:2760-2767 | the size check accepts just the buffers that hold the selection exactly if the buffer has the size of the selection |
| NdOutside.SizeCheckExample | blosc/b2nd.c:2760-2767 | too small a buffer is accepted and a larger one rejected |
| NdOutside.CoordinatesAreThere | blosc/b2nd.c:2697-2704 | the chunks of coordinates always exist |
| NdOutside.LandingExact | blosc/b2nd.c:2655-2672 | entries that lead to a stored chunk read one element, that at their landing, in every array, or no element |
| NdOutside.EndOfAxis | blosc/b2nd.c:2645-2664 | an accepted entry leaves the grid along its axis exactly if it is the length and that is whole chunks |
| NdOutside.EndOfFirstAxis | blosc/b2nd.c:2655-2672 | past the grid along the first axis there is no chunk |
| NdOutside.NeighbourExample | blosc/b2nd.c:2750-2758 | entries 0 and 2 of an array of two by two are accepted and read the element at 1 and 0 |
| NdOutside.PaddingExample | blosc/b2nd.c:2750-2758 | the entry 3 of an array of three is accepted and reads padding |
| NdOutside.NumbersAgree | blosc/b2nd.c:2434-2666 | for entries that are not negative, chunk, block and item computed with the division of C are those of the model |
| NdOutside.NegativeExact | blosc/b2nd.c:2434-2443 | a small negative entry along one axis is accepted and read that far before the first item of the chunk |
| NdOutside.NegativeExample | blosc/b2nd.c:2434-2443 | entries 1 and -1 are accepted and read the element at 0 and 1 |
| Transpose.TransElem | blosc/bitshuffle-generic.c:118-131 | the transpose of an array of elements |
| Transpose.TransByteElemRemainder | blosc/bitshuffle-generic.c:34-61 | the rows from the start on are transposed and nothing wrong is written |
| Transpose.TransByteElem | blosc/bitshuffle-generic.c:65-69 | the transpose of the bytes of the elements |
| Transpose.TransElemType | blosc/bitshuffle-generic.h:77-94 | the transpose, in groups of eight rows and a rest |
| BitMatrix.TransBit | blosc/bitshuffle-generic.h:56-63 | TRANS_BIT_8X8 is the transpose of an eight by eight bit matrix |
| BitMatrix.LaneTop | blosc/bitshuffle-sse2.c:284-290 | the bits that 16-bit shifts carry across bytes do not reach the bits that are taken |
| Bitshuffle.TransBitByteRemainder | blosc/bitshuffle-generic.c:73-106 | the words from the start on are spread over the rows of bits |
| Bitshuffle.ShuffledAt | blosc/bitshuffle-generic.c:147-167 | bit b of byte j of element i becomes bit i % 8 of byte i / 8 of row 8 * j + b |
| Bitshuffle.TransBitElem | blosc/bitshuffle-generic.c:147-167 | the three stages compute the transform, and sizes that are no multiple of eight are rejected |
| Bitshuffle.UnshuffledAt | blosc/bitshuffle-generic.c:172-258 | the closed form of the inverse |
| Bitshuffle.UnshuffleShuffle | blosc/bitshuffle-generic.c:147-258 | untransforming what was transformed gives the input back |
| Bitshuffle.ShuffleUnshuffle | blosc/bitshuffle-generic.c:147-258 | and the other way round |
| Bitshuffle.UntransBitElem | blosc/bitshuffle-generic.c:240-258 | the two stages compute the inverse |
| SseTranspose.NetworkAt | blosc/bitshuffle-sse2.c:57-186 | after the unpack network register y holds byte y of sixteen elements, for elements of 2, 4 and 8 bytes |
| SseTranspose.TransByteElemSseN | blosc/bitshuffle-sse2.c:57-200 | the vector transposes equal the scalar byte transpose for every size |
| SseTranspose.Hierarchical | blosc/bitshuffle-sse2.c:235-260 | words, then bytes of words, then rows is the byte transpose |
| SseTranspose.TransByteElemSse | blosc/bitshuffle-sse2.c:204-262 | equals the scalar byte transpose for every element size |
| BitshuffleSse.MaskIsRow | blosc/bitshuffle-sse2.c:282-292 | a movemask after k shifts is a byte of the row of bit 7 - k |
| BitshuffleSse.TransBitByteSse | blosc/bitshuffle-sse2.c:266-295 | the same rows of bits as the scalar code for every length |
| BitshuffleSse.TransBitElemSse | blosc/bitshuffle-sse2.c:299-318 | the whole vector transform equals the scalar one |
| Delta.Encoder | blosc/delta.c:18-92 | the whole elements are XORed with the previous element or the reference, the rest of the output is unchanged |
| Delta.Decoder | blosc/delta.c:96-161 | decoding in place, with the reference in the same buffer |
| Delta.FirstBack | blosc/delta.c:96-126 | in-place decoding of the first block, where each element depends on the one just decoded, undoes the encoding |
| Delta.WholeElementsExact | blosc/delta.c:18-161 | the filter can be undone for all contents exactly for blocks of whole elements, first block or not |
| Delta.DecodeChunk | blosc/blosc2.c:1505-1508 | decoding block 0 first and then the others restores the whole elements of every block |
| Delta.DeltaRoundTrip | blosc/blosc2.c:1126-1128 | encoding and decoding a chunk of any length restores its whole elements over whatever the buffer held, and all of it if the blocks hold whole elements |
| Delta.ChunkExact | blosc/delta.c:18-161 | a chunk comes back for all contents exactly if its bytes, and its block size if it has several blocks, are multiples of the element width |

## Left out

- LZ4, LZ4HC, Zlib, Zstd, ZFP, user codecs and filters: foreign code, represented by a sound codec or filter.
- BloscLzEncoder.Compress: the entropy probe `get_cratio` is an arbitrary boolean; the `int` overflow of match lengths beyond 2^31 is not modelled.
- FastCopy.ChunkMemcpy: the unrolled `switch` over the number of words is a loop over the words.
- Lazy chunks, dictionaries, instrumentation, prefilters and postfilters, and the disposable output flag of `blosc_c`.
- BlockStream.EncodeBlock: variable-length blocks store another size field; they are modelled from their compressed bytes on, in `VlReorder`.
- The chunk header and the byte image of the block starts; block starts are an array of integers beside the chunk.
- VlReorder.ParallelEqualsSerial: compares runs of the same block outcomes, which needs a deterministic codec.
- VlReorder.SerialBlosc: a block that does not fit in what is left counts as not compressible; a codec that finds other bytes when it has less room is not modelled.
- The copy fallback of chunks with variable-length blocks.
- SharedPool.StepKeeps: `blosc2_destroy` is taken to run while no job is posted, and attaching is one step; memory allocation failure is modelled only where a job is posted.
- The Windows backend with threads for each context and the callback backend.
- The multithreaded decoding of DELTA, and DELTA after other filters.
- NdRead.GetSlice: arrays without axes are a single item that is copied directly and are not modelled; sizes are unbounded, so the checks for 32-bit and 64-bit overflow are not modelled.
- NdCopy.CopyBuffer: one recursion over the axes stands for `copy1dim` to `copy8dim`; `copy_ndim_fallback` is not reachable with at most eight axes.
- NdArrays.NdArray.Resize: only without a start position; inserting or deleting in the middle is not modelled.
- NdOrthogonal.GetOrthogonal: only reads; writes walk the same recursion with the copies reversed. Selections with negative entries that pass the checks are not walked, as they lead outside the buffers; `NdOutside` gives the numbers computed for them.
- NdOutside.NegativeExact: the memory before a buffer is not modelled, so it says which position is read and not what is there.
- Delta.Encoder: a first block without a whole element, for which the source reads past the block.
- `b2nd_append` and its accelerated path, `b2nd_concatenate`, squeezing and views, and the metalayer serialization of B2ND.
- Bitshuffle.TransBitElem: only little-endian machines.
- AVX2, AVX-512, NEON and AltiVec versions, and the SSE2 version of the inverse transform.
- The byte shuffle filter, frames, super-chunk storage, and everything under `bench`, `examples` and `tests`.
