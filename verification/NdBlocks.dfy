/**
 Where a slice meets one block of one chunk: the per-axis arithmetic of `get_set_slice`
 (blosc/b2nd.c).
 */
module NdBlocks {
  import opened Arith
  import opened NdIndex
  import opened NdGeometry

  function Min(a: nat, b: nat): nat { if a <= b then a else b }

  function Max(a: nat, b: nat): nat { if a >= b then a else b }

  // ---- one axis: length n, chunks of c, blocks of k; chunk number x, block number y

  function ChunkStop1(n: nat, c: nat, x: nat): nat {
    Min(Times(x, c) + c, n)
  }

  function BlockStart1(n: nat, c: nat, k: nat, x: nat, y: nat): nat {
    Min(Times(x, c) + Times(y, k), ChunkStop1(n, c, x))
  }

  function BlockStop1(n: nat, c: nat, k: nat, x: nat, y: nat): nat {
    Min(Times(x, c) + Times(y, k) + k, ChunkStop1(n, c, x))
  }

  /** A coordinate lies between the bounds of the chunk exactly when it belongs to it. */
  lemma ChunkAxis(i: nat, n: nat, c: nat, x: nat)
    requires c > 0 && i < n
    ensures Times(x, c) <= i < ChunkStop1(n, c, x) <==> i / c == x
  {
    DivBetween(i, c, x);
  }

  /** A coordinate lies between the clamped bounds of the block exactly when it belongs to it. */
  lemma BlockAxis(i: nat, n: nat, c: nat, k: nat, x: nat, y: nat)
    requires c > 0 && k > 0 && i < n
    ensures BlockStart1(n, c, k, x, y) <= i < BlockStop1(n, c, k, x, y) <==> i / c == x && i % c / k == y
    ensures i / c == x && i % c / k == y ==> i % c % k == i - BlockStart1(n, c, k, x, y)
  {
    DivBetween(i, c, x);
    if i / c == x {
      var r := i - Times(x, c);
      DivIsUnique(i, c, x, r);
      DivBetween(r, k, y);
      if r / k == y {
        DivIsUnique(r, k, y, r - Times(y, k));
      }
    }
  }

  // ---- all axes

  ghost predicate SliceOf(g: Geometry, start: Index, stop: Index) {
    && g.Valid() && |start| == |stop| == |g.shape|
    && forall i :: 0 <= i < |start| ==> start[i] <= stop[i] <= g.shape[i]
  }

  predicate InSlice(idx: Index, start: Index, stop: Index) {
    |idx| == |start| == |stop| && forall i :: 0 <= i < |idx| ==> start[i] <= idx[i] < stop[i]
  }

  function BlockStart(g: Geometry, x: Index, y: Index): (r: Index)
    requires g.Valid() && |x| == |y| == |g.shape|
    ensures |r| == |x| && forall i ::
            0 <= i < |x| ==> r[i] == BlockStart1(g.shape[i], g.chunkshape[i], g.blockshape[i], x[i], y[i])
  {
    seq(|x|, i requires 0 <= i < |x| => BlockStart1(g.shape[i], g.chunkshape[i], g.blockshape[i], x[i], y[i]))
  }

  function BlockStop(g: Geometry, x: Index, y: Index): (r: Index)
    requires g.Valid() && |x| == |y| == |g.shape|
    ensures |r| == |x| && forall i ::
            0 <= i < |x| ==> r[i] == BlockStop1(g.shape[i], g.chunkshape[i], g.blockshape[i], x[i], y[i])
  {
    seq(|x|, i requires 0 <= i < |x| => BlockStop1(g.shape[i], g.chunkshape[i], g.blockshape[i], x[i], y[i]))
  }

  /** The flag `chunk_empty`: the chunk does not meet the slice. */
  predicate ChunkEmpty(g: Geometry, start: Index, stop: Index, x: Index)
    requires |x| == |start| == |stop| == |g.shape| == |g.chunkshape|
  {
    exists i :: 0 <= i < |x| &&
      (ChunkStop1(g.shape[i], g.chunkshape[i], x[i]) <= start[i] || Times(x[i], g.chunkshape[i]) >= stop[i])
  }

  /** The flag `block_empty`: the block does not meet the slice. */
  predicate BlockEmpty(g: Geometry, start: Index, stop: Index, x: Index, y: Index)
    requires g.Valid() && |x| == |y| == |start| == |stop| == |g.shape|
  {
    var lo, hi := BlockStart(g, x, y), BlockStop(g, x, y);
    exists i :: 0 <= i < |x| && (hi[i] <= start[i] || lo[i] >= stop[i])
  }

  /** `slice_start` and `slice_stop`: the part of the slice in the block. */
  function Lo(g: Geometry, start: Index, x: Index, y: Index): (r: Index)
    requires g.Valid() && |x| == |y| == |start| == |g.shape|
    ensures |r| == |x| && forall i :: 0 <= i < |x| ==> r[i] == Max(BlockStart(g, x, y)[i], start[i])
  {
    var b := BlockStart(g, x, y);
    seq(|x|, i requires 0 <= i < |x| => if b[i] < start[i] then start[i] - b[i] + b[i] else b[i])
  }

  function Hi(g: Geometry, stop: Index, x: Index, y: Index): (r: Index)
    requires g.Valid() && |x| == |y| == |stop| == |g.shape|
    ensures |r| == |x| && forall i :: 0 <= i < |x| ==> r[i] == Min(BlockStop(g, x, y)[i], stop[i])
  {
    var b := BlockStop(g, x, y);
    seq(|x|, i requires 0 <= i < |x| => if b[i] > stop[i] then stop[i] else b[i])
  }

  /** The elements of the slice in this chunk. */
  lemma ChunkMeets(g: Geometry, start: Index, stop: Index, x: Index, idx: Index)
    requires SliceOf(g, start, stop) && |x| == |g.shape| && InSlice(idx, start, stop)
    requires g.ChunkOf(idx) == x
    ensures !ChunkEmpty(g, start, stop, x)
  {
    forall i | 0 <= i < |x|
      ensures !(ChunkStop1(g.shape[i], g.chunkshape[i], x[i]) <= start[i] || Times(x[i], g.chunkshape[i]) >= stop[i])
    {
      ChunkAxis(idx[i], g.shape[i], g.chunkshape[i], x[i]);
    }
  }

  /** The elements of the slice in this block are those between `Lo` and `Hi`. */
  lemma BlockMeets(g: Geometry, start: Index, stop: Index, x: Index, y: Index, idx: Index)
    requires SliceOf(g, start, stop) && |x| == |y| == |g.shape| && InSlice(idx, start, stop)
    ensures InSlice(idx, Lo(g, start, x, y), Hi(g, stop, x, y)) <==> g.ChunkOf(idx) == x && g.BlockOf(idx) == y
    ensures g.ChunkOf(idx) == x && g.BlockOf(idx) == y ==> !BlockEmpty(g, start, stop, x, y)
  {
    var lo, hi := Lo(g, start, x, y), Hi(g, stop, x, y);
    forall i | 0 <= i < |x|
      ensures lo[i] <= idx[i] < hi[i] <==> g.ChunkOf(idx)[i] == x[i] && g.BlockOf(idx)[i] == y[i]
    {
      BlockAxis(idx[i], g.shape[i], g.chunkshape[i], g.blockshape[i], x[i], y[i]);
    }
    if g.ChunkOf(idx) == x && g.BlockOf(idx) == y {
      assert InSlice(idx, lo, hi);
    }
  }

  /** The item of an element within its block is its distance from the start of the block. */
  lemma ItemInBlock(g: Geometry, x: Index, y: Index, idx: Index)
    requires g.Valid() && InBox(idx, g.shape) && |x| == |y| == |g.shape|
    requires g.ChunkOf(idx) == x && g.BlockOf(idx) == y
    ensures forall i ::
            0 <= i < |idx| ==> BlockStart(g, x, y)[i] <= idx[i] && g.ItemOf(idx)[i] == idx[i] - BlockStart(g, x, y)[i]
  {
    forall i | 0 <= i < |idx|
      ensures BlockStart(g, x, y)[i] <= idx[i] && g.ItemOf(idx)[i] == idx[i] - BlockStart(g, x, y)[i]
    {
      assert g.ChunkOf(idx)[i] == idx[i] / g.chunkshape[i]
             && g.BlockOf(idx)[i] == idx[i] % g.chunkshape[i] / g.blockshape[i];
      BlockAxis(idx[i], g.shape[i], g.chunkshape[i], g.blockshape[i], x[i], y[i]);
    }
  }

  /** A block that meets the slice: the part of the slice in it fits the block and the slice. */
  lemma BlockBox(g: Geometry, start: Index, stop: Index, x: Index, y: Index)
    requires SliceOf(g, start, stop) && |x| == |y| == |g.shape| && !BlockEmpty(g, start, stop, x, y)
    ensures var lo, hi, b := Lo(g, start, x, y), Hi(g, stop, x, y), BlockStart(g, x, y);
            forall i :: 0 <= i < |x| ==>
              start[i] <= lo[i] <= hi[i] <= stop[i] && b[i] <= lo[i] && hi[i] <= b[i] + g.blockshape[i]
  {
  }
}
