/**
 The walk of an orthogonal selection over chunks and blocks: `iter_block_maskout`,
 `iter_block_copy`, `iter_chunk` and `orthogonal_selection` (blosc/b2nd.c).
 */
module NdOrthogonal {
  import opened Arith
  import opened NdIndex
  import opened NdGeometry
  import opened NdBlocks
  import opened NdCopy
  import opened NdSlice
  import opened Sorting
  import opened NdSelection

  // ---- runs of entries along an axis

  function ChunkKey(o: Selection, i: nat, j: nat): nat
    requires o.g.Valid() && i < |o.g.shape| == |o.sel| && j < |o.sel[i]|
  {
    if o.sel[i][j].key < 0 then 0 else o.sel[i][j].key / o.g.chunkshape[i]
  }

  function BlockKey(o: Selection, i: nat, j: nat): nat
    requires o.g.Valid() && i < |o.g.shape| == |o.sel| && j < |o.sel[i]|
  {
    if o.sel[i][j].key < 0 then 0 else o.sel[i][j].key % o.g.chunkshape[i] / o.g.blockshape[i]
  }

  /** The cursors stand for a box within another, with at least one entry along each axis that is set. */
  ghost predicate Cursors(o: Selection, base: Index, top: Index, pre0: Index, pre1: Index) {
    && BoxOf(o, base, top) && |pre0| == |pre1| <= |base|
    && forall i :: 0 <= i < |pre0| ==> base[i] <= pre0[i] < pre1[i] <= top[i]
  }

  ghost predicate ChunkRuns(o: Selection, pre0: Index, pre1: Index)
    requires o.Valid()
  {
    && |pre0| == |pre1| <= |o.sel|
    && (forall i :: 0 <= i < |pre0| ==> pre0[i] < pre1[i] <= |o.sel[i]|)
    && (forall i, j {:trigger ChunkKey(o, i, j)} ::
          0 <= i < |pre0| && pre0[i] <= j < pre1[i] ==> ChunkKey(o, i, j) == ChunkKey(o, i, pre0[i]))
  }

  ghost predicate BlockRuns(o: Selection, pre0: Index, pre1: Index)
    requires o.Valid()
  {
    && |pre0| == |pre1| <= |o.sel|
    && (forall i :: 0 <= i < |pre0| ==> pre0[i] < pre1[i] <= |o.sel[i]|)
    && (forall i, j {:trigger BlockKey(o, i, j)} ::
          0 <= i < |pre0| && pre0[i] <= j < pre1[i] ==> BlockKey(o, i, j) == BlockKey(o, i, pre0[i]))
  }

  /** The inner loop of `iter_chunk`. */
  method ChunkRun(o: Selection, k: nat, a: nat, top: nat) returns (b: nat)
    requires o.Valid() && k < |o.sel| && a < top <= |o.sel[k]|
    ensures a < b <= top && forall j :: a <= j < b ==> ChunkKey(o, k, j) == ChunkKey(o, k, a)
  {
    b := a + 1;
    while b < top && ChunkKey(o, k, b) == ChunkKey(o, k, a)
      invariant a < b <= top && forall j :: a <= j < b ==> ChunkKey(o, k, j) == ChunkKey(o, k, a)
    {
      b := b + 1;
    }
  }

  /** The inner loop of `iter_block_copy` and `iter_block_maskout`. */
  method BlockRun(o: Selection, k: nat, a: nat, top: nat) returns (b: nat)
    requires o.Valid() && k < |o.sel| && a < top <= |o.sel[k]|
    ensures a < b <= top && forall j :: a <= j < b ==> BlockKey(o, k, j) == BlockKey(o, k, a)
  {
    b := a + 1;
    while b < top && BlockKey(o, k, b) == BlockKey(o, k, a)
      invariant a < b <= top && forall j :: a <= j < b ==> BlockKey(o, k, j) == BlockKey(o, k, a)
    {
      b := b + 1;
    }
  }

  lemma AddChunkRun(o: Selection, pre0: Index, pre1: Index, a: nat, b: nat)
    requires o.Valid() && ChunkRuns(o, pre0, pre1) && |pre0| < |o.sel| && a < b <= |o.sel[|pre0|]|
    requires forall j :: a <= j < b ==> ChunkKey(o, |pre0|, j) == ChunkKey(o, |pre0|, a)
    ensures ChunkRuns(o, Tuple(pre0, a), Tuple(pre1, b))
  {
  }

  lemma AddBlockRun(o: Selection, pre0: Index, pre1: Index, a: nat, b: nat)
    requires o.Valid() && BlockRuns(o, pre0, pre1) && |pre0| < |o.sel| && a < b <= |o.sel[|pre0|]|
    requires forall j :: a <= j < b ==> BlockKey(o, |pre0|, j) == BlockKey(o, |pre0|, a)
    ensures BlockRuns(o, Tuple(pre0, a), Tuple(pre1, b))
  {
  }

  lemma AddCursor(o: Selection, base: Index, top: Index, pre0: Index, pre1: Index, a: nat, b: nat)
    requires Cursors(o, base, top, pre0, pre1) && |pre0| < |base| && base[|pre0|] <= a < b <= top[|pre0|]
    ensures Cursors(o, base, top, Tuple(pre0, a), Tuple(pre1, b))
  {
  }

  /** When every axis has its run, all tuples of the box lie in one chunk. */
  lemma OneChunkBox(o: Selection, lo: Index, hi: Index, p: Index)
    requires o.Valid() && |lo| == |o.sel| && ChunkRuns(o, lo, hi) && InSlice(p, lo, hi)
    ensures o.g.ChunkOf(o.Keys(p)) == o.g.ChunkOf(o.Keys(lo))
  {
    var a, b := o.g.ChunkOf(o.Keys(p)), o.g.ChunkOf(o.Keys(lo));
    forall i | 0 <= i < |p|
      ensures a[i] == b[i]
    {
      assert AxisValid(o.sel[i], o.bufshape[i]);
      assert ChunkKey(o, i, p[i]) == ChunkKey(o, i, lo[i]);
    }
  }

  lemma OneBlockBox(o: Selection, lo: Index, hi: Index, p: Index)
    requires o.Valid() && |lo| == |o.sel| && BlockRuns(o, lo, hi) && InSlice(p, lo, hi)
    ensures o.g.BlockOf(o.Keys(p)) == o.g.BlockOf(o.Keys(lo))
  {
    var a, b := o.g.BlockOf(o.Keys(p)), o.g.BlockOf(o.Keys(lo));
    forall i | 0 <= i < |p|
      ensures a[i] == b[i]
    {
      assert AxisValid(o.sel[i], o.bufshape[i]);
      assert BlockKey(o, i, p[i]) == BlockKey(o, i, lo[i]);
    }
  }

  // ---- the blocks that are needed

  /** Every tuple of the box lies in a block that is not masked out. */
  ghost predicate Opened(o: Selection, mask: seq<bool>, lo: Index, hi: Index)
    requires o.Valid() && |lo| == |hi| == |o.sel|
  {
    forall p: Index :: InSlice(p, lo, hi) ==> o.g.BlockNo(o.Keys(p)) < |mask| && !mask[o.g.BlockNo(o.Keys(p))]
  }

  ghost predicate StillOpen(mask: seq<bool>, was: seq<bool>) {
    |mask| == |was| && forall v :: 0 <= v < |mask| && !was[v] ==> !mask[v]
  }

  lemma OpenedMore(o: Selection, mask: seq<bool>, mid: seq<bool>, base: Index, top: Index, pre0: Index, pre1: Index,
                   a: nat, b: nat)
    requires o.Valid() && |base| == |top| == |o.sel| && |pre0| == |pre1| < |base| && base[|pre0|] <= a <= b
    requires Opened(o, mid, From(pre0, base), From(Tuple(pre1, a), top)) && StillOpen(mask, mid)
    requires Opened(o, mask, From(Tuple(pre0, a), base), From(Tuple(pre1, b), top))
    ensures Opened(o, mask, From(pre0, base), From(Tuple(pre1, b), top))
  {
    var k := |pre0|;
    var lo, hi := From(pre0, base), From(Tuple(pre1, b), top);
    FromLast(pre0, a, base, a);
    FromLast(pre1, b, top, a);
    hide From, Geometry.BlockNo, InSlice;
    forall p: Index | InSlice(p, lo, hi)
      ensures o.g.BlockNo(o.Keys(p)) < |mask| && !mask[o.g.BlockNo(o.Keys(p))]
    {
      SliceLength(p, lo, hi);
      BoxSplit(p, lo, hi, k, a);
    }
  }

  lemma SliceLength(p: Index, lo: Index, hi: Index)
    requires InSlice(p, lo, hi)
    ensures |p| == |lo| == |hi|
  {
  }

  lemma OpenedNone(o: Selection, mask: seq<bool>, base: Index, top: Index, pre0: Index, pre1: Index, a: nat)
    requires o.Valid() && |base| == |top| == |o.sel| && |pre0| == |pre1| < |base| && a <= base[|pre0|]
    ensures Opened(o, mask, From(pre0, base), From(Tuple(pre1, a), top))
  {
    var k, lo, hi := |pre0|, From(pre0, base), From(Tuple(pre1, a), top);
    forall p: Index
      ensures !InSlice(p, lo, hi)
    {
      EmptySlice(p, lo, hi, k);
    }
  }

  lemma EmptySlice(p: Index, lo: Index, hi: Index, k: nat)
    requires |lo| == |hi| && k < |lo| && hi[k] <= lo[k]
    ensures !InSlice(p, lo, hi)
  {
  }

  lemma OpenedEnd(o: Selection, mask: seq<bool>, base: Index, top: Index, pre0: Index, pre1: Index, a: nat)
    requires o.Valid() && |base| == |top| == |o.sel| && |pre0| == |pre1| < |base| && a == top[|pre0|]
    requires Opened(o, mask, From(pre0, base), From(Tuple(pre1, a), top))
    ensures Opened(o, mask, From(pre0, base), From(pre1, top))
  {
    FromLast(pre1, a, top, a);
  }

  lemma OpenedBlock(o: Selection, mask: seq<bool>, lo: Index, hi: Index, v: nat)
    requires o.Valid() && |lo| == |o.sel| && BlockRuns(o, lo, hi)
    requires v == o.g.BlockNo(o.Keys(lo)) < |mask| && !mask[v]
    ensures Opened(o, mask, lo, hi)
  {
    forall p: Index | InSlice(p, lo, hi)
      ensures o.g.BlockNo(o.Keys(p)) == v
    {
      OneBlockBox(o, lo, hi, p);
    }
  }

  /** The block of the first tuple of a box is a block of the chunk. */
  lemma FirstBlock(o: Selection, lo: Index, hi: Index)
    requires o.Valid() && |lo| == |o.sel| && BlockRuns(o, lo, hi)
    ensures InBox(lo, o.Sizes()) && o.g.BlockNo(o.Keys(lo)) < o.g.Blocks()
  {
    assert InBox(lo, o.Sizes());
    InnerBound(o.g, o.Keys(lo));
  }

  /** `iter_block_maskout`. */
  method MaskBlocks(o: Selection, base: Index, top: Index, pre0: Index, pre1: Index, mask: array<bool>)
    requires o.Valid() && Cursors(o, base, top, pre0, pre1) && BlockRuns(o, pre0, pre1)
    requires |base| == |top| == |o.sel| && |pre0| == |pre1| <= |base| && mask.Length == o.g.Blocks()
    modifies mask
    ensures Opened(o, mask[..], From(pre0, base), From(pre1, top)) && StillOpen(mask[..], old(mask[..]))
    decreases |o.sel| - |pre0|
  {
    hide *;
    SelectionLengths(o);
    var k := |pre0|;
    if k == |o.sel| {
      FirstBlock(o, pre0, pre1);
      var v := o.g.BlockNo(o.Keys(pre0));
      ghost var was := mask[..];
      mask[v] := false;
      StillOpenWith(mask[..], was, v);
      OpenedBlock(o, mask[..], pre0, pre1, v);
      FromAll(pre0, base);
      FromAll(pre1, top);
      return;
    }
    CursorBounds(o, base, top, pre0, pre1);
    var a: nat := base[k];
    OpenedNone(o, mask[..], base, top, pre0, pre1, a);
    StillOpenSame(mask[..]);
    while a < top[k]
      invariant base[k] <= a <= top[k]
      invariant Opened(o, mask[..], From(pre0, base), From(Tuple(pre1, a), top)) && StillOpen(mask[..], old(mask[..]))
    {
      ghost var mid := mask[..];
      var b := BlockRun(o, k, a, top[k]);
      AddBlockRun(o, pre0, pre1, a, b);
      AddCursor(o, base, top, pre0, pre1, a, b);
      MaskBlocks(o, base, top, Tuple(pre0, a), Tuple(pre1, b), mask);
      OpenedMore(o, mask[..], mid, base, top, pre0, pre1, a, b);
      StillOpenTwice(mask[..], mid, old(mask[..]));
      a := b;
    }
    OpenedEnd(o, mask[..], base, top, pre0, pre1, a);
  }

  lemma StillOpenWith(mask: seq<bool>, was: seq<bool>, v: nat)
    requires v < |was| && mask == was[v := false]
    ensures StillOpen(mask, was)
  {
  }

  lemma StillOpenSame(mask: seq<bool>)
    ensures StillOpen(mask, mask)
  {
  }

  lemma StillOpenTwice(mask: seq<bool>, mid: seq<bool>, was: seq<bool>)
    requires StillOpen(mask, mid) && StillOpen(mid, was)
    ensures StillOpen(mask, was)
  {
  }

  lemma FromAll(pre: Index, full: Index)
    requires |pre| == |full|
    ensures From(pre, full) == pre
  {
  }

  lemma CursorBounds(o: Selection, base: Index, top: Index, pre0: Index, pre1: Index)
    requires Cursors(o, base, top, pre0, pre1)
    ensures |base| == |top| == |o.sel| && forall i :: 0 <= i < |base| ==> base[i] <= top[i] <= |o.sel[i]|
  {
  }

  // ---- one chunk

  /** The tuples of a box lie in one chunk, and the blocks they lie in have been read. */
  ghost predicate ChunkReady(o: Selection, chunks: seq<seq<Item>>, data: seq<Item>, base: Index, top: Index, x: Index)
    requires o.Valid()
  {
    && BoxOf(o, base, top) && |x| == |o.sel| && Ravel(x, o.g.Grid()) < |chunks|
    && forall p: Index :: InSlice(p, base, top) ==> BlockRead(o, chunks, data, x, p)
  }

  ghost predicate BlockRead(o: Selection, chunks: seq<seq<Item>>, data: seq<Item>, x: Index, p: Index)
    requires o.Valid() && |x| == |o.sel|
  {
    && |p| == |o.sel| && o.g.ChunkOf(o.Keys(p)) == x && Ravel(x, o.g.Grid()) < |chunks|
    && var v := o.g.BlockNo(o.Keys(p));
       BlockFrom(data, Times(v, o.g.BlockItems()), chunks[Ravel(x, o.g.Grid())], v, o.g.BlockItems())
  }

  /** When every axis has its run, one block is all that is needed. */
  lemma ReadyBlock(o: Selection, chunks: seq<seq<Item>>, data: seq<Item>, base: Index, top: Index, x: Index,
                   lo: Index, hi: Index)
    requires o.Valid() && ChunkReady(o, chunks, data, base, top, x) && Cursors(o, base, top, lo, hi) && |lo| == |o.sel|
    requires BlockRuns(o, lo, hi)
    ensures BlockReady(o, chunks, data, Times(o.g.BlockNo(o.Keys(lo)), o.g.BlockItems()), lo, hi, x,
            o.g.BlockOf(o.Keys(lo)))
  {
    assert BoxOf(o, lo, hi);
    assert InSlice(lo, lo, hi);
    var y := o.g.BlockOf(o.Keys(lo));
    hide Ravel, Times, Volume, BlockFrom, Positive;
    forall p: Index | InSlice(p, lo, hi)
      ensures o.g.ChunkOf(o.Keys(p)) == x && o.g.BlockOf(o.Keys(p)) == y
    {
      SliceWithin(o, base, top, lo, hi, p);
      OneBlockBox(o, lo, hi, p);
      assert BlockRead(o, chunks, data, x, p);
    }
    SliceWithin(o, base, top, lo, hi, lo);
    assert BlockRead(o, chunks, data, x, lo);
  }

  lemma SliceWithin(o: Selection, base: Index, top: Index, lo: Index, hi: Index, p: Index)
    requires Cursors(o, base, top, lo, hi) && |lo| == |o.sel| && InSlice(p, lo, hi)
    ensures InSlice(p, base, top)
  {
  }

  /** `iter_block_copy`. */
  method CopyBlocks(o: Selection, ghost chunks: seq<seq<Item>>, data: seq<Item>, base: Index, top: Index,
                    ghost x: Index, pre0: Index, pre1: Index, buffer: array<Item>) returns (ghost copies: nat)
    requires o.Valid() && ChunkReady(o, chunks, data, base, top, x)
    requires Cursors(o, base, top, pre0, pre1) && BlockRuns(o, pre0, pre1)
    requires |base| == |top| == |o.sel| && |pre0| == |pre1| <= |base| && Volume(o.bufshape) <= buffer.Length
    modifies buffer
    ensures Copied(o, chunks, buffer[..], old(buffer[..]), From(pre0, base), From(pre1, top))
    ensures copies == Tuples(From(pre0, base), From(pre1, top))
    decreases |o.sel| - |pre0|
  {
    hide *;
    SelectionLengths(o);
    ghost var orig := buffer[..];
    var k := |pre0|;
    if k == |o.sel| {
      copies := CopyOneBlock(o, chunks, data, base, top, x, pre0, pre1, buffer);
      return;
    }
    CursorBounds(o, base, top, pre0, pre1);
    var a: nat := base[k];
    AxisStart(o, chunks, orig, base, top, pre0, pre1);
    copies := 0;
    NoTuples(base, top, pre0, pre1);
    while a < top[k]
      invariant base[k] <= a <= top[k]
      invariant Copied(o, chunks, buffer[..], orig, From(pre0, base), From(Tuple(pre1, a), top))
      invariant copies == Tuples(From(pre0, base), From(Tuple(pre1, a), top))
    {
      ghost var mid := buffer[..];
      var b := BlockRun(o, k, a, top[k]);
      AddBlockRun(o, pre0, pre1, a, b);
      AddCursor(o, base, top, pre0, pre1, a, b);
      ghost var n := CopyBlocks(o, chunks, data, base, top, x, Tuple(pre0, a), Tuple(pre1, b), buffer);
      MoreTuples(base, top, pre0, pre1, a, b);
      copies := copies + n;
      Extend(o, chunks, buffer[..], mid, orig, base, top, pre0, pre1, a, b);
      a := b;
    }
    AxisEnd(o, chunks, buffer[..], orig, base, top, pre0, pre1, a);
    AllTuples(base, top, pre0, pre1, a);
  }

  lemma AxisStart(o: Selection, chunks: seq<seq<Item>>, buf: seq<Item>, base: Index, top: Index, pre0: Index,
                  pre1: Index)
    requires o.Valid() && |base| == |top| == |o.sel| && |pre0| == |pre1| < |o.sel|
    ensures Copied(o, chunks, buf, buf, From(pre0, base), From(Tuple(pre1, base[|pre0|]), top))
  {
    CopiedNone(o, chunks, buf, From(pre0, base), From(Tuple(pre1, base[|pre0|]), top), |pre0|);
  }

  /** The innermost part of `iter_block_copy`, when the block is known. */
  method CopyOneBlock(o: Selection, ghost chunks: seq<seq<Item>>, data: seq<Item>, ghost base: Index,
                      ghost top: Index, ghost x: Index,
                      lo: Index, hi: Index, buffer: array<Item>) returns (ghost copies: nat)
    requires o.Valid() && ChunkReady(o, chunks, data, base, top, x)
    requires Cursors(o, base, top, lo, hi) && BlockRuns(o, lo, hi)
    requires |base| == |top| == |o.sel| == |lo| == |hi| && Volume(o.bufshape) <= buffer.Length
    modifies buffer
    ensures Copied(o, chunks, buffer[..], old(buffer[..]), From(lo, base), From(hi, top))
    ensures copies == Tuples(From(lo, base), From(hi, top))
  {
    hide *;
    SelectionLengths(o);
    ReadyBlock(o, chunks, data, base, top, x, lo, hi);
    var v := o.g.BlockNo(o.Keys(lo));
    NoCursor(lo, hi);
    copies := CopyBlock(o, chunks, data, Times(v, o.g.BlockItems()), lo, hi, x, o.g.BlockOf(o.Keys(lo)), [], buffer);
    FromAll(lo, base);
    FromAll(hi, top);
  }

  lemma NoCursor(lo: Index, hi: Index)
    requires |lo| == |hi|
    ensures Inside([], lo, hi) && From([], lo) == lo && From(Next([]), hi) == hi
  {
  }

  // ---- the whole array

  lemma NoCursors(o: Selection, lo: Index, hi: Index)
    requires o.Valid() && BoxOf(o, lo, hi)
    ensures Cursors(o, lo, hi, [], []) && BlockRuns(o, [], []) && ChunkRuns(o, [], [])
    ensures |lo| == |hi| == |o.sel| && From([], lo) == lo && From([], hi) == hi
  {
  }

  /** The blocks that were decompressed are those that the selection needs. */
  lemma ReadyChunk(o: Selection, chunks: seq<seq<Item>>, data: seq<Item>, mask: seq<bool>, lo: Index, hi: Index,
                   x: Index, c: nat)
    requires o.Valid() && |lo| == |hi| == |o.sel| && BoxOf(o, lo, hi) && ChunkRuns(o, lo, hi) && Opened(o, mask, lo, hi)
    requires x == o.g.ChunkOf(o.Keys(lo)) && c == Ravel(x, o.g.Grid()) < |chunks|
    requires forall v ::
             0 <= v < |mask| && !mask[v] ==> BlockFrom(data, Times(v, o.g.BlockItems()), chunks[c], v, o.g.BlockItems())
    ensures ChunkReady(o, chunks, data, lo, hi, x)
  {
    hide Ravel, Times, Volume, BlockFrom, Positive, ChunkRuns, Geometry.BlockNo, Geometry.ChunkOf;
    forall p: Index | InSlice(p, lo, hi)
      ensures BlockRead(o, chunks, data, x, p)
    {
      OneChunkBox(o, lo, hi, p);
    }
  }

  lemma FirstChunk(o: Selection, chunks: seq<seq<Item>>, lo: Index, hi: Index)
    requires o.Valid() && |lo| == |o.sel| && ChunkRuns(o, lo, hi) && Stored(o.g, chunks)
    ensures InSlice(lo, lo, hi) && |o.g.ChunkOf(o.Keys(lo))| == |o.g.Grid()|
    ensures o.g.ChunkNo(o.Keys(lo)) == Ravel(o.g.ChunkOf(o.Keys(lo)), o.g.Grid())
    ensures forall c :: 0 <= c < |chunks| ==> |chunks[c]| == Times(o.g.Blocks(), o.g.BlockItems())
    ensures AllStored(o, chunks, lo, hi) <==> o.g.ChunkNo(o.Keys(lo)) < |chunks|
  {
    hide Ravel, Times, Volume, Geometry.ChunkOf;
    forall p: Index | InSlice(p, lo, hi)
      ensures o.g.ChunkNo(o.Keys(p)) == o.g.ChunkNo(o.Keys(lo))
    {
      OneChunkBox(o, lo, hi, p);
    }
    assert InSlice(lo, lo, hi);
  }

  /** The chunk of every tuple of the box exists. */
  ghost predicate AllStored(o: Selection, chunks: seq<seq<Item>>, lo: Index, hi: Index)
    requires o.Valid() && |lo| == |hi| == |o.sel|
  {
    forall p: Index :: InSlice(p, lo, hi) ==> o.g.ChunkNo(o.Keys(p)) < |chunks|
  }

  /** One turn of a loop over an axis: both parts must exist. */
  lemma MoreStored(o: Selection, chunks: seq<seq<Item>>, base: Index, top: Index, pre0: Index, pre1: Index, a: nat,
                   b: nat)
    requires o.Valid() && |base| == |top| == |o.sel| && |pre0| == |pre1| < |base| && base[|pre0|] <= a <= b
    ensures AllStored(o, chunks, From(pre0, base), From(Tuple(pre1, b), top)) <==>
            AllStored(o, chunks, From(pre0, base), From(Tuple(pre1, a), top)) &&
            AllStored(o, chunks, From(Tuple(pre0, a), base), From(Tuple(pre1, b), top))
  {
    var k := |pre0|;
    var lo, hi := From(pre0, base), From(Tuple(pre1, b), top);
    FromLast(pre0, a, base, a);
    FromLast(pre1, b, top, a);
    hide From, Geometry.ChunkNo, InSlice;
    forall p: Index
      ensures InSlice(p, lo, hi) <==> InSlice(p, lo, hi[k := a]) || InSlice(p, lo[k := a], hi)
    {
      if |p| == |lo| {
        BoxSplit(p, lo, hi, k, a);
      } else {
        OtherLength(p, lo, hi, hi[k := a], lo[k := a]);
      }
    }
  }

  lemma OtherLength(p: Index, lo: Index, hi: Index, left: Index, right: Index)
    requires |p| != |lo| && |lo| == |hi| == |left| == |right|
    ensures !InSlice(p, lo, hi) && !InSlice(p, lo, left) && !InSlice(p, right, hi)
  {
  }

  /** A part that does not exist makes the whole axis fail. */
  lemma MissingPart(o: Selection, chunks: seq<seq<Item>>, base: Index, top: Index, pre0: Index, pre1: Index, a: nat,
                    b: nat)
    requires o.Valid() && |base| == |top| == |o.sel| && |pre0| == |pre1| < |base|
             && base[|pre0|] <= a <= b <= top[|pre0|]
    requires !AllStored(o, chunks, From(Tuple(pre0, a), base), From(Tuple(pre1, b), top))
    ensures !AllStored(o, chunks, From(pre0, base), From(pre1, top))
  {
    MoreStored(o, chunks, base, top, pre0, pre1, a, b);
    MoreStored(o, chunks, base, top, pre0, pre1, b, top[|pre0|]);
    FromLast(pre1, a, top, a);
  }

  lemma NoneStored(o: Selection, chunks: seq<seq<Item>>, base: Index, top: Index, pre0: Index, pre1: Index)
    requires o.Valid() && |base| == |top| == |o.sel| && |pre0| == |pre1| < |base|
    ensures AllStored(o, chunks, From(pre0, base), From(Tuple(pre1, base[|pre0|]), top))
  {
    forall p: Index
      ensures !InSlice(p, From(pre0, base), From(Tuple(pre1, base[|pre0|]), top))
    {
      EmptySlice(p, From(pre0, base), From(Tuple(pre1, base[|pre0|]), top), |pre0|);
    }
  }

  /** The innermost part of `iter_chunk`: mask, decompress and copy. */
  method CopyChunk(o: Selection, chunks: seq<seq<Item>>, lo: Index, hi: Index, data: array<Item>, buffer: array<Item>)
    returns (ok: bool, ghost copies: nat)
    requires o.Valid() && Stored(o.g, chunks) && BoxOf(o, lo, hi) && ChunkRuns(o, lo, hi) && |lo| == |hi| == |o.sel|
    requires data != buffer && data.Length == Times(o.g.Blocks(), o.g.BlockItems())
             && Volume(o.bufshape) <= buffer.Length
    modifies data, buffer
    ensures ok == AllStored(o, chunks, lo, hi)
    ensures ok ==> Copied(o, chunks, buffer[..], old(buffer[..]), lo, hi) && copies == Tuples(lo, hi)
  {
    hide *;
    SelectionLengths(o);
    FirstChunk(o, chunks, lo, hi);
    NoCursors(o, lo, hi);
    var c := o.g.ChunkNo(o.Keys(lo));
    ghost var x := o.g.ChunkOf(o.Keys(lo));
    ok := c < |chunks|;
    if !ok {
      return false, 0;
    }
    var mask := new bool[o.g.Blocks()](_ => true);
    MaskBlocks(o, lo, hi, [], [], mask);
    ghost var orig := buffer[..];
    DecompressMasked(chunks[c], mask[..], o.g.BlockItems(), data);
    assert buffer[..] == orig;
    ReadyChunk(o, chunks, data[..], mask[..], lo, hi, x, c);
    copies := CopyBlocks(o, chunks, data[..], lo, hi, x, [], [], buffer);
  }

  /** `iter_chunk`. */
  method CopyChunks(o: Selection, chunks: seq<seq<Item>>, base: Index, top: Index, pre0: Index, pre1: Index,
                    data: array<Item>, buffer: array<Item>) returns (ok: bool, ghost copies: nat)
    requires o.Valid() && Stored(o.g, chunks) && Cursors(o, base, top, pre0, pre1) && ChunkRuns(o, pre0, pre1)
    requires |base| == |top| == |o.sel| && |pre0| == |pre1| <= |base|
    requires data != buffer && data.Length == Times(o.g.Blocks(), o.g.BlockItems())
             && Volume(o.bufshape) <= buffer.Length
    modifies data, buffer
    ensures ok == AllStored(o, chunks, From(pre0, base), From(pre1, top))
    ensures ok ==> Copied(o, chunks, buffer[..], old(buffer[..]), From(pre0, base), From(pre1, top))
    ensures ok ==> copies == Tuples(From(pre0, base), From(pre1, top))
    decreases |o.sel| - |pre0|
  {
    hide *;
    SelectionLengths(o);
    ghost var orig := buffer[..];
    var k := |pre0|;
    if k == |o.sel| {
      AllSet(o, base, top, pre0, pre1);
      ok, copies := CopyChunk(o, chunks, pre0, pre1, data, buffer);
      return;
    }
    CursorBounds(o, base, top, pre0, pre1);
    var a: nat := base[k];
    AxisStart(o, chunks, orig, base, top, pre0, pre1);
    ok, copies := true, 0;
    NoneStored(o, chunks, base, top, pre0, pre1);
    NoTuples(base, top, pre0, pre1);
    while a < top[k]
      invariant base[k] <= a <= top[k]
      invariant Copied(o, chunks, buffer[..], orig, From(pre0, base), From(Tuple(pre1, a), top))
      invariant copies == Tuples(From(pre0, base), From(Tuple(pre1, a), top))
      invariant ok && AllStored(o, chunks, From(pre0, base), From(Tuple(pre1, a), top))
    {
      ghost var mid := buffer[..];
      var b := ChunkRun(o, k, a, top[k]);
      AddChunkRun(o, pre0, pre1, a, b);
      AddCursor(o, base, top, pre0, pre1, a, b);
      ghost var n;
      ok, n := CopyChunks(o, chunks, base, top, Tuple(pre0, a), Tuple(pre1, b), data, buffer);
      if !ok {
        MissingPart(o, chunks, base, top, pre0, pre1, a, b);
        return false, 0;
      }
      MoreStored(o, chunks, base, top, pre0, pre1, a, b);
      MoreTuples(base, top, pre0, pre1, a, b);
      copies := copies + n;
      Extend(o, chunks, buffer[..], mid, orig, base, top, pre0, pre1, a, b);
      a := b;
    }
    AxisEnd(o, chunks, buffer[..], orig, base, top, pre0, pre1, a);
    AllTuples(base, top, pre0, pre1, a);
    FromLast(pre1, a, top, a);
  }

  lemma AllSet(o: Selection, base: Index, top: Index, pre0: Index, pre1: Index)
    requires Cursors(o, base, top, pre0, pre1) && |pre0| == |pre1| == |base| == |top| == |o.sel|
    ensures From(pre0, base) == pre0 && From(pre1, top) == pre1 && BoxOf(o, pre0, pre1)
  {
  }

  // ---- sorting the coordinates

  function Entries(keys: seq<int>): (r: seq<Entry>)
    ensures |r| == |keys| && forall j :: 0 <= j < |keys| ==> r[j] == Entry(keys[j], j)
  {
    seq(|keys|, j requires 0 <= j < |keys| => Entry(keys[j], j))
  }

  lemma TwiceInMultiset(s: seq<Entry>, p: nat, r: nat)
    requires p < r < |s| && s[p] == s[r]
    ensures multiset(s)[s[p]] >= 2
  {
    assert s == s[..r] + s[r..];
    assert s[..r][p] == s[p] && s[r..][0] == s[p];
    assert multiset(s) == multiset(s[..r]) + multiset(s[r..]);
    assert s[p] in multiset(s[..r]) && s[p] in multiset(s[r..]);
  }

  lemma {:induction false} OnceInEntries(s: seq<Entry>, e: Entry)
    requires forall i, k :: 0 <= i < k < |s| ==> s[i].index != s[k].index
    ensures multiset(s)[e] <= 1
  {
    if s != [] {
      assert s == [s[0]] + s[1..];
      OnceInEntries(s[1..], e);
      forall k | 0 <= k < |s| - 1
        ensures s[1..][k] != s[0]
      {
        assert s[1..][k] == s[k + 1];
      }
      assert s[0] !in s[1..];
    }
  }

  /** After sorting, each coordinate is still there once, with the index it was given at. */
  lemma SortedAxis(keys: seq<int>, m: nat)
    requires |keys| <= m && forall j :: 0 <= j < |keys| ==> 0 <= keys[j]
    ensures var s := Sort(Entries(keys));
            && |s| == |keys| && AxisValid(s, m)
            && forall p :: 0 <= p < |s| ==> s[p].index < |keys| && s[p].key == keys[s[p].index]
  {
    var e := Entries(keys);
    var s := Sort(e);
    SortCorrect(e);
    assert |multiset(s)| == |multiset(e)|;
    hide Sort;
    forall p | 0 <= p < |s|
      ensures s[p].index < |keys| && s[p].key == keys[s[p].index]
    {
      assert s[p] in multiset(s);
      assert s[p] in e;
    }
    forall p, r | 0 <= p < r < |s|
      ensures s[p].index != s[r].index
    {
      if s[p].index == s[r].index {
        TwiceInMultiset(s, p, r);
        OnceInEntries(e, s[p]);
      }
    }
  }

  /** And every index can be found again. */
  lemma SortedFind(keys: seq<int>, j: nat)
    requires j < |keys|
    ensures var s := Sort(Entries(keys)); Find(s, j) < |s| && s[Find(s, j)].key == keys[j]
  {
    var e := Entries(keys);
    var s := Sort(e);
    SortCorrect(e);
    hide Sort;
    assert e[j] in multiset(s);
    var p :| 0 <= p < |s| && s[p] == e[j];
    FindSome(s, p);
    var f := Find(s, j);
    assert s[f] in multiset(s);
    assert s[f] in e;
  }

  lemma {:induction false} FindSome(s: seq<Entry>, p: nat)
    requires p < |s|
    ensures Find(s, s[p].index) < |s|
  {
    if s[0].index != s[p].index {
      FindSome(s[1..], p - 1);
    }
  }

  // ---- the whole operation

  /** The selected index for a buffer index. */
  function Chosen1(sel: seq<seq<int>>, q: Index): (r: Index)
    requires |q| == |sel|
    ensures |r| == |q|
  {
    seq(|q|, i requires 0 <= i < |q| => if q[i] < |sel[i]| && sel[i][q[i]] >= 0 then sel[i][q[i]] else 0)
  }

  /** The shape of the product. */
  function Lengths(sel: seq<seq<int>>): (r: Index)
    ensures |r| == |sel|
  {
    seq(|sel|, i requires 0 <= i < |sel| => |sel[i]|)
  }

  /** The qsort loop over the axes. */
  method SortAxes(sel: seq<seq<int>>) returns (ordered: seq<seq<Entry>>)
    ensures |ordered| == |sel| && forall i :: 0 <= i < |sel| ==> ordered[i] == Sort(Entries(sel[i]))
  {
    ordered := [];
    for i := 0 to |sel|
      invariant |ordered| == i && forall k :: 0 <= k < i ==> ordered[k] == Sort(Entries(sel[k]))
    {
      ordered := ordered + [Sort(Entries(sel[i]))];
    }
  }

  /** Lists of entries that fit the buffer's shape; an entry need not be a coordinate of the array. */
  ghost predicate Listed(g: Geometry, sel: seq<seq<int>>, bufshape: Index) {
    && g.Valid() && |sel| == |g.shape| == |bufshape| > 0
    && (forall i :: 0 <= i < |sel| ==> |sel[i]| <= bufshape[i])
    && (forall i, j :: 0 <= i < |sel| && 0 <= j < |sel[i]| ==> 0 <= sel[i][j])
  }

  lemma SortedSelection(g: Geometry, sel: seq<seq<int>>, bufshape: Index, ordered: seq<seq<Entry>>)
    requires Listed(g, sel, bufshape)
    requires |ordered| == |sel| && forall i :: 0 <= i < |sel| ==> ordered[i] == Sort(Entries(sel[i]))
    ensures Selection(g, ordered, bufshape).Valid()
  {
    forall i | 0 <= i < |sel|
      ensures AxisValid(ordered[i], bufshape[i])
    {
      SortedAxis(sel[i], bufshape[i]);
    }
  }

  /** The box of all tuples. */
  lemma WholeBox(o: Selection, sel: seq<seq<int>>)
    requires o.Valid() && |o.sel| == |sel| && forall i :: 0 <= i < |sel| ==> o.sel[i] == Sort(Entries(sel[i]))
    ensures BoxOf(o, Zero(|sel|), o.Sizes()) && Tuples(Zero(|sel|), o.Sizes()) == Volume(Lengths(sel))
  {
    forall i | 0 <= i < |sel|
      ensures |o.sel[i]| == |sel[i]|
    {
      SortCorrect(Entries(sel[i]));
      assert |multiset(o.sel[i])| == |multiset(Entries(sel[i]))|;
    }
    assert Minus(o.Sizes(), Zero(|sel|)) == Lengths(sel);
  }

  /** The buffer holds the selected elements, each where its place in the original lists says. */
  ghost predicate Selected(g: Geometry, chunks: seq<seq<Item>>, sel: seq<seq<int>>, bufshape: Index, buf: seq<Item>,
                           was: seq<Item>)
    requires g.Valid() && |sel| == |g.shape| == |bufshape|
  {
    forall q: Index :: InBox(q, bufshape) ==>
      At(buf, Ravel(q, bufshape)) ==
      if InLists(q, sel) then Value(g, chunks, Chosen1(sel, q)) else At(was, Ravel(q, bufshape))
  }

  predicate InLists(q: Index, sel: seq<seq<int>>)
    requires |q| == |sel|
  {
    forall i :: 0 <= i < |q| ==> q[i] < |sel[i]|
  }

  lemma SelectedItem(g: Geometry, sel: seq<seq<int>>, bufshape: Index, o: Selection, q: Index)
    requires Listed(g, sel, bufshape) && o.g == g && o.bufshape == bufshape && |o.sel| == |sel| == |q|
    requires forall i :: 0 <= i < |sel| ==> o.sel[i] == Sort(Entries(sel[i]))
    ensures InSlice(o.Where(q), Zero(|q|), o.Sizes()) <==> InLists(q, sel)
    ensures InLists(q, sel) ==> o.Keys(o.Where(q)) == Chosen1(sel, q)
  {
    var w := o.Where(q);
    forall i | 0 <= i < |q|
      ensures w[i] < o.Sizes()[i] <==> q[i] < |sel[i]|
      ensures q[i] < |sel[i]| ==> o.Keys(w)[i] == Chosen1(sel, q)[i]
    {
      hide Sort, InSlice, InLists;
      SortedAxis(sel[i], bufshape[i]);
      if q[i] < |sel[i]| {
        SortedFind(sel[i], q[i]);
      }
    }
  }

  lemma SelectedAll(g: Geometry, chunks: seq<seq<Item>>, sel: seq<seq<int>>, o: Selection, buf: seq<Item>,
                    was: seq<Item>)
    requires Listed(g, sel, o.bufshape) && o.g == g && |o.sel| == |sel| && o.Valid()
    requires forall i :: 0 <= i < |sel| ==> o.sel[i] == Sort(Entries(sel[i]))
    requires Copied(o, chunks, buf, was, Zero(|sel|), o.Sizes())
    ensures Selected(g, chunks, sel, o.bufshape, buf, was)
  {
    hide Ravel, Value, Sort, Find, InLists, InSlice, Listed, Selection.Valid;
    SelectionLengths(o);
    forall q: Index | InBox(q, o.bufshape)
      ensures At(buf, Ravel(q, o.bufshape)) ==
              if InLists(q, sel) then Value(g, chunks, Chosen1(sel, q)) else At(was, Ravel(q, o.bufshape))
    {
      SelectedItem(g, sel, o.bufshape, o, q);
    }
  }

  /** The chunk of every selected tuple exists. */
  ghost predicate AllThere(g: Geometry, chunks: seq<seq<Item>>, sel: seq<seq<int>>)
    requires g.Valid() && |sel| == |g.shape|
  {
    forall q: Index :: |q| == |sel| && InLists(q, sel) ==> g.ChunkNo(Chosen1(sel, q)) < |chunks|
  }

  /** The walk over the sorted lists finds a missing chunk exactly if a selected tuple needs one. */
  lemma StoredIsThere(g: Geometry, chunks: seq<seq<Item>>, sel: seq<seq<int>>, o: Selection)
    requires Listed(g, sel, o.bufshape) && o.g == g && |o.sel| == |sel| && o.Valid()
    requires forall i :: 0 <= i < |sel| ==> o.sel[i] == Sort(Entries(sel[i]))
    ensures AllStored(o, chunks, Zero(|sel|), o.Sizes()) <==> AllThere(g, chunks, sel)
  {
    hide Sort, Find, Listed, Selection.Valid, Geometry.ChunkNo;
    SelectionLengths(o);
    var lo, hi := Zero(|sel|), o.Sizes();
    if AllStored(o, chunks, lo, hi) {
      forall q: Index | |q| == |sel| && InLists(q, sel)
        ensures g.ChunkNo(Chosen1(sel, q)) < |chunks|
      {
        hide InLists, InSlice;
        SelectedItem(g, sel, o.bufshape, o, q);
      }
    }
    if AllThere(g, chunks, sel) {
      forall p: Index | InSlice(p, lo, hi)
        ensures g.ChunkNo(o.Keys(p)) < |chunks|
      {
        TupleChosen(g, sel, o, p);
      }
    }
  }

  lemma TupleChosen(g: Geometry, sel: seq<seq<int>>, o: Selection, p: Index)
    requires Listed(g, sel, o.bufshape) && o.g == g && |o.sel| == |sel| && o.Valid()
    requires forall i :: 0 <= i < |sel| ==> o.sel[i] == Sort(Entries(sel[i]))
    requires InSlice(p, Zero(|sel|), o.Sizes())
    ensures |p| == |sel| && InLists(o.Slots(p), sel) && Chosen1(sel, o.Slots(p)) == o.Keys(p)
  {
    SliceInSizes(o, p);
    hide InLists, Listed, Selection.Valid, Find, Sort, InSlice, InBox;
    WhereSlots(o, p, o.Slots(p));
    SelectedItem(g, sel, o.bufshape, o, o.Slots(p));
  }

  lemma SliceInSizes(o: Selection, p: Index)
    requires InSlice(p, Zero(|o.sel|), o.Sizes())
    ensures InBox(p, o.Sizes()) && |p| == |o.sel|
  {
  }

  /** The bounds check of `orthogonal_selection`, with the comparison it is written with. */
  predicate PassesCheck(g: Geometry, sel: seq<seq<int>>) {
    forall i, j :: 0 <= i < |sel| && i < |g.shape| && 0 <= j < |sel[i]| ==> sel[i][j] <= g.shape[i]
  }

  /** Every entry is a coordinate of the array. */
  predicate Coordinates(g: Geometry, sel: seq<seq<int>>) {
    forall i, j :: 0 <= i < |sel| && i < |g.shape| && 0 <= j < |sel[i]| ==> 0 <= sel[i][j] < g.shape[i]
  }

  predicate NoneNegative(sel: seq<seq<int>>) {
    forall i, j :: 0 <= i < |sel| && 0 <= j < |sel[i]| ==> 0 <= sel[i][j]
  }

  /** The bytes of the selected items: `sel_size`. */
  function Product(sel: seq<seq<int>>, typesize: nat, n: nat): nat
    requires n <= |sel|
  {
    if n == 0 then typesize else Product(sel, typesize, n - 1) * |sel[n - 1]|
  }

  /** The two checks before the walk; the second asks for a buffer that is not larger than the selection. */
  predicate Accepted(g: Geometry, sel: seq<seq<int>>, typesize: nat, buffersize: int) {
    PassesCheck(g, sel) && buffersize <= Product(sel, typesize, |sel|)
  }

  /** `orthogonal_selection` for a read. */
  method GetOrthogonal(g: Geometry, chunks: seq<seq<Item>>, sel: seq<seq<int>>, bufshape: Index, typesize: nat,
                       buffersize: int, buffer: array<Item>) returns (ok: bool, ghost copies: nat)
    requires Stored(g, chunks) && |sel| == |g.shape| == |bufshape| > 0 && Volume(bufshape) <= buffer.Length
    requires forall i :: 0 <= i < |sel| ==> |sel[i]| <= bufshape[i]
    requires Accepted(g, sel, typesize, buffersize) ==> NoneNegative(sel)
    modifies buffer
    ensures ok <==> Accepted(g, sel, typesize, buffersize) && AllThere(g, chunks, sel)
    ensures ok ==> Selected(g, chunks, sel, bufshape, buffer[..], old(buffer[..])) && copies == Volume(Lengths(sel))
    ensures !Accepted(g, sel, typesize, buffersize) ==> buffer[..] == old(buffer[..])
  {
    copies := 0;
    for i := 0 to |sel|
      invariant forall k, j :: 0 <= k < i && 0 <= j < |sel[k]| ==> sel[k][j] <= g.shape[k]
    {
      if exists j :: 0 <= j < |sel[i]| && sel[i][j] > g.shape[i] {
        return false, 0;
      }
    }
    var size := typesize;
    for i := 0 to |sel|
      invariant size == Product(sel, typesize, i)
    {
      size := size * |sel[i]|;
    }
    if size < buffersize {
      return false, 0;
    }
    ok, copies := Select(g, chunks, sel, bufshape, buffer);
  }

  /** Sort and walk.  Every tuple of the product is copied, and `copies` items are copied in all: each tuple once. */
  method Select(g: Geometry, chunks: seq<seq<Item>>, sel: seq<seq<int>>, bufshape: Index, buffer: array<Item>)
    returns (ok: bool, ghost copies: nat)
    requires Stored(g, chunks) && Listed(g, sel, bufshape) && Volume(bufshape) <= buffer.Length
    modifies buffer
    ensures ok <==> AllThere(g, chunks, sel)
    ensures ok ==> Selected(g, chunks, sel, bufshape, buffer[..], old(buffer[..])) && copies == Volume(Lengths(sel))
  {
    var ordered := SortAxes(sel);
    var o := Selection(g, ordered, bufshape);
    SortedSelection(g, sel, bufshape, ordered);
    var base, top := Zero(|sel|), o.Sizes();
    var data := new Item[Times(g.Blocks(), g.BlockItems())];
    ghost var was := buffer[..];
    hide *;
    WholeBox(o, sel);
    NoCursors(o, base, top);
    ok, copies := CopyChunks(o, chunks, base, top, [], [], data, buffer);
    StoredIsThere(g, chunks, sel, o);
    if ok {
      SelectedAll(g, chunks, sel, o, buffer[..], was);
    }
  }
}
