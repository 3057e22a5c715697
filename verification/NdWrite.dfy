/**
 Writing a slice: what one chunk's turn of the write half of `get_set_slice` (blosc/b2nd.c) does
 to the chunk.
 */
module NdWrite {
  import opened Arith
  import opened NdIndex
  import opened NdGeometry
  import opened NdBlocks
  import opened NdCopy
  import opened NdSlice

  /**
   The scratch buffer of chunk `x` when its first `v` blocks are done: the elements of the slice in
   those blocks come from `buf`, the others from what the scratch buffer held at first.
   */
  ghost predicate Filled(s: Slice, x: Index, orig: seq<Item>, data: seq<Item>, buf: seq<Item>, v: nat)
    requires s.Valid() && |x| == |s.g.shape|
  {
    |data| == s.g.ChunkItems() &&
    forall idx: Index :: InBox(idx, s.g.shape) && s.g.ChunkOf(idx) == x ==>
      At(data, s.g.Place(idx)) == Laid(s, orig, buf, v, idx)
  }

  function Laid(s: Slice, orig: seq<Item>, buf: seq<Item>, v: nat, idx: Index): Item
    requires s.g.Valid() && |idx| == |s.start| == |s.bufshape| == |s.g.shape|
  {
    if InSlice(idx, s.start, s.stop) && s.g.BlockNo(idx) < v then At(buf, s.BufferPos(idx))
      else At(orig, s.g.Place(idx))
  }

  /** The box of a copy, seen from the block: the elements of the slice. */
  lemma InBlockBox(s: Slice, x: Index, y: Index, idx: Index, base: nat)
    requires s.Valid() && |x| == |y| == |s.g.shape| && !BlockEmpty(s.g, s.start, s.stop, x, y)
    requires InBox(idx, s.g.shape) && s.g.ChunkOf(idx) == x && s.g.BlockOf(idx) == y
    ensures In(s.g.ItemOf(idx), BlockView(s, x, y, base).start, BlockSize(s, x, y)) <==> InSlice(idx, s.start, s.stop)
  {
    var lo, hi, b, item := Lo(s.g, s.start, x, y), Hi(s.g, s.stop, x, y), BlockStart(s.g, x, y), s.g.ItemOf(idx);
    BlockBox(s.g, s.start, s.stop, x, y);
    ItemInBlock(s.g, x, y, idx);
    assert Plus(item, b) == idx;
    BoxShift(item, b, lo, hi);
    assert InSlice(idx, lo, hi) ==> InSlice(idx, s.start, s.stop);
    if InSlice(idx, s.start, s.stop) {
      BlockMeets(s.g, s.start, s.stop, x, y, idx);
    }
  }

  /** Such an element is taken from its position in the buffer. */
  lemma FromBuffer(s: Slice, x: Index, y: Index, idx: Index)
    requires s.Valid() && |x| == |y| == |s.g.shape| && !BlockEmpty(s.g, s.start, s.stop, x, y)
    requires InSlice(idx, s.start, s.stop) && s.g.ChunkOf(idx) == x && s.g.BlockOf(idx) == y
    ensures Shift(s.g.ItemOf(idx), BlockView(s, x, y, 0).start, BufferView(s, x, y).start) == Minus(idx, s.start)
  {
    ShiftFacts(s, x, y, idx);
    ShiftVector(s.g.ItemOf(idx), BlockStart(s.g, x, y), Lo(s.g, s.start, x, y), s.start, Minus(idx, s.start));
  }

  /** An element of the block that is copied. */
  lemma PutHere(s: Slice, x: Index, y: Index, orig: seq<Item>, data: seq<Item>, data': seq<Item>, buf: seq<Item>,
                v: nat, idx: Index)
    requires s.Valid() && |x| == |y| == |s.g.shape| && !BlockEmpty(s.g, s.start, s.stop, x, y)
    requires InBox(idx, s.g.shape) && s.g.ChunkOf(idx) == x && s.g.BlockOf(idx) == y && s.g.BlockNo(idx) == v
    requires At(data, s.g.Place(idx)) == At(orig, s.g.Place(idx))
    requires Moved(data', data, buf, BlockView(s, x, y, Times(v, s.g.BlockItems())), BufferView(s, x, y),
             BlockSize(s, x, y))
    ensures At(data', s.g.Place(idx)) == Laid(s, orig, buf, v + 1, idx)
  {
    var base, item := Times(v, s.g.BlockItems()), s.g.ItemOf(idx);
    PartsInside(s.g, idx);
    InBlockBox(s, x, y, idx, base);
    hide Ravel, Times, Volume, In, BlockEmpty, Geometry.ItemOf;
    assert s.g.Place(idx) == base + Ravel(item, s.g.blockshape);
    if InSlice(idx, s.start, s.stop) {
      FromBuffer(s, x, y, idx);
    }
  }

  /** Elements of other blocks stay as they are. */
  lemma PutThere(g: Geometry, data: seq<Item>, data': seq<Item>, v: nat, idx: Index)
    requires g.Valid() && InBox(idx, g.shape) && g.BlockNo(idx) != v
    requires SameOutside(data', data, Times(v, g.BlockItems()), Times(v, g.BlockItems()) + g.BlockItems())
    ensures At(data', g.Place(idx)) == At(data, g.Place(idx))
  {
    PlaceBound(g, idx);
    BlocksApart(g.BlockNo(idx), v, g.BlockItems());
    BlocksApart(v, g.BlockNo(idx), g.BlockItems());
  }

  lemma FilledBlock(s: Slice, x: Index, orig: seq<Item>, data: seq<Item>, data': seq<Item>, buf: seq<Item>, v: nat)
    requires s.Valid() && |x| == |s.g.shape| && Positive(s.g.BlockGrid()) && v < s.g.Blocks()
    requires Filled(s, x, orig, data, buf, v)
    requires var y, base := Unravel(v, s.g.BlockGrid()), Times(v, s.g.BlockItems());
             && !BlockEmpty(s.g, s.start, s.stop, x, y)
             && Moved(data', data, buf, BlockView(s, x, y, base), BufferView(s, x, y), BlockSize(s, x, y))
             && SameOutside(data', data, base, base + s.g.BlockItems())
    ensures Filled(s, x, orig, data', buf, v + 1)
  {
    var v' := v + 1;
    var y := Unravel(v, s.g.BlockGrid());
    assert |data'| == |data|;
    hide Unravel, BlockEmpty, Moved, SameOutside, Geometry.Place, Geometry.BlockNo, Geometry.Blocks,
         Geometry.BlockItems, Slice.BufferPos;
    forall idx: Index | InBox(idx, s.g.shape) && s.g.ChunkOf(idx) == x
      ensures At(data', s.g.Place(idx)) == Laid(s, orig, buf, v', idx)
    {
      BlockNoIsBlock(s.g, idx, v);
      if s.g.BlockNo(idx) == v {
        PutHere(s, x, y, orig, data, data', buf, v, idx);
      } else {
        PutThere(s.g, data, data', v, idx);
      }
    }
  }

  lemma FilledNothing(s: Slice, x: Index, orig: seq<Item>, data: seq<Item>, buf: seq<Item>, v: nat)
    requires s.Valid() && |x| == |s.g.shape| && Positive(s.g.BlockGrid()) && v < s.g.Blocks()
    requires Filled(s, x, orig, data, buf, v)
    requires BlockEmpty(s.g, s.start, s.stop, x, Unravel(v, s.g.BlockGrid()))
    ensures Filled(s, x, orig, data, buf, v + 1)
  {
    var v' := v + 1;
    hide Unravel, BlockEmpty, Geometry.Place, Geometry.BlockNo, Geometry.Blocks, Geometry.BlockItems, Slice.BufferPos;
    forall idx: Index | InBox(idx, s.g.shape) && s.g.ChunkOf(idx) == x
      ensures At(data, s.g.Place(idx)) == Laid(s, orig, buf, v', idx)
    {
      BlockNoIsBlock(s.g, idx, v);
      if InSlice(idx, s.start, s.stop) {
        BlockMeets(s.g, s.start, s.stop, x, Unravel(v, s.g.BlockGrid()), idx);
      }
    }
  }

  /** Copy the part of the slice in one block, if any, from the buffer into the scratch buffer. */
  method PutBlock(s: Slice, x: Index, ghost orig: seq<Item>, data: array<Item>, buf: seq<Item>, v: nat)
    requires s.Valid() && |x| == |s.g.shape| && Positive(s.g.BlockGrid()) && v < s.g.Blocks()
    requires Filled(s, x, orig, data[..], buf, v) && s.Room() <= |buf|
    modifies data
    ensures Filled(s, x, orig, data[..], buf, v + 1)
  {
    var y := UnidimToMultidim(s.g.BlockGrid(), v);
    if BlockEmpty(s.g, s.start, s.stop, x, y) {
      FilledNothing(s, x, orig, data[..], buf, v);
      return;
    }
    var base := Times(v, s.g.BlockItems());
    BlocksApart(v, s.g.Blocks(), s.g.BlockItems());
    ViewsValid(s, x, y, base, data.Length, |buf|);
    ghost var before := data[..];
    CopyBuffer(BlockSize(s, x, y), buf, BufferView(s, x, y), data, BlockView(s, x, y, base));
    FilledBlock(s, x, orig, before, data[..], buf, v);
  }

  /** All blocks of one chunk. */
  method PutBlocks(s: Slice, x: Index, data: array<Item>, buf: seq<Item>)
    requires s.Valid() && |x| == |s.g.shape| && data.Length == s.g.ChunkItems() && s.Room() <= |buf|
    modifies data
    ensures Filled(s, x, old(data[..]), data[..], buf, s.g.Blocks())
  {
    ghost var orig := data[..];
    BlockGridPositive(s.g);
    hide Volume, Positive, Unravel, Geometry.Blocks, Geometry.ChunkItems, Slice.Valid, Geometry.BlockGrid;
    for v := 0 to s.g.Blocks()
      invariant Filled(s, x, orig, data[..], buf, v)
    {
      PutBlock(s, x, orig, data, buf, v);
    }
  }

  // ---- the array after some turns

  /** The array when the first `u` turns are done. */
  ghost predicate Put(s: Slice, orig: seq<seq<Item>>, chunks: seq<seq<Item>>, buf: seq<Item>, u: nat)
    requires s.Valid()
  {
    Stored(s.g, chunks) &&
    forall idx: Index :: InBox(idx, s.g.shape) ==>
      Value(s.g, chunks, idx) ==
      if InSlice(idx, s.start, s.stop) && s.Turn(idx) < u then At(buf, s.BufferPos(idx)) else Value(s.g, orig, idx)
  }

  /** `decompress_chunk`: the slice does not cover the whole chunk. */
  predicate Partial(s: Slice, x: Index)
    requires |x| == |s.start| == |s.stop| == |s.g.shape| == |s.g.chunkshape|
  {
    exists i :: 0 <= i < |x| && (Times(x[i], s.g.chunkshape[i]) < s.start[i]
           || ChunkStop1(s.g.shape[i], s.g.chunkshape[i], x[i]) > s.stop[i])
  }

  lemma Covered(s: Slice, x: Index, idx: Index)
    requires s.Valid() && |x| == |s.g.shape| && !Partial(s, x) && InBox(idx, s.g.shape) && s.g.ChunkOf(idx) == x
    ensures InSlice(idx, s.start, s.stop)
  {
    forall i | 0 <= i < |idx|
      ensures s.start[i] <= idx[i] < s.stop[i]
    {
      ChunkAxis(idx[i], s.g.shape[i], s.g.chunkshape[i], x[i]);
      assert !(Times(x[i], s.g.chunkshape[i]) < s.start[i]
             || ChunkStop1(s.g.shape[i], s.g.chunkshape[i], x[i]) > s.stop[i]);
    }
  }

  /** The chunk that holds an index has the number of that index. */
  lemma ChunkNoIsChunk(g: Geometry, idx: Index, x: Index)
    requires g.Valid() && InBox(idx, g.shape) && InBox(x, g.Grid())
    ensures g.ChunkNo(idx) < g.Chunks()
    ensures g.ChunkNo(idx) == Ravel(x, g.Grid()) <==> g.ChunkOf(idx) == x
  {
    PartsInside(g, idx);
    PlaceBound(g, idx);
    if g.ChunkNo(idx) == Ravel(x, g.Grid()) {
      RavelInjective(g.ChunkOf(idx), x, g.Grid());
    }
  }

  /** The value of one element after the chunk of turn `u` was replaced. */
  lemma PutItem(s: Slice, orig: seq<seq<Item>>, chunks: seq<seq<Item>>, was: seq<Item>, data: seq<Item>,
                buf: seq<Item>, u: nat, c: nat, idx: Index)
    requires s.Valid() && |chunks| == s.g.Chunks() && u < Volume(s.Count()) && Positive(s.Count())
             && InBox(idx, s.g.shape)
    requires var x := s.ChunkAt(u);
             && InBox(x, s.g.Grid()) && c == Ravel(x, s.g.Grid()) < |chunks|
             && (Partial(s, x) ==> was == chunks[c])
             && Filled(s, x, was, data, buf, s.g.Blocks())
    requires Value(s.g, chunks, idx) ==
      if InSlice(idx, s.start, s.stop) && s.Turn(idx) < u then At(buf, s.BufferPos(idx)) else Value(s.g, orig, idx)
    ensures Value(s.g, chunks[c := data], idx) ==
      if InSlice(idx, s.start, s.stop) && s.Turn(idx) < u + 1 then At(buf, s.BufferPos(idx)) else Value(s.g, orig, idx)
  {
    var x := s.ChunkAt(u);
    ChunkNoIsChunk(s.g, idx, x);
    if InSlice(idx, s.start, s.stop) {
      TurnIsChunk(s, idx, u);
    }
    if s.g.ChunkOf(idx) == x {
      PlaceBound(s.g, idx);
      if !Partial(s, x) {
        Covered(s, x, idx);
      }
      hide Partial, Slice.Turn, Slice.ChunkAt, Slice.BufferPos, Geometry.Place, Geometry.BlockNo, Geometry.Blocks,
           Geometry.ChunkNo, Geometry.ChunkOf, Volume, Ravel;
      assert At(data, s.g.Place(idx)) == Laid(s, was, buf, s.g.Blocks(), idx);
    }
  }

  lemma PutChunk(s: Slice, orig: seq<seq<Item>>, chunks: seq<seq<Item>>, was: seq<Item>, data: seq<Item>,
                 buf: seq<Item>, u: nat, c: nat)
    requires s.Valid() && Put(s, orig, chunks, buf, u) && u < Volume(s.Count()) && Positive(s.Count())
    requires var x := s.ChunkAt(u);
             && InBox(x, s.g.Grid()) && c == Ravel(x, s.g.Grid()) < |chunks|
             && (Partial(s, x) ==> was == chunks[c])
             && Filled(s, x, was, data, buf, s.g.Blocks())
    ensures Put(s, orig, chunks[c := data], buf, u + 1)
  {
    var u' := u + 1;
    assert Stored(s.g, chunks[c := data]);
    hide Value, Partial, Filled, Slice.ChunkAt, Slice.Turn, Slice.BufferPos, Ravel, Volume, InSlice;
    forall idx: Index | InBox(idx, s.g.shape)
      ensures Value(s.g, chunks[c := data], idx) ==
        if InSlice(idx, s.start, s.stop) && s.Turn(idx) < u' then At(buf, s.BufferPos(idx)) else Value(s.g, orig, idx)
    {
      PutItem(s, orig, chunks, was, data, buf, u, c, idx);
    }
  }

  lemma PutNoChunk(s: Slice, orig: seq<seq<Item>>, chunks: seq<seq<Item>>, buf: seq<Item>, u: nat)
    requires s.Valid() && Put(s, orig, chunks, buf, u) && u < Volume(s.Count()) && Positive(s.Count())
    requires ChunkEmpty(s.g, s.start, s.stop, s.ChunkAt(u))
    ensures Put(s, orig, chunks, buf, u + 1)
  {
    var u' := u + 1;
    hide Value, ChunkEmpty, Slice.BufferPos, Ravel, Volume;
    forall idx: Index | InBox(idx, s.g.shape)
      ensures Value(s.g, chunks, idx) ==
        if InSlice(idx, s.start, s.stop) && s.Turn(idx) < u' then At(buf, s.BufferPos(idx)) else Value(s.g, orig, idx)
    {
      if InSlice(idx, s.start, s.stop) && s.Turn(idx) == u {
        TurnIsChunk(s, idx, u);
        ChunkMeets(s.g, s.start, s.stop, s.ChunkAt(u), idx);
      }
    }
  }

  /** The slice holds the buffer and every other element is as it was. */
  ghost predicate SliceWritten(s: Slice, orig: seq<seq<Item>>, chunks: seq<seq<Item>>, buf: seq<Item>)
    requires s.Valid()
  {
    Stored(s.g, chunks) &&
    forall idx: Index :: InBox(idx, s.g.shape) ==>
      Value(s.g, chunks, idx) == if InSlice(idx, s.start, s.stop) then At(buf, s.BufferPos(idx))
        else Value(s.g, orig, idx)
  }

  lemma PutAll(s: Slice, orig: seq<seq<Item>>, chunks: seq<seq<Item>>, buf: seq<Item>)
    requires s.Valid() && Put(s, orig, chunks, buf, Volume(s.Count()))
    ensures SliceWritten(s, orig, chunks, buf)
  {
    hide Value, Slice.BufferPos;
    forall idx: Index | InBox(idx, s.g.shape)
      ensures Value(s.g, chunks, idx) == if InSlice(idx, s.start, s.stop) then At(buf, s.BufferPos(idx))
              else Value(s.g, orig, idx)
    {
      if InSlice(idx, s.start, s.stop) {
        TurnInBox(s, idx);
        RavelBound(Minus(s.g.ChunkOf(idx), s.First()), s.Count());
      }
    }
  }
}
