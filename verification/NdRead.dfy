/**
 Reading a slice: the read half of `get_set_slice` (blosc/b2nd.c) with its fast, masked and
 compact paths.
 */
module NdRead {
  import opened Arith
  import opened NdIndex
  import opened NdGeometry
  import opened NdBlocks
  import opened NdCopy
  import opened NdSlice
  import opened NdFastPath
  import opened NdChunkList

  // ---- one chunk

  /** The blocks that were not masked out can be read from the scratch buffer. */
  lemma MaskedReadable(s: Slice, x: Index, chunk: seq<Item>, mask: seq<bool>, data: seq<Item>)
    requires s.Valid() && |x| == |s.g.shape| && Positive(s.g.BlockGrid()) && |mask| == s.g.Blocks()
    requires forall v :: 0 <= v < |mask| ==> mask[v] == BlockEmpty(s.g, s.start, s.stop, x, Unravel(v, s.g.BlockGrid()))
    requires forall v ::
             0 <= v < |mask| && !mask[v] ==> BlockFrom(data, Times(v, s.g.BlockItems()), chunk, v, s.g.BlockItems())
    ensures Readable(s, x, chunk, false, data)
  {
  }

  /** Decompress what a read needs of one chunk, unless the compact path will do it block by block. */
  method Fetch(s: Slice, x: Index, chunk: seq<Item>, onDisk: bool, data: array<Item>) returns (compact: bool)
    requires s.Valid() && |x| == |s.g.shape| && |chunk| == data.Length == s.g.ChunkItems() && Positive(s.g.BlockGrid())
    modifies data
    ensures Readable(s, x, chunk, compact, data[..])
  {
    var mask, needed := BlockMask(s, x);
    compact := needed * s.g.BlockItems() * (if onDisk then 4 else 16) <= s.g.ChunkItems();
    if !compact {
      DecompressMasked(chunk, mask, s.g.BlockItems(), data);
      MaskedReadable(s, x, chunk, mask, data[..]);
    }
  }

  method GetBlocks(s: Slice, chunks: seq<seq<Item>>, ghost u: nat, x: Index, c: nat, compact: bool,
                   data: array<Item>, buffer: array<Item>)
    requires s.Valid() && Stored(s.g, chunks) && data != buffer
    requires u < Volume(s.Count()) && Positive(s.Count()) && Positive(s.g.BlockGrid()) && x == s.ChunkAt(u)
    requires c == Ravel(x, s.g.Grid()) < |chunks| && Readable(s, x, chunks[c], compact, data[..])
    requires Got(s, chunks, buffer[..], u, 0)
    modifies buffer
    ensures Got(s, chunks, buffer[..], u + 1, 0)
  {
    assert |chunks[c]| == s.g.ChunkItems();
    hide Got, Readable, Ravel, Volume, Unravel, Positive, Slice.ChunkAt, Slice.Count, Geometry.ChunkItems,
         Geometry.Blocks;
    for v := 0 to s.g.Blocks()
      invariant Got(s, chunks, buffer[..], u, v)
    {
      GetBlock(s, chunks, u, x, chunks[c], compact, data, v, buffer);
    }
    GotChunk(s, chunks, buffer[..], u);
  }

  /** One turn of the loop over the chunks that the slice touches. */
  method GetChunk(s: Slice, first: Index, count: Index, chunks: seq<seq<Item>>, u: nat, onDisk: bool,
                  data: array<Item>, buffer: array<Item>)
    requires s.Valid() && Stored(s.g, chunks) && data != buffer && data.Length == s.g.ChunkItems()
    requires first == s.First() && count == s.Count()
    requires u < Volume(s.Count()) && Positive(s.Count()) && Got(s, chunks, buffer[..], u, 0)
    modifies data, buffer
    ensures Got(s, chunks, buffer[..], u + 1, 0)
  {
    hide Got, Volume;
    var off := UnidimToMultidim(count, u);
    var x := Plus(off, first);
    if ChunkEmpty(s.g, s.start, s.stop, x) {
      GotNoChunk(s, chunks, buffer[..], u);
      return;
    }
    ChunkExists(s, x);
    var c := Ravel(x, s.g.Grid());
    BlockGridPositive(s.g);
    ghost var before := buffer[..];
    var compact := Fetch(s, x, chunks[c], onDisk, data);
    assert buffer[..] == before;
    GetBlocks(s, chunks, u, x, c, compact, data, buffer);
  }

  // ---- the fast path

  /** The slice is exactly one chunk whose blocks lie in row-major order: `nchunk_fastpath`. */
  ghost predicate OneChunk(s: Slice)
    requires s.Valid()
  {
    && (forall i :: 0 <= i < |s.start| ==>
          s.start[i] % s.g.chunkshape[i] == 0 && s.stop[i] - s.start[i] == s.g.chunkshape[i])
    && RowMajorBlocks(s.g.chunkshape, s.g.blockshape)
  }

  /** The buffer has the strides of a chunk along every axis on which a chunk is not flat. */
  predicate SameLayout(chunk: Index, buf: Index)
    requires |chunk| == |buf|
  {
    chunk == [] || (SameLayout(chunk[1..], buf[1..]) && (chunk[0] > 1 ==> chunk[1..] == buf[1..]))
  }

  lemma {:induction false} LayoutAgrees(q: Index, chunk: Index, buf: Index)
    requires |chunk| == |buf| && SameLayout(chunk, buf) && InBox(q, chunk)
    ensures Ravel(q, chunk) == Ravel(q, buf)
  {
    if chunk != [] {
      BoxCons(q, chunk);
      LayoutAgrees(q[1..], chunk[1..], buf[1..]);
    }
  }

  /** Where the layouts differ, some index of a chunk has another position in the buffer. */
  lemma {:induction false} LayoutDiffers(chunk: Index, buf: Index) returns (q: Index)
    requires |chunk| == |buf| && Positive(chunk) && !SameLayout(chunk, buf)
    requires forall i :: 0 <= i < |chunk| ==> chunk[i] <= buf[i]
    ensures InBox(q, chunk) && InBox(q, buf) && Ravel(q, chunk) != Ravel(q, buf)
  {
    if SameLayout(chunk[1..], buf[1..]) {
      q := [1] + Zero(|chunk| - 1);
      VolumeWithin(chunk[1..], buf[1..]);
      VolumePositive(chunk[1..]);
      assert q[1..] == Zero(|chunk| - 1);
      RavelZero(chunk[1..]);
      RavelZero(buf[1..]);
    } else {
      var r := LayoutDiffers(chunk[1..], buf[1..]);
      q := [0] + r;
      assert q[1..] == r;
      BoxCons(q, chunk);
      BoxCons(q, buf);
    }
  }

  lemma {:induction false} RavelZero(shape: Index)
    ensures Ravel(Zero(|shape|), shape) == 0
  {
    if shape != [] {
      assert Zero(|shape|)[1..] == Zero(|shape| - 1);
      RavelZero(shape[1..]);
    }
  }

  /** Four elements in a buffer of two rows of four: four items pass the check, but the last one is at position five. */
  lemma RoomExample()
    ensures var s := Slice(Geometry([4, 4], [4, 4], [2, 2]), [0, 0], [2, 2], [2, 4]);
            s.Valid() && Enough(s, 4) && s.Room() == 6
  {
    var s := Slice(Geometry([4, 4], [4, 4], [2, 2]), [0, 0], [2, 2], [2, 4]);
    assert Minus(s.stop, s.start) == [2, 2] && Far(Zero(2), [2, 2]) == [1, 1];
    OneAxis([1], [4]);
    assert [1, 1][1..] == [1] && s.bufshape[1..] == [4] && [2, 2][1..] == [2];
    OneAxis([1], [2]);
  }

  /** In such a slice the place of an element in its chunk is its row-major position in the slice. */
  lemma FastPlace(s: Slice, idx: Index)
    requires s.Valid() && OneChunk(s) && InSlice(idx, s.start, s.stop)
    ensures Positive(s.g.chunkshape) && s.g.ChunkOf(idx) == s.First() && InBox(Minus(idx, s.start), s.g.chunkshape)
    ensures s.g.Place(idx) == Ravel(Minus(idx, s.start), s.g.chunkshape)
  {
    var item := Minus(idx, s.start);
    forall i | 0 <= i < |idx|
      ensures s.g.ChunkOf(idx)[i] == s.First()[i] && idx[i] % s.g.chunkshape[i] == item[i]
    {
      var c, q := s.g.chunkshape[i], s.start[i] / s.g.chunkshape[i];
      DivIsUnique(idx[i], c, q, item[i]);
    }
    assert Mod(idx, s.g.chunkshape) == item;
    BlockMajorIsRowMajor(item, s.g.chunkshape, s.g.blockshape);
  }

  lemma FastItems(s: Slice)
    requires s.Valid() && OneChunk(s)
    ensures Volume(s.g.chunkshape) == s.g.ChunkItems() <= s.Room()
  {
    WholeBlocks(s.g.chunkshape, s.g.blockshape);
    RoomBounds(s);
    assert Minus(s.stop, s.start) == s.g.chunkshape;
  }

  lemma {:induction false} RavelLast(size: Index)
    requires Positive(size)
    ensures Ravel(Far(Zero(|size|), size), size) + 1 == Volume(size)
  {
    if size != [] {
      assert Far(Zero(|size|), size)[1..] == Far(Zero(|size| - 1), size[1..]);
      RavelLast(size[1..]);
      MulDistrib(size[0] - 1, 1, Volume(size[1..]));
    }
  }

  lemma {:induction false} RavelWithin(q: Index, small: Index, large: Index)
    requires |q| == |small| && Within(small, large)
    ensures Ravel(q, small) <= Ravel(q, large)
  {
    if small != [] {
      RavelWithin(q[1..], small[1..], large[1..]);
      VolumeWithin(small[1..], large[1..]);
      MulMono(Volume(small[1..]), Volume(large[1..]), q[0]);
    }
  }

  /** The room is at least the number of elements and at most that of the buffer's shape. */
  lemma RoomBounds(s: Slice)
    requires s.Valid()
    ensures Volume(Minus(s.stop, s.start)) <= s.Room() <= Volume(s.bufshape)
  {
    var size := Minus(s.stop, s.start);
    VolumeZero(size);
    if Positive(size) {
      var last := Far(Zero(|size|), size);
      RavelLast(size);
      RavelWithin(last, size, s.bufshape);
      RavelBound(last, s.bufshape);
    }
  }

  /** In a buffer of another layout the last element of a slice lies further. */
  lemma {:induction false} LastFurther(size: Index, buf: Index)
    requires Within(size, buf) && Positive(size) && !SameLayout(size, buf)
    ensures Ravel(Far(Zero(|size|), size), size) < Ravel(Far(Zero(|size|), size), buf)
  {
    var last := Far(Zero(|size|), size);
    assert last[1..] == Far(Zero(|size| - 1), size[1..]);
    VolumeWithin(size[1..], buf[1..]);
    VolumePositive(size[1..]);
    RavelWithin(last[1..], size[1..], buf[1..]);
    MulMono(Volume(size[1..]), Volume(buf[1..]), last[0]);
    if SameLayout(size[1..], buf[1..]) {
      MulPositive(last[0], Volume(buf[1..]) - Volume(size[1..]));
    } else {
      LastFurther(size[1..], buf[1..]);
    }
  }

  /** The check that the buffer has the bytes of the slice is enough exactly when the slice has the buffer's layout. */
  lemma RoomExact(s: Slice)
    requires s.Valid()
    ensures var size := Minus(s.stop, s.start);
            s.Room() == Volume(size) <==> Volume(size) == 0 || SameLayout(size, s.bufshape)
  {
    var size := Minus(s.stop, s.start);
    VolumeZero(size);
    if Positive(size) {
      RavelLast(size);
      if SameLayout(size, s.bufshape) {
        LayoutAgrees(Far(Zero(|size|), size), size, s.bufshape);
      } else {
        LastFurther(size, s.bufshape);
      }
    }
  }

  /** The first chunk of the slice is one of the chunks of the array. */
  lemma FirstExists(s: Slice)
    requires s.Valid() && OneChunk(s)
    ensures |s.First()| == |s.g.shape| && Ravel(s.First(), s.g.Grid()) < s.g.Chunks()
  {
    forall i | 0 <= i < |s.start|
      ensures s.First()[i] < s.g.Grid()[i]
    {
      PartOf(s.start[i], s.g.shape[i], s.g.chunkshape[i]);
    }
    RavelBound(s.First(), s.g.Grid());
  }

  /** The buffer after the fast path: the chunk as it is stored, then zeros. */
  ghost predicate Dumped(buf: seq<Item>, chunk: seq<Item>) {
    forall i :: 0 <= i < |buf| ==> buf[i] == At(chunk, i)
  }

  lemma DumpedItem(s: Slice, chunks: seq<seq<Item>>, buf: seq<Item>, q: Index)
    requires s.Valid() && OneChunk(s) && Ravel(s.First(), s.g.Grid()) < |chunks| && InBox(q, s.bufshape)
    requires |buf| >= s.Room() && Dumped(buf, chunks[Ravel(s.First(), s.g.Grid())])
    requires InSlice(Plus(q, s.start), s.start, s.stop)
    ensures InBox(q, s.g.chunkshape)
    ensures At(buf, Ravel(q, s.bufshape)) == At(chunks[Ravel(s.First(), s.g.Grid())], Ravel(q, s.bufshape))
    ensures Value(s.g, chunks, Plus(q, s.start)) == At(chunks[Ravel(s.First(), s.g.Grid())], Ravel(q, s.g.chunkshape))
  {
    var idx := Plus(q, s.start);
    hide Slice.Room, RowMajorBlocks, Ravel, Volume;
    assert Minus(idx, s.start) == q;
    FastPlace(s, idx);
    InRoom(s, idx);
  }

  /** Past the chunk's own part of the buffer, in a buffer of the same layout. */
  lemma {:induction false} LayoutOutside(q: Index, chunk: Index, buf: Index)
    requires |chunk| == |buf| && SameLayout(chunk, buf) && Positive(chunk) && InBox(q, buf) && !InBox(q, chunk)
    requires forall i :: 0 <= i < |chunk| ==> chunk[i] <= buf[i]
    ensures Ravel(q, buf) >= Volume(chunk)
  {
    BoxCons(q, chunk);
    BoxCons(q, buf);
    if q[0] >= chunk[0] {
      VolumeWithin(chunk[1..], buf[1..]);
      MulMono(chunk[0], q[0], Volume(buf[1..]));
      MulMono(Volume(chunk[1..]), Volume(buf[1..]), chunk[0]);
    } else {
      LayoutOutside(q[1..], chunk[1..], buf[1..]);
    }
  }

  /** The fast path is right when the layouts agree. */
  lemma FastRead(s: Slice, chunks: seq<seq<Item>>, buf: seq<Item>)
    requires s.Valid() && OneChunk(s) && Stored(s.g, chunks) && |buf| >= s.Room()
    requires Ravel(s.First(), s.g.Grid()) < |chunks| && Dumped(buf, chunks[Ravel(s.First(), s.g.Grid())])
    requires SameLayout(s.g.chunkshape, s.bufshape)
    ensures SliceRead(s, chunks, buf)
  {
    FastItems(s);
    var chunk := chunks[Ravel(s.First(), s.g.Grid())];
    assert |chunk| == Volume(s.g.chunkshape);
    forall q: Index | InBox(q, s.bufshape)
      ensures At(buf, Ravel(q, s.bufshape)) ==
              if InSlice(Plus(q, s.start), s.start, s.stop) then Value(s.g, chunks, Plus(q, s.start)) else 0
    {
      hide Value, SameLayout, RowMajorBlocks, Ravel, Volume;
      FastReadItem(s, chunks, buf, q);
    }
  }

  lemma FastReadItem(s: Slice, chunks: seq<seq<Item>>, buf: seq<Item>, q: Index)
    requires s.Valid() && OneChunk(s) && |buf| >= s.Room() && InBox(q, s.bufshape)
    requires Ravel(s.First(), s.g.Grid()) < |chunks| && Dumped(buf, chunks[Ravel(s.First(), s.g.Grid())])
    requires |chunks[Ravel(s.First(), s.g.Grid())]| == Volume(s.g.chunkshape)
    requires SameLayout(s.g.chunkshape, s.bufshape)
    ensures At(buf, Ravel(q, s.bufshape)) ==
            if InSlice(Plus(q, s.start), s.start, s.stop) then Value(s.g, chunks, Plus(q, s.start)) else 0
  {
    var idx := Plus(q, s.start);
    if InSlice(idx, s.start, s.stop) {
      hide Value, RowMajorBlocks, Volume, Ravel;
      DumpedItem(s, chunks, buf, q);
      LayoutAgrees(q, s.g.chunkshape, s.bufshape);
    } else {
      assert forall i :: 0 <= i < |q| ==> (q[i] < s.g.chunkshape[i] <==> s.start[i] <= idx[i] < s.stop[i]);
      assert !InBox(q, s.g.chunkshape);
      LayoutOutside(q, s.g.chunkshape, s.bufshape);
      RavelBound(q, s.bufshape);
    }
  }

  /** When the layouts differ, some array is read wrongly, whatever the buffer held. */
  lemma FastMisread(s: Slice) returns (chunks: seq<seq<Item>>)
    requires s.Valid() && OneChunk(s) && !SameLayout(s.g.chunkshape, s.bufshape)
    ensures Stored(s.g, chunks) && Ravel(s.First(), s.g.Grid()) < |chunks|
    ensures forall buf ::
            |buf| >= s.Room() && Dumped(buf, chunks[Ravel(s.First(), s.g.Grid())]) ==> !SliceRead(s, chunks, buf)
  {
    FirstExists(s);
    FastItems(s);
    chunks := Telltale(s.g.Chunks(), s.g.ChunkItems());
    var q := LayoutDiffers(s.g.chunkshape, s.bufshape);
    RavelBound(q, s.g.chunkshape);
    var idx := Plus(q, s.start);
    assert InSlice(idx, s.start, s.stop);
    hide Value, SameLayout, RowMajorBlocks, Ravel, Volume;
    forall buf: seq<Item> | |buf| >= s.Room() && Dumped(buf, chunks[Ravel(s.First(), s.g.Grid())])
      ensures !SliceRead(s, chunks, buf)
    {
      DumpedItem(s, chunks, buf, q);
    }
  }

  /** A buffer of the shape of the slice has the layout of the chunk. */
  lemma {:induction false} SameShapeSameLayout(chunk: Index)
    ensures SameLayout(chunk, chunk)
  {
    if chunk != [] {
      SameShapeSameLayout(chunk[1..]);
    }
  }

  /** The slice of a single chunk is listed as that chunk alone: the check in `nchunk_fastpath` never fails. */
  lemma OneChunkListed(s: Slice)
    requires s.Valid() && OneChunk(s)
    ensures Positive(s.Count()) && Volume(s.g.shape) > 0
    ensures Listed(s, Volume(s.Count())) == [Ravel(s.First(), s.g.Grid())]
  {
    OneTurn(s);
    FirstTurn(s);
    hide Slice.Count, Slice.First, Slice.ChunkAt, Volume, OneChunk, Ravel, ChunkEmpty, Positive, Geometry.Grid;
    assert Listed(s, 0) == [];
    assert Listed(s, 1) == [Ravel(s.First(), s.g.Grid())];
  }

  lemma OneTurn(s: Slice)
    requires s.Valid() && OneChunk(s)
    ensures Volume(s.Count()) == 1 && Volume(s.g.shape) > 0 && forall i :: 0 <= i < |s.start| ==> s.Count()[i] == 1
    ensures Positive(s.Count()) && !ChunkEmpty(s.g, s.start, s.stop, s.First())
  {
    CountPositive(s);
    forall i | 0 <= i < |s.start|
      ensures s.Count()[i] == 1 && s.g.shape[i] > 0
    {
      OneStep(s.start[i], s.stop[i], s.g.chunkshape[i]);
    }
    VolumePositive(s.g.shape);
    VolumeOnes(s.Count());
    ChunkMeets(s.g, s.start, s.stop, s.First(), s.start);
  }

  lemma OneStep(start: nat, stop: nat, c: nat)
    requires c > 0 && start % c == 0 && stop == start + c
    ensures Count1(start, stop, c) == 1
  {
    var f := start / c;
    MulDistrib(f, 1, c);
    DivIsUnique(stop, c, f + 1, 0);
  }

  lemma {:induction false} VolumeOnes(shape: Index)
    requires forall i :: 0 <= i < |shape| ==> shape[i] == 1
    ensures Volume(shape) == 1
  {
    if shape != [] {
      VolumeOnes(shape[1..]);
    }
  }

  lemma OneChunkSize(s: Slice)
    requires s.Valid()
    ensures OneChunk(s) ==> Volume(Minus(s.stop, s.start)) == Volume(s.g.chunkshape)
  {
    if OneChunk(s) {
      assert Minus(s.stop, s.start) == s.g.chunkshape;
    }
  }

  /** `nchunk_fastpath`: the number of the chunk, or -1. */
  method NchunkFastpath(s: Slice, size: nat) returns (c: int)
    requires s.Valid() && size == Volume(Minus(s.stop, s.start))
    ensures c >= 0 <==> OneChunk(s)
    ensures c >= 0 ==> c == Ravel(s.First(), s.g.Grid())
  {
    OneChunkSize(s);
    if size != Volume(s.g.chunkshape) {
      return -1;
    }
    for i := 0 to |s.start|
      invariant forall k ::
                0 <= k < i ==> s.start[k] % s.g.chunkshape[k] == 0 && s.stop[k] - s.start[k] == s.g.chunkshape[k]
    {
      if s.start[i] % s.g.chunkshape[i] != 0 || s.stop[i] - s.start[i] != s.g.chunkshape[i] {
        return -1;
      }
    }
    var ok := CheckBlocks(s.g.chunkshape, s.g.blockshape);
    if !ok {
      return -1;
    }
    OneChunkListed(s);
    var list := SliceChunks(s);
    c := list[0];
  }

  // ---- the whole read

  /** `memset` to zero. */
  method Clear(buffer: array<Item>)
    modifies buffer
    ensures forall i :: 0 <= i < buffer.Length ==> buffer[i] == 0
  {
    forall i | 0 <= i < buffer.Length {
      buffer[i] := 0;
    }
  }

  /** The slice fits the buffer along each axis. */
  ghost predicate Fits(s: Slice) {
    |s.start| == |s.stop| == |s.bufshape| && forall i :: 0 <= i < |s.start| ==> s.stop[i] <= s.start[i] + s.bufshape[i]
  }

  /** The buffer has at least as many items as the slice: `buffersize` and `slice_nbytes`. */
  predicate Enough(s: Slice, length: nat)
    requires |s.start| == |s.stop|
  {
    Volume(Minus(s.stop, s.start)) <= length
  }

  /** The loop over the axes that checks the buffer shape and computes the size of the slice. */
  method CheckShape(s: Slice) returns (ok: bool, size: nat)
    requires SliceOf(s.g, s.start, s.stop) && |s.bufshape| == |s.g.shape|
    ensures ok == Fits(s)
    ensures ok ==> size == Volume(Minus(s.stop, s.start))
  {
    ghost var shape := Minus(s.stop, s.start);
    size := 1;
    for i := 0 to |s.start|
      invariant forall k :: 0 <= k < i ==> s.stop[k] - s.start[k] <= s.bufshape[k]
      invariant Times(size, Volume(shape[i..])) == Volume(shape)
    {
      if s.stop[i] - s.start[i] > s.bufshape[i] {
        return false, 0;
      }
      assert shape[i..][1..] == shape[i + 1..];
      MulAssoc(size, shape[i], Volume(shape[i + 1..]));
      size := size * (s.stop[i] - s.start[i]);
    }
    ok := true;
    assert shape[|s.start|..] == [];
  }

  method GetChunks(s: Slice, chunks: seq<seq<Item>>, onDisk: bool, buffer: array<Item>)
    requires s.Valid() && Stored(s.g, chunks) && Got(s, chunks, buffer[..], 0, 0)
    modifies buffer
    ensures SliceRead(s, chunks, buffer[..])
  {
    CountPositive(s);
    var data := new Item[s.g.ChunkItems()];
    var first, count := ChunkRange(s);
    assert buffer[..] == old(buffer[..]);
    hide Got, SliceRead, Volume, Positive, Slice.Count, Slice.First, Slice.Valid, Stored;
    for u := 0 to Volume(count)
      invariant Got(s, chunks, buffer[..], u, 0)
    {
      GetChunk(s, first, count, chunks, u, onDisk, data, buffer);
    }
    GotAll(s, chunks, buffer[..]);
  }

  lemma NothingToRead(s: Slice, chunks: seq<seq<Item>>, buf: seq<Item>)
    requires s.Valid() && Volume(s.g.shape) == 0
    requires forall i :: 0 <= i < |buf| ==> buf[i] == 0
    ensures SliceRead(s, chunks, buf)
  {
    NoRoom(s);
    forall q: Index | InBox(q, s.bufshape)
      ensures !InSlice(Plus(q, s.start), s.start, s.stop)
    {
      if InSlice(Plus(q, s.start), s.start, s.stop) {
        RavelBound(Plus(q, s.start), s.g.shape);
      }
    }
  }

  lemma NoRoom(s: Slice)
    requires s.Valid() && Volume(s.g.shape) == 0
    ensures s.Room() == 0
  {
    VolumeWithin(Minus(s.stop, s.start), s.g.shape);
  }

  /** Where the read is promised to be right: off the fast path, or when the buffer has the layout of the chunk. */
  ghost predicate ReadsRight(s: Slice)
    requires s.Valid()
  {
    OneChunk(s) ==> SameLayout(s.g.chunkshape, s.bufshape)
  }

  /**
   `get_set_slice` for a read, with the zeroing of the buffer, the checks and the choice of path.
   `onDisk` says where the chunks are kept.
   */
  method GetSlice(s: Slice, chunks: seq<seq<Item>>, onDisk: bool, buffer: array<Item>) returns (ok: bool)
    requires SliceOf(s.g, s.start, s.stop) && |s.bufshape| == |s.g.shape| > 0 && Stored(s.g, chunks)
    requires s.Valid() && Enough(s, buffer.Length) ==> s.Room() <= buffer.Length
    modifies buffer
    ensures ok == (Volume(s.g.shape) == 0 || (Fits(s) && Enough(s, buffer.Length)))
    ensures ok && s.Valid() && ReadsRight(s) ==> SliceRead(s, chunks, buffer[..])
    ensures ok && s.Valid() && !ReadsRight(s) ==>
            Ravel(s.First(), s.g.Grid()) < |chunks| && Dumped(buffer[..], chunks[Ravel(s.First(), s.g.Grid())])
    ensures !ok || !s.Valid() ==> forall i :: 0 <= i < buffer.Length ==> buffer[i] == 0
  {
    Clear(buffer);
    if Volume(s.g.shape) == 0 {
      if s.Valid() {
        NothingToRead(s, chunks, buffer[..]);
        NotOneChunk(s);
      }
      return true;
    }
    var size;
    ok, size := CheckShape(s);
    if !ok {
      return;
    }
    if buffer.Length < size {
      return false;
    }
    var c := NchunkFastpath(s, size);
    if c >= 0 {
      FastGet(s, chunks, c, size, buffer);
    } else {
      GotStart(s, chunks, buffer[..]);
      GetChunks(s, chunks, onDisk, buffer);
    }
  }

  lemma NotOneChunk(s: Slice)
    requires s.Valid() && Volume(s.g.shape) == 0
    ensures !OneChunk(s)
  {
    if OneChunk(s) {
      OneChunkListed(s);
    }
  }

  /** The fast path of a read: decompress the chunk straight into the buffer. */
  method FastGet(s: Slice, chunks: seq<seq<Item>>, c: nat, size: nat, buffer: array<Item>)
    requires s.Valid() && OneChunk(s) && Stored(s.g, chunks) && c == Ravel(s.First(), s.g.Grid())
    requires s.Room() <= buffer.Length && size == Volume(Minus(s.stop, s.start))
    requires forall i :: 0 <= i < buffer.Length ==> buffer[i] == 0
    modifies buffer
    ensures c < |chunks| && Dumped(buffer[..], chunks[c])
    ensures SameLayout(s.g.chunkshape, s.bufshape) ==> SliceRead(s, chunks, buffer[..])
  {
    FirstExists(s);
    FastItems(s);
    assert Minus(s.stop, s.start) == s.g.chunkshape;
    CopyItems(buffer, 0, chunks[c], 0, size);
    if SameLayout(s.g.chunkshape, s.bufshape) {
      FastRead(s, chunks, buffer[..]);
    }
  }

  /** With a buffer of the shape of the slice every path reads right. */
  lemma ExactShapeReadsRight(s: Slice)
    requires s.Valid() && s.bufshape == Minus(s.stop, s.start)
    ensures ReadsRight(s)
  {
    if OneChunk(s) {
      assert s.bufshape == s.g.chunkshape;
      SameShapeSameLayout(s.bufshape);
    }
  }
}
