/**
 The array object: its geometry and its list of chunks, with `b2nd_get_slice_cbuffer`,
 `b2nd_set_slice_cbuffer`, `b2nd_get_sparse_cbuffer` and `b2nd_resize` (blosc/b2nd.c).
 */
module NdArrays {
  import opened Arith
  import opened NdIndex
  import opened NdGeometry
  import opened NdBlocks
  import opened NdCopy
  import opened NdSlice
  import opened NdFastPath
  import opened NdRead
  import opened NdWrite
  import opened NdResize

  class NdArray {
    var g: Geometry
    var chunks: seq<seq<Item>>
    /** The shape in the metalayer, which is what other handles see. */
    var published: Index
    /** What other handles could see after each change so far. */
    ghost var trace: seq<Snapshot>

    ghost predicate Valid()
      reads this
    {
      Stored(g, chunks) && published == g.shape
    }

    /** The element at an index. */
    ghost function Element(idx: Index): Item
      reads this
      requires Valid() && |idx| == |g.shape|
    {
      Value(g, chunks, idx)
    }

    constructor (geometry: Geometry, items: seq<seq<Item>>)
      requires Stored(geometry, items)
      ensures Valid() && g == geometry && chunks == items
    {
      g, chunks, published, trace := geometry, items, geometry.shape, [];
    }

    /** `b2nd_get_slice_cbuffer`. */
    method GetSlice(start: Index, stop: Index, bufshape: Index, onDisk: bool, buffer: array<Item>) returns (ok: bool)
      requires Valid() && SliceOf(g, start, stop) && |bufshape| == |g.shape| > 0
      requires var s := Slice(g, start, stop, bufshape);
               s.Valid() && Enough(s, buffer.Length) ==> s.Room() <= buffer.Length
      modifies buffer
      ensures var s := Slice(g, start, stop, bufshape);
              ok == (Volume(g.shape) == 0 || (Fits(s) && Enough(s, buffer.Length)))
      ensures var s := Slice(g, start, stop, bufshape);
              ok && s.Valid() && ReadsRight(s) ==> SliceRead(s, chunks, buffer[..])
    {
      ok := NdRead.GetSlice(Slice(g, start, stop, bufshape), chunks, onDisk, buffer);
    }

    // ---- writing

    /** Bring one chunk into the scratch buffer, or zeros if the slice covers it. */
    method Load(s: Slice, x: Index, c: nat, data: array<Item>)
      requires Valid() && s.Valid() && s.g == g && |x| == |g.shape| && c < |chunks| && data.Length == g.ChunkItems()
      modifies data
      ensures Partial(s, x) ==> data[..] == chunks[c]
    {
      if Partial(s, x) {
        CopyItems(data, 0, chunks[c], 0, data.Length);
      } else {
        Clear(data);
      }
    }

    /** One turn of the loop over the chunks that the slice touches. */
    method SetChunk(s: Slice, first: Index, count: Index, buf: seq<Item>, u: nat, data: array<Item>,
                    ghost orig: seq<seq<Item>>)
      requires Valid() && s.Valid() && s.g == g && data.Length == g.ChunkItems()
      requires first == s.First() && count == s.Count() && Positive(s.Count()) && u < Volume(s.Count())
      requires Put(s, orig, chunks, buf, u) && s.Room() <= |buf|
      modifies this`chunks, data
      ensures Valid() && Put(s, orig, chunks, buf, u + 1)
    {
      hide Put, Volume, Filled;
      var off := UnidimToMultidim(count, u);
      var x := Plus(off, first);
      if ChunkEmpty(s.g, s.start, s.stop, x) {
        PutNoChunk(s, orig, chunks, buf, u);
        return;
      }
      ChunkExists(s, x);
      var c := Ravel(x, g.Grid());
      Load(s, x, c, data);
      ghost var was := data[..];
      PutBlocks(s, x, data, buf);
      PutChunk(s, orig, chunks, was, data[..], buf, u, c);
      StoredUpdate(s, orig, chunks[c := data[..]], buf, u + 1);
      chunks := chunks[c := data[..]];
    }

    method SetChunks(s: Slice, buf: seq<Item>)
      requires Valid() && s.Valid() && s.g == g && s.Room() <= |buf|
      modifies this`chunks
      ensures Valid() && SliceWritten(s, old(chunks), chunks, buf)
    {
      CountPositive(s);
      var data := new Item[g.ChunkItems()];
      var first, count := ChunkRange(s);
      assert Put(s, chunks, chunks, buf, 0);
      hide Put, SliceWritten, Volume, Slice.Valid, Stored, Slice.First, Slice.Count, Positive;
      for u := 0 to Volume(count)
        invariant Valid() && Put(s, old(chunks), chunks, buf, u)
      {
        SetChunk(s, first, count, buf, u, data, old(chunks));
      }
      PutAll(s, old(chunks), chunks, buf);
    }

    /** The fast path of a write: the buffer becomes the chunk. */
    method FastSet(s: Slice, c: nat, buf: seq<Item>)
      requires Valid() && s.Valid() && s.g == g && OneChunk(s) && c == Ravel(s.First(), g.Grid())
      requires s.Room() <= |buf|
      modifies this`chunks
      ensures Valid() && c < |chunks| && g.ChunkItems() <= |buf| && chunks == old(chunks)[c := buf[..g.ChunkItems()]]
      ensures SameLayout(g.chunkshape, s.bufshape) ==> SliceWritten(s, old(chunks), chunks, buf)
    {
      FirstExists(s);
      FastItems(s);
      if SameLayout(g.chunkshape, s.bufshape) {
        FastWrite(s, chunks, buf);
      }
      chunks := chunks[c := buf[..g.ChunkItems()]];
    }

    /** `b2nd_set_slice_cbuffer`: afterwards the slice holds the buffer and the rest is unchanged. */
    method SetSlice(start: Index, stop: Index, bufshape: Index, buf: seq<Item>) returns (ok: bool)
      requires Valid() && SliceOf(g, start, stop) && |bufshape| == |g.shape| > 0
      requires var s := Slice(g, start, stop, bufshape); s.Valid() && Enough(s, |buf|) ==> s.Room() <= |buf|
      modifies this`chunks
      ensures var s := Slice(g, start, stop, bufshape);
              Valid() && ok == (Volume(g.shape) == 0 || (Fits(s) && Enough(s, |buf|)))
      ensures var s := Slice(g, start, stop, bufshape);
              ok && s.Valid() && ReadsRight(s) ==> SliceWritten(s, old(chunks), chunks, buf)
      ensures !ok ==> chunks == old(chunks)
    {
      var s := Slice(g, start, stop, bufshape);
      if Volume(g.shape) == 0 {
        if s.Valid() {
          NothingToWrite(s, chunks, buf);
        }
        return true;
      }
      var size;
      ok, size := CheckShape(s);
      if !ok {
        return;
      }
      if |buf| < size {
        return false;
      }
      var c := NchunkFastpath(s, size);
      if c >= 0 {
        FastSet(s, c, buf);
      } else {
        SetChunks(s, buf);
      }
    }

    // ---- sparse reads

    /** `b2nd_get_sparse_cbuffer`: single elements by their row-major positions. */
    method GetSparse(coords: seq<int>) returns (ok: bool, items: seq<Item>)
      requires Valid()
      ensures ok <==>
              coords == [] || (g.shape != [] && forall i :: 0 <= i < |coords| ==> 0 <= coords[i] < Volume(g.shape))
      ensures ok ==> |items| == |coords|
      ensures ok && coords != [] ==> Positive(g.shape) && forall i ::
              0 <= i < |coords| ==> items[i] == Element(Unravel(coords[i], g.shape))
    {
      if coords == [] {
        return true, [];
      }
      if g.shape == [] {
        return false, [];
      }
      items := [];
      for i := 0 to |coords|
        invariant |items| == i && (i > 0 ==> Positive(g.shape))
        invariant forall k ::
                  0 <= k < i ==> 0 <= coords[k] < Volume(g.shape) && items[k] == Element(Unravel(coords[k], g.shape))
      {
        if coords[i] < 0 || coords[i] >= Volume(g.shape) {
          return false, [];
        }
        var item := GetItem(coords[i]);
        items := items + [item];
      }
      ok := true;
    }

    /** The element at a row-major position, through its storage coordinate. */
    method GetItem(coord: nat) returns (item: Item)
      requires Valid() && coord < Volume(g.shape)
      ensures Positive(g.shape) && item == Element(Unravel(coord, g.shape))
    {
      VolumeZero(g.shape);
      var idx := UnidimToMultidim(g.shape, coord);
      RavelUnravel(coord, g.shape);
      var at := g.StorageCoord(idx);
      StoredAt(g, chunks, idx);
      item := StorageItem(chunks, g.ChunkItems(), at);
    }

    // ---- resizing

    /** `blosc2_schunk_insert_chunk`. */
    method InsertChunk(i: nat, chunk: seq<Item>)
      requires i <= |chunks|
      modifies this`chunks, this`trace
      ensures chunks == old(chunks)[..i] + [chunk] + old(chunks)[i..]
      ensures trace == old(trace) + [Snapshot(published, chunks)]
    {
      chunks := chunks[..i] + [chunk] + chunks[i..];
      trace := trace + [Snapshot(published, chunks)];
    }

    /** `blosc2_schunk_delete_chunk`. */
    method DeleteChunk(i: nat)
      requires i < |chunks|
      modifies this`chunks, this`trace
      ensures chunks == old(chunks)[..i] + old(chunks)[i + 1..]
      ensures trace == old(trace) + [Snapshot(published, chunks)]
    {
      chunks := chunks[..i] + chunks[i + 1..];
      trace := trace + [Snapshot(published, chunks)];
    }

    /** `publish_shape_meta`. */
    method Publish(shape: Index)
      modifies this`published, this`trace
      ensures published == shape && trace == old(trace) + [Snapshot(shape, chunks)]
    {
      published := shape;
      trace := trace + [Snapshot(published, chunks)];
    }

    /** One turn of the loop of `extend_shape`: insert a chunk of zeros unless the chunk was there before. */
    method GrowAt(i: nat, grid: Index, ghost orig: seq<seq<Item>>)
      requires g.Valid() && |published| == |g.shape| && Within(published, g.shape) && grid == g.Grid() && Positive(grid)
      requires i < Volume(grid) && |orig| == Volume(AllParts(published, g.chunkshape))
      requires Grown(chunks, orig, Zeros(g.ChunkItems()), grid, AllParts(published, g.chunkshape), i)
      modifies this`chunks, this`trace
      ensures Grown(chunks, orig, Zeros(g.ChunkItems()), grid, AllParts(published, g.chunkshape), i + 1)
      ensures trace == old(trace) || trace == old(trace) + [Snapshot(published, chunks)]
    {
      var x := UnidimToMultidim(grid, i);
      ghost var small := AllParts(published, g.chunkshape);
      RavelUnravel(i, grid);
      BetweenIff(x, published, g.shape, g.chunkshape);
      GridsWithin(published, g.shape, g.chunkshape);
      assert i <= |chunks|;
      hide Grown, Between, AllParts, Volume, Unravel, InBox, Geometry.ChunkItems;
      if Between(x, published, g.shape, g.chunkshape) {
        GrownInsert(chunks, orig, Zeros(g.ChunkItems()), grid, small, i);
        InsertChunk(i, Zeros(g.ChunkItems()));
      } else {
        GrownKeep(chunks, orig, Zeros(g.ChunkItems()), grid, small, i);
      }
    }

    /** The loop of `extend_shape`. */
    method Grow(grid: Index, n: nat)
      requires g.Valid() && |published| == |g.shape| && Within(published, g.shape) && grid == g.Grid()
               && Positive(grid) && n == Volume(grid)
      requires |chunks| == Volume(AllParts(published, g.chunkshape))
      modifies this`chunks, this`trace
      ensures Grown(chunks, old(chunks), Zeros(g.ChunkItems()), grid, AllParts(published, g.chunkshape), Volume(grid))
      ensures |trace| >= |old(trace)| && trace[..|old(trace)|] == old(trace) && AllSafe(g, trace, |old(trace)|)
      ensures FirstAxis(grid, AllParts(published, g.chunkshape)) ==>
              AllKeep(trace, |old(trace)|, old(chunks)) && Keeps(chunks, old(chunks))
    {
      ghost var small, orig, start := AllParts(published, g.chunkshape), chunks, |trace|;
      RankStart(grid, small);
      GridsWithin(published, g.shape, g.chunkshape);
      assert Grown(chunks, orig, Zeros(g.ChunkItems()), grid, small, 0);
      assert Keeps(chunks, orig);
      hide Grown, Within, Positive, Rank, Geometry.ChunkItems, Geometry.Valid, Safe, Keeps, Volume, FirstAxis;
      for i := 0 to n
        invariant Grown(chunks, orig, Zeros(g.ChunkItems()), grid, small, i)
        invariant |trace| >= start && trace[..start] == old(trace) && AllSafe(g, trace, start)
        invariant FirstAxis(grid, small) ==> AllKeep(trace, start, orig) && Keeps(chunks, orig)
      {
        GrowAt(i, grid, orig);
        GrownSafe(g, chunks, orig, grid, published, i + 1);
      }
    }

    /** `extend_shape` with no `start`: the chunks come first, the shape is published last. */
    method ExtendShape(shape: Index) returns (ok: bool)
      requires Valid() && |shape| == |g.shape|
      modifies this
      ensures Valid() && ok == Within(old(g.shape), shape)
      ensures !ok ==> g == old(g) && chunks == old(chunks) && trace == old(trace)
      ensures ok ==> g == Reshaped(old(g), shape) && Resized(old(g), old(chunks), shape, chunks)
      ensures |trace| >= |old(trace)| && trace[..|old(trace)|] == old(trace) && AllSafe(g, trace, |old(trace)|)
      ensures ok && FirstAxis(shape, old(g.shape)) ==> AllKeep(trace, |old(trace)|, old(chunks))
    {
      ok := forall i :: 0 <= i < |shape| ==> g.shape[i] <= shape[i];
      if !ok {
        return;
      }
      if shape == g.shape {
        ResizedSame(g, chunks);
        return;
      }
      ghost var g0, orig, start := g, chunks, |trace|;
      GridsWithin(g.shape, shape, g.chunkshape);
      if FirstAxis(shape, g.shape) {
        FirstAxisGrids(shape, g.shape, g.chunkshape);
      }
      g := Reshaped(g, shape);
      InsertNew(g0);
      ResizedStored(g0, orig, shape, chunks);
      Publish(shape);
    }

    /** The middle of `extend_shape`: all the chunks that the new shape needs and the old one had not. */
    method InsertNew(ghost g0: Geometry)
      requires Stored(g0, chunks) && g0.shape == published && |published| == |g.shape| && Within(published, g.shape)
      requires g == Reshaped(g0, g.shape) && Within(g0.Grid(), g.Grid())
      modifies this`chunks, this`trace
      ensures Resized(g0, old(chunks), g.shape, chunks)
      ensures |trace| >= |old(trace)| && trace[..|old(trace)|] == old(trace) && AllSafe(g, trace, |old(trace)|)
      ensures FirstAxis(g.Grid(), g0.Grid()) ==> AllKeep(trace, |old(trace)|, old(chunks)) && Keeps(chunks, old(chunks))
    {
      var grid := g.Grid();
      var n := Volume(grid);
      VolumeWithin(g0.Grid(), grid);
      hide Volume, Ravel, Rank, Geometry.ChunkItems, AllSafe, AllKeep, Keeps, FirstAxis, Grown;
      if n != |chunks| {
        VolumeZero(grid);
        Grow(grid, n);
        GrownAll(chunks, old(chunks), Zeros(g.ChunkItems()), grid, g0.Grid());
      } else {
        SameVolume(g0, chunks, g.shape);
      }
    }

    /** One turn of the loop of `shrink_shape`: delete a chunk that the new shape does not have. */
    method ShrinkAt(i: nat, was: Index, grid: Index, ghost orig: seq<seq<Item>>)
      requires g.Valid() && |was| == |g.shape| && Within(g.shape, was)
      requires grid == AllParts(was, g.chunkshape) && Positive(grid) && i < Volume(grid) == |orig|
      requires Shrunk(chunks, orig, grid, g.Grid(), i + 1)
      modifies this`chunks, this`trace
      ensures Shrunk(chunks, orig, grid, g.Grid(), i)
      ensures trace == old(trace) || trace == old(trace) + [Snapshot(published, chunks)]
    {
      var x := UnidimToMultidim(grid, i);
      RavelUnravel(i, grid);
      BetweenIff(x, g.shape, was, g.chunkshape);
      GridsWithin(g.shape, was, g.chunkshape);
      assert i < |chunks|;
      hide Shrunk, Between, AllParts, Volume, Unravel, InBox;
      if Between(x, g.shape, was, g.chunkshape) {
        ShrunkDelete(chunks, orig, grid, g.Grid(), i);
        DeleteChunk(i);
      } else {
        ShrunkKeep(chunks, orig, grid, g.Grid(), i);
      }
    }

    /** The loop of `shrink_shape`. */
    method Shrink(was: Index, grid: Index)
      requires g.Valid() && |was| == |g.shape| && Within(g.shape, was) && published == g.shape
      requires grid == AllParts(was, g.chunkshape) && Positive(grid) && |chunks| == Volume(grid)
      modifies this`chunks, this`trace
      ensures Shrunk(chunks, old(chunks), grid, g.Grid(), 0)
      ensures |trace| >= |old(trace)| && trace[..|old(trace)|] == old(trace) && AllSafe(g, trace, |old(trace)|)
    {
      ghost var orig, start := chunks, |trace|;
      var i := |chunks|;
      GridsWithin(g.shape, was, g.chunkshape);
      ShrunkStart(orig, grid, g.Grid());
      hide Shrunk, Within, Positive, Rank, Geometry.Valid, Safe, Volume;
      while i > 0
        invariant 0 <= i <= |orig| && Shrunk(chunks, orig, grid, g.Grid(), i)
        invariant |trace| >= start && trace[..start] == old(trace) && AllSafe(g, trace, start)
      {
        i := i - 1;
        ShrinkAt(i, was, grid, orig);
        ShrunkSafe(g, chunks, orig, grid, i);
      }
    }

    /** The end of `shrink_shape`, when the new shape is published: the deletions. */
    method DeleteOld(ghost g0: Geometry, was: Index)
      requires Stored(g0, chunks) && g0.shape == was && |was| == |g.shape| && Within(g.shape, was)
               && published == g.shape
      requires g == Reshaped(g0, g.shape) && Within(g.Grid(), g0.Grid())
      modifies this`chunks, this`trace
      ensures Resized(g0, old(chunks), g.shape, chunks)
      ensures |trace| >= |old(trace)| && trace[..|old(trace)|] == old(trace) && AllSafe(g, trace, |old(trace)|)
    {
      var grid := AllParts(was, g.chunkshape);
      VolumeWithin(g.Grid(), grid);
      if chunks == [] {
        NoChunks(g0, g.shape);
        return;
      }
      VolumeZero(grid);
      Shrink(was, grid);
      ShrunkAll(chunks, old(chunks), grid, g.Grid());
      WithinBox(g0, g.shape);
    }

    /** `shrink_shape` with no `start`: the shape is published first, the chunks go afterwards. */
    method ShrinkShape(shape: Index) returns (ok: bool)
      requires Valid() && |shape| == |g.shape|
      modifies this
      ensures Valid() && ok == Within(shape, old(g.shape))
      ensures !ok ==> g == old(g) && chunks == old(chunks) && trace == old(trace)
      ensures shape == old(g.shape) ==> chunks == old(chunks) && trace == old(trace)
      ensures ok ==> g == Reshaped(old(g), shape) && Resized(old(g), old(chunks), shape, chunks)
      ensures |trace| >= |old(trace)| && trace[..|old(trace)|] == old(trace) && AllSafe(g, trace, |old(trace)|)
    {
      ok := forall i :: 0 <= i < |shape| ==> shape[i] <= g.shape[i];
      if !ok {
        return;
      }
      if shape == g.shape {
        ResizedSame(g, chunks);
        return;
      }
      ghost var g0, orig := g, chunks;
      var was := g.shape;
      GridsWithin(shape, g.shape, g.chunkshape);
      g := Reshaped(g, shape);
      VolumeWithin(g.Grid(), g0.Grid());
      Publish(shape);
      DeleteOld(g0, was);
      ResizedStored(g0, orig, shape, chunks);
    }

    /** `b2nd_resize` with no `start`: shrink to the common part, then grow. */
    method Resize(shape: Index)
      requires Valid() && |shape| == |g.shape|
      modifies this
      ensures Valid() && g == Reshaped(old(g), shape) && Resized(old(g), old(chunks), shape, chunks)
      ensures |trace| >= |old(trace)| && AllSafe(g, trace, |old(trace)|)
      ensures Within(old(g.shape), shape) && FirstAxis(shape, old(g.shape)) ==>
              AllKeep(trace, |old(trace)|, old(chunks))
    {
      ghost var g0, orig, start := g, chunks, |trace|;
      var mid := MinShape(g.shape, shape);
      assert Within(g.shape, shape) ==> mid == g.shape;
      var ok := ShrinkShape(mid);
      ghost var chunks1, trace1 := chunks, trace;
      ok := ExtendShape(shape);
      ResizedTwice(g0, orig, mid, chunks1, shape, chunks);
      JoinSafe(g, trace1, trace, start);
    }
  }

  lemma StoredUpdate(s: Slice, orig: seq<seq<Item>>, chunks: seq<seq<Item>>, buf: seq<Item>, u: nat)
    requires s.Valid() && Put(s, orig, chunks, buf, u)
    ensures Stored(s.g, chunks)
  {
  }

  /** The item at a coordinate of the whole storage. */
  function StorageItem(chunks: seq<seq<Item>>, items: nat, at: nat): Item {
    if items == 0 || at / items >= |chunks| then 0 else At(chunks[at / items], at % items)
  }

  /** The item at the storage coordinate of an element is the element. */
  lemma StoredAt(g: Geometry, chunks: seq<seq<Item>>, idx: Index)
    requires Stored(g, chunks) && InBox(idx, g.shape)
    ensures StorageItem(chunks, g.ChunkItems(), g.StorageCoord(idx)) == Value(g, chunks, idx)
  {
    PlaceBound(g, idx);
    DivIsUnique(g.StorageCoord(idx), g.ChunkItems(), g.ChunkNo(idx), g.Place(idx));
  }

  lemma NothingToWrite(s: Slice, chunks: seq<seq<Item>>, buf: seq<Item>)
    requires s.Valid() && Stored(s.g, chunks) && Volume(s.g.shape) == 0
    ensures SliceWritten(s, chunks, chunks, buf)
  {
    forall idx: Index | InBox(idx, s.g.shape)
      ensures !InSlice(idx, s.start, s.stop)
    {
      RavelBound(idx, s.g.shape);
    }
  }

  // ---- the fast path of a write

  lemma FastWriteItem(s: Slice, chunks: seq<seq<Item>>, chunk: seq<Item>, idx: Index)
    requires s.Valid() && OneChunk(s) && InBox(idx, s.g.shape) && |chunks| == s.g.Chunks()
    requires Ravel(s.First(), s.g.Grid()) < |chunks|
    ensures Value(s.g, chunks[Ravel(s.First(), s.g.Grid()) := chunk], idx) ==
            if InSlice(idx, s.start, s.stop) then At(chunk, Ravel(Minus(idx, s.start), s.g.chunkshape))
              else Value(s.g, chunks, idx)
    ensures InSlice(idx, s.start, s.stop) ==> InBox(Minus(idx, s.start), s.g.chunkshape)
  {
    hide RowMajorBlocks, Volume, Geometry.Place;
    FirstInGrid(s);
    ChunkNoIsChunk(s.g, idx, s.First());
    if InSlice(idx, s.start, s.stop) {
      FastPlace(s, idx);
    } else {
      OutsideChunk(s, idx);
    }
  }

  lemma FirstInGrid(s: Slice)
    requires s.Valid() && OneChunk(s)
    ensures InBox(s.First(), s.g.Grid())
  {
    forall i | 0 <= i < |s.start|
      ensures s.First()[i] < s.g.Grid()[i]
    {
      PartOf(s.start[i], s.g.shape[i], s.g.chunkshape[i]);
    }
  }

  lemma OutsideChunk(s: Slice, idx: Index)
    requires s.Valid() && OneChunk(s) && InBox(idx, s.g.shape) && !InSlice(idx, s.start, s.stop)
    ensures s.g.ChunkOf(idx) != s.First()
  {
    if s.g.ChunkOf(idx) == s.First() {
      forall i | 0 <= i < |idx|
        ensures s.start[i] <= idx[i] < s.stop[i]
      {
        AlignedAxis(idx[i], s.start[i], s.g.chunkshape[i], s.g.ChunkOf(idx)[i]);
      }
    }
  }

  lemma AlignedAxis(i: nat, start: nat, c: nat, q: nat)
    requires c > 0 && start % c == 0 && start / c == q && i / c == q
    ensures start <= i < start + c
  {
  }

  /** The fast path of a write is right when the layouts agree. */
  lemma FastWrite(s: Slice, chunks: seq<seq<Item>>, buf: seq<Item>)
    requires s.Valid() && OneChunk(s) && Stored(s.g, chunks) && s.Room() <= |buf|
    requires SameLayout(s.g.chunkshape, s.bufshape)
    ensures s.g.ChunkItems() <= |buf| && Ravel(s.First(), s.g.Grid()) < |chunks|
    ensures SliceWritten(s, chunks, chunks[Ravel(s.First(), s.g.Grid()) := buf[..s.g.ChunkItems()]], buf)
  {
    FirstExists(s);
    FastItems(s);
    var c, chunk := Ravel(s.First(), s.g.Grid()), buf[..s.g.ChunkItems()];
    assert Stored(s.g, chunks[c := chunk]);
    hide Value, RowMajorBlocks, Volume, SameLayout, OneChunk, Ravel, Geometry.Grid;
    forall idx: Index | InBox(idx, s.g.shape)
      ensures Value(s.g, chunks[c := chunk], idx) ==
              if InSlice(idx, s.start, s.stop) then At(buf, s.BufferPos(idx)) else Value(s.g, chunks, idx)
    {
      FastWriteItem(s, chunks, chunk, idx);
      if InSlice(idx, s.start, s.stop) {
        RavelBound(Minus(idx, s.start), s.g.chunkshape);
        LayoutAgrees(Minus(idx, s.start), s.g.chunkshape, s.bufshape);
      }
    }
  }

  /** When the layouts differ, some buffer is written to the wrong elements. */
  lemma FastMiswrite(s: Slice, chunks: seq<seq<Item>>) returns (buf: seq<Item>)
    requires s.Valid() && OneChunk(s) && Stored(s.g, chunks) && !SameLayout(s.g.chunkshape, s.bufshape)
    ensures s.Room() <= Volume(s.bufshape) == |buf| && s.g.ChunkItems() <= |buf|
            && Ravel(s.First(), s.g.Grid()) < |chunks|
    ensures !SliceWritten(s, chunks, chunks[Ravel(s.First(), s.g.Grid()) := buf[..s.g.ChunkItems()]], buf)
  {
    FirstExists(s);
    FastItems(s);
    RoomBounds(s);
    hide Slice.Room;
    buf := seq(Volume(s.bufshape), i => i + 1);
    var chunk, c := buf[..s.g.ChunkItems()], Ravel(s.First(), s.g.Grid());
    var q := LayoutDiffers(s.g.chunkshape, s.bufshape);
    RavelBound(q, s.g.chunkshape);
    RavelBound(q, s.bufshape);
    var idx := Plus(q, s.start);
    hide Value, RowMajorBlocks, Volume, SameLayout, Ravel, Geometry.Grid;
    assert Minus(idx, s.start) == q && InSlice(idx, s.start, s.stop) && InBox(idx, s.g.shape);
    hide OneChunk, InBox, InSlice;
    FastWriteItem(s, chunks, chunk, idx);
    assert At(chunk, Ravel(q, s.g.chunkshape)) != At(buf, Ravel(q, s.bufshape));
  }

  // ---- writing and reading back

  /** A slice that was written and is then read comes back as it was. */
  lemma SetThenGet(s: Slice, orig: seq<seq<Item>>, chunks: seq<seq<Item>>, buf: seq<Item>, back: seq<Item>)
    requires s.Valid() && s.bufshape == Minus(s.stop, s.start) && Volume(s.bufshape) <= |buf|
    requires SliceWritten(s, orig, chunks, buf) && SliceRead(s, chunks, back)
    ensures Volume(s.bufshape) <= |back| && back[..Volume(s.bufshape)] == buf[..Volume(s.bufshape)]
  {
    RoomBounds(s);
    hide Slice.Room, Value, Ravel, Volume, Slice.BufferPos;
    forall p | 0 <= p < Volume(s.bufshape)
      ensures back[p] == buf[p]
    {
      VolumeZero(s.bufshape);
      RavelUnravel(p, s.bufshape);
      BackAt(s, orig, chunks, buf, back, Unravel(p, s.bufshape));
    }
  }

  lemma BackAt(s: Slice, orig: seq<seq<Item>>, chunks: seq<seq<Item>>, buf: seq<Item>, back: seq<Item>, q: Index)
    requires s.Valid() && s.bufshape == Minus(s.stop, s.start) && InBox(q, s.bufshape)
    requires SliceWritten(s, orig, chunks, buf) && SliceRead(s, chunks, back)
    ensures At(back, Ravel(q, s.bufshape)) == At(buf, Ravel(q, s.bufshape))
  {
    hide Value, Ravel, Volume, Slice.Room;
    var idx := Plus(q, s.start);
    assert Minus(idx, s.start) == q && InSlice(idx, s.start, s.stop) && InBox(idx, s.g.shape);
  }

  /** A slice that is read and written back leaves the array as it was. */
  lemma GetThenSet(s: Slice, orig: seq<seq<Item>>, chunks: seq<seq<Item>>, buf: seq<Item>, idx: Index)
    requires s.Valid() && InBox(idx, s.g.shape)
    requires SliceRead(s, orig, buf) && SliceWritten(s, orig, chunks, buf)
    ensures Value(s.g, chunks, idx) == Value(s.g, orig, idx)
  {
    hide *;
    WrittenAt(s, orig, chunks, buf, idx);
    if InSlice(idx, s.start, s.stop) {
      ReadAt(s, orig, buf, idx);
    }
  }

  lemma WrittenAt(s: Slice, orig: seq<seq<Item>>, chunks: seq<seq<Item>>, buf: seq<Item>, idx: Index)
    requires s.Valid() && InBox(idx, s.g.shape) && SliceWritten(s, orig, chunks, buf)
    ensures |idx| == |s.start| == |s.bufshape| == |s.g.shape| && s.g.Valid()
    ensures Value(s.g, chunks, idx) == if InSlice(idx, s.start, s.stop) then At(buf, s.BufferPos(idx))
            else Value(s.g, orig, idx)
  {
    hide Value, Slice.BufferPos;
  }

  lemma ReadAt(s: Slice, chunks: seq<seq<Item>>, buf: seq<Item>, idx: Index)
    requires s.Valid() && |idx| == |s.start| == |s.bufshape| == |s.g.shape| && InSlice(idx, s.start, s.stop)
             && SliceRead(s, chunks, buf)
    ensures At(buf, s.BufferPos(idx)) == Value(s.g, chunks, idx)
  {
    hide Value, Ravel, Volume, Slice.Room;
    var q := Minus(idx, s.start);
    assert Plus(q, s.start) == idx && InBox(q, s.bufshape);
  }
}
