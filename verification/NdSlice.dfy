/**
 What reads and writes of slices share (`get_set_slice`, blosc/b2nd.c): the chunks and blocks that a
 slice touches, the turns in which they are visited, and the copy between a block and the buffer.
 The specification is an ordinary array: a value for each index.
 */
module NdSlice {
  import opened Arith
  import opened NdIndex
  import opened NdGeometry
  import opened NdBlocks
  import opened NdCopy

  function Plus(a: Index, b: Index): (r: Index)
    requires |a| == |b|
    ensures |r| == |a| && forall i :: 0 <= i < |a| ==> r[i] == a[i] + b[i]
  {
    seq(|a|, i requires 0 <= i < |a| => a[i] + b[i])
  }

  function Minus(a: Index, b: Index): (r: Index)
    requires |a| == |b|
    ensures |r| == |a| && forall i :: 0 <= i < |a| ==> r[i] == if a[i] >= b[i] then a[i] - b[i] else 0
  {
    seq(|a|, i requires 0 <= i < |a| => if a[i] >= b[i] then a[i] - b[i] else 0)
  }

  // ---- the array

  /** The chunks of an array, each with the items of all its blocks. */
  ghost predicate Stored(g: Geometry, chunks: seq<seq<Item>>) {
    g.Valid() && |chunks| == g.Chunks() && forall c :: 0 <= c < |chunks| ==> |chunks[c]| == g.ChunkItems()
  }

  /** The element at an index: the array that the chunks stand for. */
  function Value(g: Geometry, chunks: seq<seq<Item>>, idx: Index): Item
    requires g.Valid() && |idx| == |g.shape|
  {
    if g.ChunkNo(idx) < |chunks| then At(chunks[g.ChunkNo(idx)], g.Place(idx)) else 0
  }

  /** Chunks that tell every position apart: no item is zero and no two items are equal. */
  function Telltale(n: nat, items: nat): (r: seq<seq<Item>>)
    ensures |r| == n
    ensures forall c ::
            0 <= c < n ==> |r[c]| == items && forall i :: 0 <= i < items ==> r[c][i] == Times(c, items) + i + 1
  {
    seq(n, c requires 0 <= c < n => seq(items, i requires 0 <= i < items => Times(c, items) + i + 1))
  }

  // ---- the chunks that a slice touches

  /** Chunks along one axis from the first that holds `start` to the last that is needed for `stop`. */
  function Count1(start: nat, stop: nat, c: nat): nat
    requires c > 0
  {
    Max(start / c + 1, Parts(stop, c)) - start / c
  }

  /** The two loops that step through the chunks of an axis. */
  method AxisRange(start: nat, stop: nat, c: nat) returns (first: nat, count: nat)
    requires c > 0
    ensures first == start / c && count == Count1(start, stop, c)
  {
    var pos, n := 0, 0;
    while pos <= start
      invariant 0 <= n && pos == Times(n, c) && pos <= start + c
      decreases start + 1 - pos
    {
      MulDistrib(n, 1, c);
      pos, n := pos + c, n + 1;
    }
    MulDistrib(n - 1, 1, c);
    DivBetween(start, c, n - 1);
    QuotientOfMultiple(n, c);
    first := pos / c - 1;
    PartsCover(stop, c);
    while pos < stop
      invariant first + 1 <= n && pos == Times(n, c)
      invariant n == first + 1 || pos < stop + c
      decreases stop - pos
    {
      MulDistrib(n, 1, c);
      pos, n := pos + c, n + 1;
    }
    QuotientOfMultiple(n, c);
    count := pos / c - first;
    if n > Max(first + 1, Parts(stop, c)) {
      MulMono(Parts(stop, c) + 1, n, c);
      MulDistrib(Parts(stop, c), 1, c);
    } else if n < Parts(stop, c) {
      MulMono(n, Parts(stop, c) - 1, c);
      MulDistrib(Parts(stop, c) - 1, 1, c);
    }
  }

  lemma QuotientOfMultiple(n: nat, c: nat)
    requires c > 0
    ensures Times(n, c) / c == n
  {
    DivIsUnique(Times(n, c), c, n, 0);
  }

  /** A slice of an array and the shape of the buffer it is exchanged with. */
  datatype Slice = Slice(g: Geometry, start: Index, stop: Index, bufshape: Index) {
    ghost predicate Valid() {
      && SliceOf(g, start, stop) && |bufshape| == |g.shape| > 0
      && forall i :: 0 <= i < |start| ==> stop[i] - start[i] <= bufshape[i]
    }

    /** `update_start` and `update_shape`. */
    function First(): Index
      requires g.Valid() && |start| == |g.shape|
    {
      Div(start, g.chunkshape)
    }

    function Count(): (r: Index)
      requires g.Valid() && |start| == |stop| == |g.shape|
      ensures |r| == |start| && forall i :: 0 <= i < |start| ==> r[i] == Count1(start[i], stop[i], g.chunkshape[i])
    {
      seq(|start|, i requires 0 <= i < |start| => Count1(start[i], stop[i], g.chunkshape[i]))
    }

    /** The number of the turn in which the chunk of an index is visited. */
    function Turn(idx: Index): nat
      requires g.Valid() && |idx| == |start| == |stop| == |g.shape|
    {
      Ravel(Minus(g.ChunkOf(idx), First()), Count())
    }

    /** The chunk visited in a turn. */
    function ChunkAt(u: nat): (x: Index)
      requires g.Valid() && |start| == |stop| == |g.shape| && Positive(Count())
      ensures |x| == |g.shape|
    {
      Plus(Unravel(u, Count()), First())
    }

    /** The items that the slice needs of the buffer: up to the position of its last element. */
    function Room(): nat
      requires |start| == |stop| == |bufshape|
    {
      var size := Minus(stop, start);
      if Volume(size) == 0 then 0 else Ravel(Far(Zero(|size|), size), bufshape) + 1
    }

    /** The position in the buffer of an element of the slice. */
    function BufferPos(idx: Index): nat
      requires |idx| == |start| == |bufshape|
    {
      Ravel(Minus(idx, start), bufshape)
    }
  }

  lemma {:induction false} RavelMono(q: Index, r: Index, shape: Index)
    requires |q| == |r| == |shape| && forall i :: 0 <= i < |q| ==> q[i] <= r[i]
    ensures Ravel(q, shape) <= Ravel(r, shape)
  {
    if shape != [] {
      RavelMono(q[1..], r[1..], shape[1..]);
      MulMono(q[0], r[0], Volume(shape[1..]));
    }
  }

  /** The elements of the slice are within that room. */
  lemma InRoom(s: Slice, idx: Index)
    requires s.Valid() && InSlice(idx, s.start, s.stop)
    ensures s.BufferPos(idx) < s.Room()
  {
    var size := Minus(s.stop, s.start);
    VolumePositive(size);
    RavelMono(Minus(idx, s.start), Far(Zero(|size|), size), s.bufshape);
  }

  /** `update_start` and `update_shape`, axis by axis. */
  method ChunkRange(s: Slice) returns (first: Index, count: Index)
    requires s.g.Valid() && |s.start| == |s.stop| == |s.g.shape|
    ensures first == s.First() && count == s.Count()
  {
    first, count := [], [];
    for i := 0 to |s.start|
      invariant |first| == |count| == i
      invariant forall k :: 0 <= k < i ==> first[k] == s.First()[k] && count[k] == s.Count()[k]
    {
      var f, n := AxisRange(s.start[i], s.stop[i], s.g.chunkshape[i]);
      first, count := first + [f], count + [n];
    }
  }

  lemma CountPositive(s: Slice)
    requires s.Valid()
    ensures Positive(s.Count())
  {
  }

  lemma TurnInBox(s: Slice, idx: Index)
    requires s.Valid() && InSlice(idx, s.start, s.stop)
    ensures InBox(Minus(s.g.ChunkOf(idx), s.First()), s.Count())
  {
    var x := Minus(s.g.ChunkOf(idx), s.First());
    forall i | 0 <= i < |x|
      ensures x[i] < s.Count()[i]
    {
      PartOf(idx[i], s.stop[i], s.g.chunkshape[i]);
      DivMono(s.start[i], idx[i], s.g.chunkshape[i]);
    }
  }

  lemma DivMono(a: nat, b: nat, v: nat)
    requires v > 0 && a <= b
    ensures a / v <= b / v
  {
    if b / v < a / v {
      MulMono(b / v + 1, a / v, v);
      MulDistrib(b / v, 1, v);
    }
  }

  /** An element of the slice is met in the turn that visits its chunk, and only then. */
  lemma TurnIsChunk(s: Slice, idx: Index, u: nat)
    requires s.Valid() && InSlice(idx, s.start, s.stop) && u < Volume(s.Count())
    ensures Positive(s.Count()) && s.Turn(idx) < Volume(s.Count())
    ensures s.Turn(idx) == u <==> s.g.ChunkOf(idx) == s.ChunkAt(u)
  {
    TurnInBox(s, idx);
    CountPositive(s);
    var off, x := Minus(s.g.ChunkOf(idx), s.First()), s.ChunkAt(u);
    RavelBound(off, s.Count());
    UnravelRavel(off, s.Count());
    RavelUnravel(u, s.Count());
    forall i | 0 <= i < |off|
      ensures s.First()[i] <= s.g.ChunkOf(idx)[i]
    {
      DivMono(s.start[i], idx[i], s.g.chunkshape[i]);
    }
    if s.Turn(idx) == u {
      assert off == Unravel(u, s.Count());
      assert forall i :: 0 <= i < |x| ==> x[i] == s.g.ChunkOf(idx)[i];
      assert x == s.g.ChunkOf(idx);
    }
    if s.g.ChunkOf(idx) == x {
      assert forall i :: 0 <= i < |off| ==> off[i] == Unravel(u, s.Count())[i];
      assert off == Unravel(u, s.Count());
    }
  }

  /** Likewise for blocks. */
  lemma BlockNoIsBlock(g: Geometry, idx: Index, v: nat)
    requires g.Valid() && InBox(idx, g.shape) && v < g.Blocks()
    ensures Positive(g.BlockGrid()) && g.BlockNo(idx) < g.Blocks()
    ensures g.BlockNo(idx) == v <==> g.BlockOf(idx) == Unravel(v, g.BlockGrid())
  {
    BlockGridPositive(g);
    PartsInside(g, idx);
    RavelBound(g.BlockOf(idx), g.BlockGrid());
    UnravelRavel(g.BlockOf(idx), g.BlockGrid());
    RavelUnravel(v, g.BlockGrid());
  }

  lemma BlockGridPositive(g: Geometry)
    requires g.Valid()
    ensures Positive(g.BlockGrid())
  {
  }

  /** A chunk that meets the slice is one of the chunks of the array. */
  lemma ChunkExists(s: Slice, x: Index)
    requires s.Valid() && |x| == |s.g.shape| && !ChunkEmpty(s.g, s.start, s.stop, x)
    ensures InBox(x, s.g.Grid()) && Ravel(x, s.g.Grid()) < s.g.Chunks()
  {
    forall i | 0 <= i < |x|
      ensures x[i] < s.g.Grid()[i]
    {
      var c := s.g.chunkshape[i];
      assert Times(x[i], c) < s.stop[i];
      PartOf(Times(x[i], c), s.g.shape[i], c);
      QuotientOfMultiple(x[i], c);
    }
    RavelBound(x, s.g.Grid());
  }

  // ---- one block of a read

  /** The element at `idx` has been visited before turn `u`, block `v`. */
  predicate Before(s: Slice, idx: Index, u: nat, v: nat)
    requires s.g.Valid() && |idx| == |s.start| == |s.stop| == |s.g.shape|
  {
    s.Turn(idx) < u || (s.Turn(idx) == u && s.g.BlockNo(idx) < v)
  }

  /** What the buffer holds at `q` when turn `u` has come to block `v`. */
  function Wanted(s: Slice, chunks: seq<seq<Item>>, q: Index, u: nat, v: nat): Item
    requires s.g.Valid() && |q| == |s.start| == |s.stop| == |s.g.shape|
  {
    var idx := Plus(q, s.start);
    if InSlice(idx, s.start, s.stop) && Before(s, idx, u, v) then Value(s.g, chunks, idx) else 0
  }

  ghost predicate Got(s: Slice, chunks: seq<seq<Item>>, buf: seq<Item>, u: nat, v: nat)
    requires s.Valid()
  {
    s.Room() <= |buf| &&
    forall q: Index :: InBox(q, s.bufshape) ==> At(buf, Ravel(q, s.bufshape)) == Wanted(s, chunks, q, u, v)
  }

  /** The views of a block and of the buffer between which a block copies, and the size of the copy. */
  function BlockView(s: Slice, x: Index, y: Index, base: nat): View
    requires s.g.Valid() && |x| == |y| == |s.start| == |s.stop| == |s.g.shape|
  {
    View(base, s.g.blockshape, Minus(Lo(s.g, s.start, x, y), BlockStart(s.g, x, y)))
  }

  function BufferView(s: Slice, x: Index, y: Index): View
    requires s.g.Valid() && |x| == |y| == |s.start| == |s.stop| == |s.g.shape|
  {
    View(0, s.bufshape, Minus(Lo(s.g, s.start, x, y), s.start))
  }

  function BlockSize(s: Slice, x: Index, y: Index): Index
    requires s.g.Valid() && |x| == |y| == |s.start| == |s.stop| == |s.g.shape|
  {
    Minus(Hi(s.g, s.stop, x, y), Lo(s.g, s.start, x, y))
  }

  lemma ViewsValid(s: Slice, x: Index, y: Index, base: nat, blockLen: nat, bufLen: nat)
    requires s.Valid() && |x| == |y| == |s.g.shape| && !BlockEmpty(s.g, s.start, s.stop, x, y)
    requires base + s.g.BlockItems() <= blockLen && s.Room() <= bufLen
    ensures BlockView(s, x, y, base).Valid(blockLen, BlockSize(s, x, y))
    ensures BufferView(s, x, y).Valid(bufLen, BlockSize(s, x, y))
  {
    BlockBox(s.g, s.start, s.stop, x, y);
    if Positive(BlockSize(s, x, y)) {
      ViewsReach(s, x, y);
    }
  }

  /** The last index of a box in the slice, seen from the buffer. */
  lemma LastOfBlock(s: Slice, start: Index, lo: Index, hi: Index)
    requires s.Valid() && start == s.start && |lo| == |hi| == |start|
    requires forall i :: 0 <= i < |lo| ==> start[i] <= lo[i] < hi[i] <= s.stop[i]
    ensures Ravel(Far(Minus(lo, start), Minus(hi, lo)), s.bufshape) < s.Room()
  {
    hide Slice.Room, Ravel, Volume;
    var idx := seq(|hi|, i requires 0 <= i < |hi| => if hi[i] > 0 then hi[i] - 1 else 0);
    InRoom(s, idx);
    assert Far(Minus(lo, start), Minus(hi, lo)) == Minus(idx, start);
  }

  lemma ViewsReach(s: Slice, x: Index, y: Index)
    requires s.Valid() && |x| == |y| == |s.g.shape| && !BlockEmpty(s.g, s.start, s.stop, x, y)
             && Positive(BlockSize(s, x, y))
    ensures Ravel(Far(BlockView(s, x, y, 0).start, BlockSize(s, x, y)), s.g.blockshape) < s.g.BlockItems()
    ensures Ravel(Far(BufferView(s, x, y).start, BlockSize(s, x, y)), s.bufshape) < s.Room()
  {
    BlockBox(s.g, s.start, s.stop, x, y);
    var size := BlockSize(s, x, y);
    hide Slice.Room, Ravel, Volume, BlockEmpty;
    LastOfBlock(s, s.start, Lo(s.g, s.start, x, y), Hi(s.g, s.stop, x, y));
    RavelBound(Far(BlockView(s, x, y, 0).start, size), s.g.blockshape);
  }

  lemma BoxShift(q: Index, start: Index, lo: Index, hi: Index)
    requires |q| == |start| == |lo| == |hi|
    requires forall i :: 0 <= i < |q| ==> start[i] <= lo[i] <= hi[i]
    ensures In(q, Minus(lo, start), Minus(hi, lo)) <==> InSlice(Plus(q, start), lo, hi)
  {
    InAt(q, Minus(lo, start), Minus(hi, lo));
    hide In;
    var idx := Plus(q, start);
    forall i | 0 <= i < |q|
      ensures lo[i] - start[i] <= q[i] < hi[i] - start[i] <==> lo[i] <= idx[i] < hi[i]
    {
    }
  }

  lemma ShiftVector(q: Index, start: Index, lo: Index, b: Index, item: Index)
    requires |q| == |start| == |lo| == |b| == |item|
    requires forall i ::
             0 <= i < |q| ==> start[i] <= lo[i] && b[i] <= lo[i] <= q[i] + start[i] && item[i] == q[i] + start[i] - b[i]
    ensures Shift(q, Minus(lo, start), Minus(lo, b)) == item
  {
    forall i | 0 <= i < |q|
      ensures Shift(q, Minus(lo, start), Minus(lo, b))[i] == item[i]
    {
      ShiftAt(q, Minus(lo, start), Minus(lo, b), i);
    }
    hide Shift;
  }

  /** The box of a copy, seen from the buffer: the elements of the slice in the block. */
  lemma InBufferBox(s: Slice, x: Index, y: Index, q: Index)
    requires s.Valid() && |x| == |y| == |q| == |s.g.shape| && !BlockEmpty(s.g, s.start, s.stop, x, y)
    ensures var idx := Plus(q, s.start);
            In(q, BufferView(s, x, y).start, BlockSize(s, x, y)) <==>
            InSlice(idx, s.start, s.stop) && s.g.ChunkOf(idx) == x && s.g.BlockOf(idx) == y
  {
    var idx, lo, hi := Plus(q, s.start), Lo(s.g, s.start, x, y), Hi(s.g, s.stop, x, y);
    BlockBox(s.g, s.start, s.stop, x, y);
    BoxShift(q, s.start, lo, hi);
    assert InSlice(idx, lo, hi) ==> InSlice(idx, s.start, s.stop);
    if InSlice(idx, s.start, s.stop) {
      BlockMeets(s.g, s.start, s.stop, x, y, idx);
    }
  }

  lemma ShiftFacts(s: Slice, x: Index, y: Index, idx: Index)
    requires s.Valid() && |x| == |y| == |s.g.shape| && !BlockEmpty(s.g, s.start, s.stop, x, y)
    requires InSlice(idx, s.start, s.stop) && s.g.ChunkOf(idx) == x && s.g.BlockOf(idx) == y
    ensures var lo, b, item := Lo(s.g, s.start, x, y), BlockStart(s.g, x, y), s.g.ItemOf(idx);
            |item| == |idx| &&
            forall i :: 0 <= i < |idx| ==> s.start[i] <= lo[i] && b[i] <= lo[i] <= idx[i] && item[i] == idx[i] - b[i]
  {
    BlockBox(s.g, s.start, s.stop, x, y);
    BlockMeets(s.g, s.start, s.stop, x, y, idx);
    ItemInBlock(s.g, x, y, idx);
  }

  /** A block has been read from its chunk. */
  ghost predicate BlockFrom(src: seq<Item>, base: nat, chunk: seq<Item>, v: nat, items: nat) {
    base + items <= |src| && Times(v, items) + items <= |chunk| &&
    src[base..base + items] == chunk[Times(v, items)..Times(v, items) + items]
  }

  lemma BlockFromAt(src: seq<Item>, base: nat, chunk: seq<Item>, v: nat, items: nat, r: nat)
    requires BlockFrom(src, base, chunk, v, items) && r < items
    ensures At(src, base + r) == At(chunk, Times(v, items) + r)
  {
  }

  /** The place of an element in its chunk, from the block it was read into. */
  lemma BlockPlace(g: Geometry, chunks: seq<seq<Item>>, idx: Index, c: nat, src: seq<Item>, base: nat, v: nat)
    requires g.Valid() && |idx| == |g.shape| && g.ChunkNo(idx) == c < |chunks| && g.BlockNo(idx) == v
    requires BlockFrom(src, base, chunks[c], v, g.BlockItems())
    ensures At(src, base + Ravel(g.ItemOf(idx), g.blockshape)) == Value(g, chunks, idx)
  {
    hide Ravel, Volume, Times, BlockFrom, Positive, InBox, Geometry.ItemOf, Geometry.ChunkNo, Geometry.BlockNo;
    InnerBound(g, idx);
    BlockFromAt(src, base, chunks[c], v, g.BlockItems(), Ravel(g.ItemOf(idx), g.blockshape));
  }

  /** The element that a block copy brings to the buffer is the element of the array. */
  lemma BlockValue(g: Geometry, chunks: seq<seq<Item>>, item: Index, shifted: Index, idx: Index,
                   c: nat, src: seq<Item>, base: nat, v: nat)
    requires g.Valid() && |idx| == |g.shape| && item == g.ItemOf(idx) && shifted == item
    requires g.ChunkNo(idx) == c < |chunks| && g.BlockNo(idx) == v && BlockFrom(src, base, chunks[c], v, g.BlockItems())
    ensures |shifted| == |g.blockshape| && At(src, base + Ravel(shifted, g.blockshape)) == Value(g, chunks, idx)
  {
    hide Ravel, Volume, Times, Value, BlockFrom, InBox, Geometry.ItemOf, Geometry.ChunkNo, Geometry.BlockNo;
    BlockPlace(g, chunks, idx, c, src, base, v);
  }

  /** Moving on by one block makes a difference exactly to the elements of that block. */
  lemma BeforeNext(s: Slice, idx: Index, u: nat, v: nat)
    requires s.Valid() && InSlice(idx, s.start, s.stop) && u < Volume(s.Count()) && v < s.g.Blocks()
    ensures Positive(s.Count()) && Positive(s.g.BlockGrid())
    ensures var here := s.g.ChunkOf(idx) == s.ChunkAt(u) && s.g.BlockOf(idx) == Unravel(v, s.g.BlockGrid());
            && (Before(s, idx, u, v + 1) <==> Before(s, idx, u, v) || here)
            && (here ==> s.g.BlockNo(idx) == v)
  {
    TurnIsChunk(s, idx, u);
    BlockNoIsBlock(s.g, idx, v);
  }

  /** What one block adds to the buffer, position by position. */
  lemma GetItem(s: Slice, chunks: seq<seq<Item>>, u: nat, v: nat, buf: seq<Item>, buf': seq<Item>,
                src: seq<Item>, base: nat, q: Index)
    requires s.Valid() && InBox(q, s.bufshape)
    requires u < Volume(s.Count()) && v < s.g.Blocks() && Positive(s.Count()) && Positive(s.g.BlockGrid())
    requires var x, y := s.ChunkAt(u), Unravel(v, s.g.BlockGrid());
             && !BlockEmpty(s.g, s.start, s.stop, x, y)
             && Ravel(x, s.g.Grid()) < |chunks|
             && BlockFrom(src, base, chunks[Ravel(x, s.g.Grid())], v, s.g.BlockItems())
             && At(buf', Ravel(q, s.bufshape)) ==
                Expected(buf, src, BufferView(s, x, y), BlockView(s, x, y, base), BlockSize(s, x, y), q)
    requires At(buf, Ravel(q, s.bufshape)) == Wanted(s, chunks, q, u, v)
    ensures At(buf', Ravel(q, s.bufshape)) == Wanted(s, chunks, q, u, v + 1)
  {
    var x, y, idx := s.ChunkAt(u), Unravel(v, s.g.BlockGrid()), Plus(q, s.start);
    InBufferBox(s, x, y, q);
    hide Ravel, Volume, Positive, Times, Unravel;
    hide In, BlockEmpty, Value, Before, BlockFrom;
    if InSlice(idx, s.start, s.stop) {
      BeforeNext(s, idx, u, v);
      if s.g.ChunkOf(idx) == x && s.g.BlockOf(idx) == y {
        ShiftFacts(s, x, y, idx);
        var lo, b := Lo(s.g, s.start, x, y), BlockStart(s.g, x, y);
        ShiftVector(q, s.start, lo, b, s.g.ItemOf(idx));
        BlockValue(s.g, chunks, s.g.ItemOf(idx), Shift(q, Minus(lo, s.start), Minus(lo, b)), idx, s.g.ChunkNo(idx),
          src, base, v);
      }
    }
  }

  /** A block that does not meet the slice adds nothing. */
  lemma SkipItem(s: Slice, chunks: seq<seq<Item>>, u: nat, v: nat, q: Index)
    requires s.Valid() && |q| == |s.g.shape|
    requires u < Volume(s.Count()) && v < s.g.Blocks() && Positive(s.Count()) && Positive(s.g.BlockGrid())
    requires BlockEmpty(s.g, s.start, s.stop, s.ChunkAt(u), Unravel(v, s.g.BlockGrid()))
    ensures Wanted(s, chunks, q, u, v) == Wanted(s, chunks, q, u, v + 1)
  {
    var x, y, idx := s.ChunkAt(u), Unravel(v, s.g.BlockGrid()), Plus(q, s.start);
    if InSlice(idx, s.start, s.stop) {
      BeforeNext(s, idx, u, v);
      BlockMeets(s.g, s.start, s.stop, x, y, idx);
    }
  }

  /** One block of a read: copy the part of the slice in it, if any, into the buffer. */
  lemma GotBlock(s: Slice, chunks: seq<seq<Item>>, u: nat, v: nat, buf: seq<Item>, buf': seq<Item>, src: seq<Item>,
                 base: nat)
    requires s.Valid() && Got(s, chunks, buf, u, v) && |buf'| == |buf|
    requires u < Volume(s.Count()) && v < s.g.Blocks() && Positive(s.Count()) && Positive(s.g.BlockGrid())
    requires var x, y := s.ChunkAt(u), Unravel(v, s.g.BlockGrid());
             && !BlockEmpty(s.g, s.start, s.stop, x, y)
             && Ravel(x, s.g.Grid()) < |chunks|
             && BlockFrom(src, base, chunks[Ravel(x, s.g.Grid())], v, s.g.BlockItems())
             && Moved(buf', buf, src, BufferView(s, x, y), BlockView(s, x, y, base), BlockSize(s, x, y))
    ensures Got(s, chunks, buf', u, v + 1)
  {
    var v' := v + 1;
    hide Wanted, Expected, BlockEmpty, BlockFrom, Ravel, Volume, Unravel, Times;
    forall q: Index | InBox(q, s.bufshape)
      ensures At(buf', Ravel(q, s.bufshape)) == Wanted(s, chunks, q, u, v')
    {
      GetItem(s, chunks, u, v, buf, buf', src, base, q);
    }
  }

  lemma GotNothing(s: Slice, chunks: seq<seq<Item>>, u: nat, v: nat, buf: seq<Item>)
    requires s.Valid() && Got(s, chunks, buf, u, v)
    requires u < Volume(s.Count()) && v < s.g.Blocks() && Positive(s.Count()) && Positive(s.g.BlockGrid())
    requires BlockEmpty(s.g, s.start, s.stop, s.ChunkAt(u), Unravel(v, s.g.BlockGrid()))
    ensures Got(s, chunks, buf, u, v + 1)
  {
    var v' := v + 1;
    hide Wanted, BlockEmpty;
    forall q: Index | InBox(q, s.bufshape)
      ensures At(buf, Ravel(q, s.bufshape)) == Wanted(s, chunks, q, u, v')
    {
      SkipItem(s, chunks, u, v, q);
    }
  }

  // ---- a whole read

  lemma {:induction false} GotStart(s: Slice, chunks: seq<seq<Item>>, buf: seq<Item>)
    requires s.Valid() && s.Room() <= |buf| && forall i :: 0 <= i < |buf| ==> buf[i] == 0
    ensures Got(s, chunks, buf, 0, 0)
  {
  }

  /** When all its blocks are done, a chunk is done. */
  lemma GotChunk(s: Slice, chunks: seq<seq<Item>>, buf: seq<Item>, u: nat)
    requires s.Valid() && Got(s, chunks, buf, u, s.g.Blocks())
    ensures Got(s, chunks, buf, u + 1, 0)
  {
    var u' := u + 1;
    forall q: Index | InBox(q, s.bufshape)
      ensures At(buf, Ravel(q, s.bufshape)) == Wanted(s, chunks, q, u', 0)
    {
      var idx := Plus(q, s.start);
      if InSlice(idx, s.start, s.stop) {
        PlaceBound(s.g, idx);
      }
    }
  }

  /** A chunk that does not meet the slice adds nothing. */
  lemma GotNoChunk(s: Slice, chunks: seq<seq<Item>>, buf: seq<Item>, u: nat)
    requires s.Valid() && Got(s, chunks, buf, u, 0) && u < Volume(s.Count()) && Positive(s.Count())
    requires ChunkEmpty(s.g, s.start, s.stop, s.ChunkAt(u))
    ensures Got(s, chunks, buf, u + 1, 0)
  {
    var u' := u + 1;
    hide ChunkEmpty;
    forall q: Index | InBox(q, s.bufshape)
      ensures At(buf, Ravel(q, s.bufshape)) == Wanted(s, chunks, q, u', 0)
    {
      var idx := Plus(q, s.start);
      if InSlice(idx, s.start, s.stop) && s.Turn(idx) == u {
        TurnIsChunk(s, idx, u);
        ChunkMeets(s.g, s.start, s.stop, s.ChunkAt(u), idx);
      }
    }
  }

  /** The buffer holds the elements of the slice, each where its index says, and zeros elsewhere. */
  ghost predicate SliceRead(s: Slice, chunks: seq<seq<Item>>, buf: seq<Item>)
    requires s.Valid()
  {
    s.Room() <= |buf| &&
    forall q: Index :: InBox(q, s.bufshape) ==>
      At(buf, Ravel(q, s.bufshape)) ==
      if InSlice(Plus(q, s.start), s.start, s.stop) then Value(s.g, chunks, Plus(q, s.start)) else 0
  }

  lemma GotAll(s: Slice, chunks: seq<seq<Item>>, buf: seq<Item>)
    requires s.Valid() && Got(s, chunks, buf, Volume(s.Count()), 0)
    ensures SliceRead(s, chunks, buf)
  {
    forall q: Index | InBox(q, s.bufshape)
      ensures At(buf, Ravel(q, s.bufshape)) ==
              if InSlice(Plus(q, s.start), s.start, s.stop) then Value(s.g, chunks, Plus(q, s.start)) else 0
    {
      var idx := Plus(q, s.start);
      if InSlice(idx, s.start, s.stop) {
        TurnInBox(s, idx);
        RavelBound(Minus(s.g.ChunkOf(idx), s.First()), s.Count());
      }
    }
  }

  /** Which blocks of a chunk a read can leave out, and how many it needs. */
  method BlockMask(s: Slice, x: Index) returns (mask: seq<bool>, needed: nat)
    requires s.Valid() && |x| == |s.g.shape|
    ensures |mask| == s.g.Blocks() && Positive(s.g.BlockGrid())
    ensures forall v :: 0 <= v < |mask| ==> mask[v] == BlockEmpty(s.g, s.start, s.stop, x, Unravel(v, s.g.BlockGrid()))
    ensures needed == Unmasked(mask)
  {
    BlockGridPositive(s.g);
    hide BlockEmpty, Unravel, Slice.Valid, Geometry.Blocks, Geometry.BlockGrid;
    mask, needed := [], 0;
    for v := 0 to s.g.Blocks()
      invariant |mask| == v && needed == Unmasked(mask)
      invariant forall k :: 0 <= k < v ==> mask[k] == BlockEmpty(s.g, s.start, s.stop, x, Unravel(k, s.g.BlockGrid()))
    {
      var y := UnidimToMultidim(s.g.BlockGrid(), v);
      var empty := BlockEmpty(s.g, s.start, s.stop, x, y);
      assert (mask + [empty])[..v] == mask;
      mask := mask + [empty];
      if !empty {
        needed := needed + 1;
      }
    }
  }

  function Unmasked(mask: seq<bool>): nat {
    if mask == [] then 0
    else Unmasked(mask[..|mask| - 1]) + if mask[|mask| - 1] then 0 else 1
  }

  /** Decompression with a mask: the blocks that are masked out keep whatever the buffer held. */
  method DecompressMasked(chunk: seq<Item>, mask: seq<bool>, items: nat, data: array<Item>)
    requires |chunk| == data.Length == Times(|mask|, items)
    modifies data
    ensures forall v :: 0 <= v < |mask| && !mask[v] ==> BlockFrom(data[..], Times(v, items), chunk, v, items)
  {
    for v := 0 to |mask|
      invariant forall k :: 0 <= k < v && !mask[k] ==> BlockFrom(data[..], Times(k, items), chunk, k, items)
    {
      if !mask[v] {
        BlocksApart(v, |mask|, items);
        ghost var before := data[..];
        CopyItems(data, Times(v, items), chunk, Times(v, items), items);
        forall k | 0 <= k <= v && !mask[k]
          ensures BlockFrom(data[..], Times(k, items), chunk, k, items)
        {
          BlocksApart(k, v, items);
          assert k < v ==> BlockFrom(before, Times(k, items), chunk, k, items);
          KeepBlock(before, data[..], chunk, k, v, items);
        }
      }
    }
  }

  lemma BlocksApart(k: nat, v: nat, items: nat)
    ensures k < v ==> Times(k, items) + items <= Times(v, items)
  {
    if k < v {
      MulMono(k + 1, v, items);
      MulDistrib(k, 1, items);
    }
  }

  lemma KeepBlock(before: seq<Item>, data: seq<Item>, chunk: seq<Item>, k: nat, v: nat, items: nat)
    requires |before| == |data| == |chunk| && Times(v, items) + items <= |data| && k <= v
    requires k < v ==> Times(k, items) + items <= Times(v, items) && BlockFrom(before, Times(k, items), chunk, k, items)
    requires forall i :: 0 <= i < |data| ==>
      data[i] == if Times(v, items) <= i < Times(v, items) + items then chunk[i] else before[i]
    ensures BlockFrom(data, Times(k, items), chunk, k, items)
  {
  }

  /** Where the blocks of a chunk come from in a read: the scratch buffer, or the chunk itself. */
  ghost predicate Readable(s: Slice, x: Index, chunk: seq<Item>, compact: bool, data: seq<Item>)
    requires s.Valid() && |x| == |s.g.shape| && Positive(s.g.BlockGrid())
  {
    !compact ==> forall v ::
      0 <= v < s.g.Blocks() && !BlockEmpty(s.g, s.start, s.stop, x, Unravel(v, s.g.BlockGrid())) ==>
      BlockFrom(data, Times(v, s.g.BlockItems()), chunk, v, s.g.BlockItems())
  }

  lemma WholeBlock(chunk: seq<Item>, v: nat, blocks: nat, items: nat)
    requires v < blocks && |chunk| == Times(blocks, items)
    ensures Times(v, items) + items <= |chunk|
    ensures BlockFrom(chunk[Times(v, items)..Times(v, items) + items], 0, chunk, v, items)
  {
    BlocksApart(v, blocks, items);
  }

  /** Copy one block, from the scratch buffer or, on the compact path, decompressed by itself. */
  method GetBlock(s: Slice, ghost chunks: seq<seq<Item>>, ghost u: nat, x: Index, chunk: seq<Item>, compact: bool,
                  data: array<Item>, v: nat, buffer: array<Item>)
    requires s.Valid() && data != buffer
    requires u < Volume(s.Count()) && v < s.g.Blocks() && Positive(s.Count()) && Positive(s.g.BlockGrid())
             && x == s.ChunkAt(u)
    requires Ravel(x, s.g.Grid()) < |chunks| && chunk == chunks[Ravel(x, s.g.Grid())] && |chunk| == s.g.ChunkItems()
    requires Readable(s, x, chunk, compact, data[..])
    requires Got(s, chunks, buffer[..], u, v)
    modifies buffer
    ensures Got(s, chunks, buffer[..], u, v + 1)
  {
    var y := UnidimToMultidim(s.g.BlockGrid(), v);
    if BlockEmpty(s.g, s.start, s.stop, x, y) {
      GotNothing(s, chunks, u, v, buffer[..]);
      return;
    }
    var items := s.g.BlockItems();
    WholeBlock(chunk, v, s.g.Blocks(), items);
    var src := if compact then chunk[Times(v, items)..Times(v, items) + items] else data[..];
    var base := if compact then 0 else Times(v, items);
    assert BlockFrom(src, base, chunk, v, items);
    ViewsValid(s, x, y, base, |src|, buffer.Length);
    ghost var before := buffer[..];
    CopyBuffer(BlockSize(s, x, y), src, BlockView(s, x, y, base), buffer, BufferView(s, x, y));
    GotBlock(s, chunks, u, v, before, buffer[..], src, base);
  }
}
