/**
 Two-level partitioning: an array is cut into chunks and each chunk into blocks, both padded
 to whole parts (`update_shape_struct`, `b2nd_get_sparse_cbuffer` and `nchunk_fastpath`,
 blosc/b2nd.c).
 */
module NdGeometry {
  import opened Arith
  import opened NdIndex

  // ---- axis by axis

  function Div(a: Index, b: Index): (r: Index)
    requires |a| == |b| && Positive(b)
    ensures |r| == |a| && forall i :: 0 <= i < |a| ==> r[i] == a[i] / b[i]
  {
    seq(|a|, i requires 0 <= i < |a| => a[i] / b[i])
  }

  function Mod(a: Index, b: Index): (r: Index)
    requires |a| == |b| && Positive(b)
    ensures |r| == |a| && forall i :: 0 <= i < |a| ==> r[i] == a[i] % b[i]
  {
    seq(|a|, i requires 0 <= i < |a| => a[i] % b[i])
  }

  /** `extshape`, `extchunkshape`: rounded up to a multiple. */
  function RoundUp(x: nat, v: nat): nat
    requires v > 0
  {
    if x % v == 0 then x else x + v - x % v
  }

  /** How many parts of size `v` an axis of length `x` takes. */
  function Parts(x: nat, v: nat): nat
    requires v > 0
  {
    RoundUp(x, v) / v
  }

  lemma PartsCover(x: nat, v: nat)
    requires v > 0
    ensures Parts(x, v) * v == RoundUp(x, v) && x <= RoundUp(x, v) < x + v
  {
    if x % v == 0 {
      assert x == x / v * v;
    } else {
      MulDistrib(x / v, 1, v);
      assert RoundUp(x, v) == (x / v + 1) * v + 0;
      DivIsUnique(RoundUp(x, v), v, x / v + 1, 0);
    }
  }

  /** A coordinate within the axis falls in one of its parts. */
  lemma PartOf(x: nat, n: nat, v: nat)
    requires v > 0 && x < n
    ensures x / v < Parts(n, v)
  {
    PartsCover(n, v);
    DivBelow(x, Parts(n, v), v);
  }

  function AllParts(a: Index, b: Index): (r: Index)
    requires |a| == |b| && Positive(b)
    ensures |r| == |a| && forall i :: 0 <= i < |a| ==> r[i] == Parts(a[i], b[i])
  {
    seq(|a|, i requires 0 <= i < |a| => Parts(a[i], b[i]))
  }

  // ---- chunks and blocks

  datatype Geometry = Geometry(shape: Index, chunkshape: Index, blockshape: Index) {
    ghost predicate Valid() {
      && |shape| == |chunkshape| == |blockshape|
      && Positive(chunkshape) && Positive(blockshape)
    }

    /** Chunks along each axis. */
    function Grid(): Index
      requires Valid()
    {
      AllParts(shape, chunkshape)
    }

    /** Blocks along each axis of a chunk. */
    function BlockGrid(): Index
      requires Valid()
    {
      AllParts(chunkshape, blockshape)
    }

    function Chunks(): nat
      requires Valid()
    {
      Volume(Grid())
    }

    function BlockItems(): nat { Volume(blockshape) }

    function Blocks(): nat
      requires Valid()
    {
      Volume(BlockGrid())
    }

    /** `extchunknitems`: the items of a stored chunk, padding included. */
    function ChunkItems(): nat
      requires Valid()
    {
      Times(Blocks(), BlockItems())
    }

    /** The chunk that holds an index, and the block and item within it. */
    function ChunkOf(idx: Index): (r: Index)
      requires Valid() && |idx| == |shape|
      ensures |r| == |shape|
    {
      Div(idx, chunkshape)
    }

    function BlockOf(idx: Index): (r: Index)
      requires Valid() && |idx| == |shape|
      ensures |r| == |shape|
    {
      Div(Mod(idx, chunkshape), blockshape)
    }

    function ItemOf(idx: Index): (r: Index)
      requires Valid() && |idx| == |shape|
      ensures |r| == |shape|
    {
      Mod(Mod(idx, chunkshape), blockshape)
    }

    function ChunkNo(idx: Index): nat
      requires Valid() && |idx| == |shape|
    {
      Ravel(ChunkOf(idx), Grid())
    }

    function BlockNo(idx: Index): nat
      requires Valid() && |idx| == |shape|
    {
      Ravel(BlockOf(idx), BlockGrid())
    }

    /** The position of an index within its stored chunk. */
    function Place(idx: Index): nat
      requires Valid() && |idx| == |shape|
    {
      Times(BlockNo(idx), BlockItems()) + Ravel(ItemOf(idx), blockshape)
    }

    /** The position of an index in the whole storage. */
    function StorageCoord(idx: Index): nat
      requires Valid() && |idx| == |shape|
    {
      Times(ChunkNo(idx), ChunkItems()) + Place(idx)
    }
  }

  lemma PartsInside(g: Geometry, idx: Index)
    requires g.Valid() && InBox(idx, g.shape)
    ensures InBox(g.ChunkOf(idx), g.Grid())
    ensures InBox(g.BlockOf(idx), g.BlockGrid())
    ensures InBox(g.ItemOf(idx), g.blockshape)
  {
    forall i | 0 <= i < |idx|
      ensures g.ChunkOf(idx)[i] < g.Grid()[i]
    {
      PartOf(idx[i], g.shape[i], g.chunkshape[i]);
    }
    InnerParts(g, idx);
  }

  /** Every index, in the array or not, falls in a block of its chunk and on an item of that block. */
  lemma InnerParts(g: Geometry, idx: Index)
    requires g.Valid() && |idx| == |g.shape|
    ensures InBox(g.BlockOf(idx), g.BlockGrid())
    ensures InBox(g.ItemOf(idx), g.blockshape)
  {
    forall i | 0 <= i < |idx|
      ensures g.BlockOf(idx)[i] < g.BlockGrid()[i] && g.ItemOf(idx)[i] < g.blockshape[i]
    {
      PartOf(idx[i] % g.chunkshape[i], g.chunkshape[i], g.blockshape[i]);
    }
  }

  lemma InnerBound(g: Geometry, idx: Index)
    requires g.Valid() && |idx| == |g.shape|
    ensures g.BlockNo(idx) < g.Blocks()
    ensures Ravel(g.ItemOf(idx), g.blockshape) < g.BlockItems() && g.Place(idx) < g.ChunkItems()
  {
    InnerParts(g, idx);
    RavelBound(g.BlockOf(idx), g.BlockGrid());
    RavelBound(g.ItemOf(idx), g.blockshape);
    MulLess(g.BlockNo(idx), g.Blocks(), g.BlockItems(), Ravel(g.ItemOf(idx), g.blockshape));
  }

  /** Each element has its place: within the chunks stored and within its chunk. */
  lemma PlaceBound(g: Geometry, idx: Index)
    requires g.Valid() && InBox(idx, g.shape)
    ensures g.ChunkNo(idx) < g.Chunks() && g.BlockNo(idx) < g.Blocks()
    ensures Ravel(g.ItemOf(idx), g.blockshape) < g.BlockItems() && g.Place(idx) < g.ChunkItems()
  {
    PartsInside(g, idx);
    RavelBound(g.ChunkOf(idx), g.Grid());
    InnerBound(g, idx);
  }

  /** Chunk, block and item together determine the index. */
  lemma PartsDetermine(g: Geometry, a: Index, b: Index)
    requires g.Valid() && |a| == |b| == |g.shape|
    requires g.ChunkOf(a) == g.ChunkOf(b) && g.BlockOf(a) == g.BlockOf(b) && g.ItemOf(a) == g.ItemOf(b)
    ensures a == b
  {
    forall i | 0 <= i < |a|
      ensures a[i] == b[i]
    {
      var c, k := g.chunkshape[i], g.blockshape[i];
      assert g.ChunkOf(a)[i] == a[i] / c && g.ChunkOf(b)[i] == b[i] / c;
      assert g.BlockOf(a)[i] == a[i] % c / k && g.BlockOf(b)[i] == b[i] % c / k;
      assert g.ItemOf(a)[i] == a[i] % c % k && g.ItemOf(b)[i] == b[i] % c % k;
      SameQuotient(a[i] % c, b[i] % c, k);
      SameQuotient(a[i], b[i], c);
    }
  }

  lemma SameQuotient(x: nat, y: nat, v: nat)
    requires v > 0 && x / v == y / v && x % v == y % v
    ensures x == y
  {
  }

  /** Indices in chunks of the grid that have the same place there are the same. */
  lemma PlaceDetermines(g: Geometry, a: Index, b: Index)
    requires g.Valid() && |a| == |b| == |g.shape| && InBox(g.ChunkOf(a), g.Grid()) && InBox(g.ChunkOf(b), g.Grid())
    requires g.ChunkNo(a) == g.ChunkNo(b) && g.Place(a) == g.Place(b)
    ensures a == b
  {
    InnerParts(g, a);
    InnerParts(g, b);
    InnerBound(g, a);
    InnerBound(g, b);
    DivIsUnique(g.Place(a), g.BlockItems(), g.BlockNo(a), Ravel(g.ItemOf(a), g.blockshape));
    DivIsUnique(g.Place(b), g.BlockItems(), g.BlockNo(b), Ravel(g.ItemOf(b), g.blockshape));
    RavelInjective(g.ChunkOf(a), g.ChunkOf(b), g.Grid());
    RavelInjective(g.BlockOf(a), g.BlockOf(b), g.BlockGrid());
    RavelInjective(g.ItemOf(a), g.ItemOf(b), g.blockshape);
    PartsDetermine(g, a, b);
  }

  /** Distinct elements have distinct places. */
  lemma PlaceInjective(g: Geometry, a: Index, b: Index)
    requires g.Valid() && InBox(a, g.shape) && InBox(b, g.shape)
    requires g.ChunkNo(a) == g.ChunkNo(b) && g.Place(a) == g.Place(b)
    ensures a == b
  {
    PartsInside(g, a);
    PartsInside(g, b);
    PlaceDetermines(g, a, b);
  }

  /** The storage offset map is injective into the stored items. */
  lemma StorageInjective(g: Geometry, a: Index, b: Index)
    requires g.Valid() && InBox(a, g.shape) && InBox(b, g.shape)
    ensures g.StorageCoord(a) < g.Chunks() * g.ChunkItems()
    ensures g.StorageCoord(a) == g.StorageCoord(b) ==> a == b
  {
    hide Geometry.Place, Geometry.ChunkNo, Geometry.Chunks, Geometry.ChunkItems;
    PlaceBound(g, a);
    PlaceBound(g, b);
    MulLess(g.ChunkNo(a), g.Chunks(), g.ChunkItems(), g.Place(a));
    if g.StorageCoord(a) == g.StorageCoord(b) {
      DivIsUnique(g.StorageCoord(a), g.ChunkItems(), g.ChunkNo(a), g.Place(a));
      DivIsUnique(g.StorageCoord(b), g.ChunkItems(), g.ChunkNo(b), g.Place(b));
      PlaceInjective(g, a, b);
    }
  }
}
