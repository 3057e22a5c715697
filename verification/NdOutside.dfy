/**
 What an orthogonal selection reads for an entry that is no coordinate of the array
 (`orthogonal_selection`, blosc/b2nd.c): its bounds check accepts an entry equal to the length of
 the axis and every negative entry, and its size check accepts buffers that are too small.
 */
module NdOutside {
  import opened Arith
  import opened NdIndex
  import opened NdGeometry
  import opened NdCopy
  import opened NdSlice
  import opened NdOrthogonal

  // ---- the checks

  /** No entry is negative or the length of its axis. */
  predicate NoneAtEnd(g: Geometry, sel: seq<seq<int>>) {
    forall i, j :: 0 <= i < |sel| && i < |g.shape| && 0 <= j < |sel[i]| ==> 0 <= sel[i][j] != g.shape[i]
  }

  /**
   The bounds check lets exactly coordinates through when no entry is negative or the length of its
   axis, and only then.
   */
  lemma BoundsCheckExact(g: Geometry, sel: seq<seq<int>>)
    ensures (PassesCheck(g, sel) ==> Coordinates(g, sel)) <==> (PassesCheck(g, sel) ==> NoneAtEnd(g, sel))
    ensures Coordinates(g, sel) ==> PassesCheck(g, sel) && NoneAtEnd(g, sel)
  {
    if PassesCheck(g, sel) && NoneAtEnd(g, sel) {
      forall i, j | 0 <= i < |sel| && i < |g.shape| && 0 <= j < |sel[i]|
        ensures 0 <= sel[i][j] < g.shape[i]
      {
        assert sel[i][j] <= g.shape[i];
      }
    }
  }

  /**
   The size check accepts exactly the buffers that hold the selection when the buffer has exactly
   its size, and only then.
   */
  lemma SizeCheckExact(g: Geometry, sel: seq<seq<int>>, typesize: nat, buffersize: int)
    requires PassesCheck(g, sel)
    ensures var size := Product(sel, typesize, |sel|);
            (Accepted(g, sel, typesize, buffersize) <==> size <= buffersize) <==> buffersize == size
  {
  }

  /** For two one-byte items, a buffer of one byte is accepted and one of three bytes is rejected. */
  lemma SizeCheckExample()
    ensures var g, sel := Geometry([2], [2], [2]), [[0, 1]];
            Coordinates(g, sel) && Product(sel, 1, 1) == 2 && Accepted(g, sel, 1, 1) && !Accepted(g, sel, 1, 3)
  {
    var sel: seq<seq<int>> := [[0, 1]];
    assert Product(sel, 1, 0) == 1;
    assert Product(sel, 1, 1) == 1 * |sel[0]|;
  }

  // ---- entries past the end

  /** The chunks of coordinates are always there. */
  lemma CoordinatesAreThere(g: Geometry, chunks: seq<seq<Item>>, sel: seq<seq<int>>)
    requires Stored(g, chunks) && |sel| == |g.shape| && Coordinates(g, sel)
    ensures AllThere(g, chunks, sel)
  {
    forall q: Index | |q| == |sel| && InLists(q, sel)
      ensures g.ChunkNo(Chosen1(sel, q)) < |chunks|
    {
      var idx := Chosen1(sel, q);
      forall i | 0 <= i < |idx|
        ensures idx[i] < g.shape[i]
      {
        assert q[i] < |sel[i]|;
        assert 0 <= sel[i][q[i]] < g.shape[i];
      }
      PlaceBound(g, idx);
    }
  }

  /** The index whose place the entries lead to: the chunk that has the number, at the remainders in it. */
  function Landing(g: Geometry, idx: Index): (r: Index)
    requires g.Valid() && |idx| == |g.shape| && g.ChunkNo(idx) < g.Chunks()
    ensures |r| == |idx|
  {
    VolumeZero(g.Grid());
    var x := Unravel(g.ChunkNo(idx), g.Grid());
    seq(|idx|, i requires 0 <= i < |idx| => x[i] * g.chunkshape[i] + idx[i] % g.chunkshape[i])
  }

  lemma LandingParts(g: Geometry, idx: Index)
    requires g.Valid() && |idx| == |g.shape| && g.ChunkNo(idx) < g.Chunks()
    ensures var r := Landing(g, idx);
            && InBox(g.ChunkOf(r), g.Grid()) && g.ChunkNo(r) == g.ChunkNo(idx)
              && Mod(r, g.chunkshape) == Mod(idx, g.chunkshape)
  {
    VolumeZero(g.Grid());
    RavelUnravel(g.ChunkNo(idx), g.Grid());
    hide Ravel, Unravel, Volume, AllParts, InBox;
    Recomposed(Unravel(g.ChunkNo(idx), g.Grid()), idx, g.chunkshape, Landing(g, idx));
  }

  /** Digits and remainders of an index that is composed of them. */
  lemma Recomposed(x: Index, idx: Index, shape: Index, r: Index)
    requires |x| == |idx| == |shape| == |r| && Positive(shape)
    requires forall i :: 0 <= i < |r| ==> r[i] == x[i] * shape[i] + idx[i] % shape[i]
    ensures Div(r, shape) == x && Mod(r, shape) == Mod(idx, shape)
  {
    forall i | 0 <= i < |r|
      ensures r[i] / shape[i] == x[i] && r[i] % shape[i] == idx[i] % shape[i]
    {
      DivIsUnique(r[i], shape[i], x[i], idx[i] % shape[i]);
    }
  }

  /**
   The landing is in a chunk of the grid, has the number and the place, and is the index itself if
   that was in the grid.
   */
  lemma LandingPlace(g: Geometry, idx: Index)
    requires g.Valid() && |idx| == |g.shape| && g.ChunkNo(idx) < g.Chunks()
    ensures var r := Landing(g, idx);
            && InBox(g.ChunkOf(r), g.Grid()) && g.ChunkNo(r) == g.ChunkNo(idx) && g.Place(r) == g.Place(idx)
            && (InBox(g.ChunkOf(idx), g.Grid()) ==> r == idx)
  {
    hide Landing, Ravel, Volume, Geometry.ChunkNo, Geometry.Chunks, Geometry.ChunkOf, InBox, AllParts, Mod, Div;
    LandingParts(g, idx);
    if InBox(g.ChunkOf(idx), g.Grid()) {
      PlaceDetermines(g, Landing(g, idx), idx);
    }
  }

  /**
   Entries that lead to a stored chunk read an element in every array exactly if it is the landing:
   padding if that is outside.
   */
  lemma LandingExact(g: Geometry, idx: Index, e: Index)
    requires g.Valid() && |idx| == |g.shape| && g.ChunkNo(idx) < g.Chunks() && InBox(e, g.shape)
    ensures (forall chunks :: Stored(g, chunks) ==> Value(g, chunks, idx) == Value(g, chunks, e)) <==>
            e == Landing(g, idx)
  {
    hide Geometry.ChunkNo, Geometry.Place, Geometry.Chunks, Landing, Ravel, Volume;
    LandingPlace(g, idx);
    PlaceBound(g, e);
    PartsInside(g, e);
    InnerBound(g, idx);
    var n, items := g.Chunks(), g.ChunkItems();
    var chunks := Telltale(n, items);
    assert Stored(g, chunks);
    if Value(g, chunks, idx) == Value(g, chunks, e) {
      SamePosition(items, g.ChunkNo(idx), g.Place(idx), g.ChunkNo(e), g.Place(e));
      PlaceDetermines(g, Landing(g, idx), e);
    }
  }

  lemma SamePosition(items: nat, c: nat, i: nat, d: nat, j: nat)
    requires i < items && j < items && Times(c, items) + i == Times(d, items) + j
    ensures c == d && i == j
  {
    DivIsUnique(Times(c, items) + i, items, c, i);
    DivIsUnique(Times(d, items) + j, items, d, j);
  }

  /**
   An accepted entry leads out of the grid along its axis exactly if it is the length, and the
   length is whole chunks.
   */
  lemma EndOfAxis(g: Geometry, i: nat, k: nat)
    requires g.Valid() && i < |g.shape| && k <= g.shape[i]
    ensures k / g.chunkshape[i] >= g.Grid()[i] <==> k == g.shape[i] && k % g.chunkshape[i] == 0
  {
    var n, v := g.shape[i], g.chunkshape[i];
    PartsCover(n, v);
    if k < n {
      PartOf(k, n, v);
    } else if n % v == 0 {
      DivIsUnique(n, v, Parts(n, v), 0);
    } else {
      DivBelow(n, Parts(n, v), v);
    }
  }

  /** Past the end of the first axis there is no chunk, and the read fails. */
  lemma EndOfFirstAxis(g: Geometry, idx: Index)
    requires g.Valid() && |idx| == |g.shape| > 0 && g.ChunkOf(idx)[0] >= g.Grid()[0]
    ensures g.ChunkNo(idx) >= g.Chunks()
  {
    var grid := g.Grid();
    MulMono(grid[0], g.ChunkOf(idx)[0], Volume(grid[1..]));
  }

  /** In an array of two by two, the second row is its own chunk, and the entries 0 and 2 read its first element. */
  lemma NeighbourExample()
    ensures var g, sel := Geometry([2, 2], [1, 2], [1, 2]), [[0], [2]];
            && g.Valid() && Accepted(g, sel, 1, 1) && !Coordinates(g, sel) && Chosen1(sel, [0, 0]) == [0, 2]
            && g.ChunkNo([0, 2]) == 1 < g.Chunks() && Landing(g, [0, 2]) == [1, 0]
  {
    var g, sel: seq<seq<int>> := Geometry([2, 2], [1, 2], [1, 2]), [[0], [2]];
    var r := Chosen1(sel, [0, 0]);
    assert r[0] == sel[0][0] && r[1] == sel[1][0];
    NeighbourAccepted(g, sel);
    assert g.Grid() == [2, 1];
  }

  lemma NeighbourAccepted(g: Geometry, sel: seq<seq<int>>)
    requires g.shape == [2, 2] && sel == [[0], [2]]
    ensures Accepted(g, sel, 1, 1) && !Coordinates(g, sel)
  {
    assert sel[1][0] == 2;
    assert Product(sel, 1, 0) == 1 && Product(sel, 1, 1) == 1 && Product(sel, 1, 2) == 1;
  }

  /** In an array of three items in chunks of two, the entry 3 reads the padding item. */
  lemma PaddingExample()
    ensures var g, sel := Geometry([3], [2], [2]), [[3]];
            && g.Valid() && Accepted(g, sel, 1, 1) && !Coordinates(g, sel)
            && g.ChunkNo([3]) == 1 < g.Chunks() && Landing(g, [3]) == [3]
  {
    var sel: seq<seq<int>> := [[3]];
    assert sel[0][0] == 3 && Product(sel, 1, 0) == 1 && Product(sel, 1, 1) == 1;
  }

  // ---- negative entries

  /** The division and remainder of C. */
  function Quot(x: int, v: int): int
    requires v > 0
  {
    if x >= 0 then x / v else -(-x / v)
  }

  function Rem(x: int, v: int): int
    requires v > 0
  {
    x - Quot(x, v) * v
  }

  function Quots(key: seq<int>, shape: Index): (r: seq<int>)
    requires |key| == |shape| && Positive(shape)
    ensures |r| == |key| && forall i :: 0 <= i < |key| ==> r[i] == Quot(key[i], shape[i])
  {
    seq(|key|, i requires 0 <= i < |key| => Quot(key[i], shape[i]))
  }

  function Rems(key: seq<int>, shape: Index): (r: seq<int>)
    requires |key| == |shape| && Positive(shape)
    ensures |r| == |key| && forall i :: 0 <= i < |key| ==> r[i] == Rem(key[i], shape[i])
  {
    seq(|key|, i requires 0 <= i < |key| => Rem(key[i], shape[i]))
  }

  /** `nchunk`, `nblock` and `start_block` for entries of either sign. */
  function ChunkNumber(g: Geometry, key: seq<int>): int
    requires g.Valid() && |key| == |g.shape|
  {
    Sum(Quots(key, g.chunkshape), g.Grid())
  }

  function BlockNumber(g: Geometry, key: seq<int>): int
    requires g.Valid() && |key| == |g.shape|
  {
    Sum(Quots(Rems(key, g.chunkshape), g.blockshape), g.BlockGrid())
  }

  function ItemNumber(g: Geometry, key: seq<int>): int
    requires g.Valid() && |key| == |g.shape|
  {
    Sum(Rems(Rems(key, g.chunkshape), g.blockshape), g.blockshape)
  }

  function Sum(digits: seq<int>, shape: Index): int
    requires |digits| == |shape|
  {
    if shape == [] then 0 else digits[0] * Volume(shape[1..]) + Sum(digits[1..], shape[1..])
  }

  /** For entries that are not negative these are the numbers of the model. */
  lemma NumbersAgree(g: Geometry, idx: Index)
    requires g.Valid() && |idx| == |g.shape|
    ensures ChunkNumber(g, idx) == g.ChunkNo(idx) && BlockNumber(g, idx) == g.BlockNo(idx)
    ensures ItemNumber(g, idx) == Ravel(g.ItemOf(idx), g.blockshape)
  {
    hide Sum, Ravel, Rem, Quot;
    NatParts(idx, g.chunkshape);
    NatParts(Mod(idx, g.chunkshape), g.blockshape);
    SumIsRavel(g.ChunkOf(idx), g.Grid());
    SumIsRavel(g.BlockOf(idx), g.BlockGrid());
    SumIsRavel(g.ItemOf(idx), g.blockshape);
  }

  lemma NatParts(idx: Index, shape: Index)
    requires |idx| == |shape| && Positive(shape)
    ensures Quots(idx, shape) == Div(idx, shape) && Rems(idx, shape) == Mod(idx, shape)
  {
    forall i | 0 <= i < |idx|
      ensures Rem(idx[i], shape[i]) == idx[i] % shape[i] && Quot(idx[i], shape[i]) == idx[i] / shape[i]
    {
      RemOfNat(idx[i], shape[i]);
    }
  }

  lemma RemOfNat(x: nat, v: nat)
    requires v > 0
    ensures Rem(x, v) == x % v
  {
  }

  lemma {:induction false} SumIsRavel(idx: Index, shape: Index)
    requires |idx| == |shape|
    ensures Sum(idx, shape) == Ravel(idx, shape)
  {
    if shape != [] {
      SumIsRavel(idx[1..], shape[1..]);
    }
  }

  /** On one axis, a small negative entry passes the check and is read before the first item of the chunk. */
  lemma NegativeExact(g: Geometry, k: int)
    requires g.Valid() && |g.shape| == 1 && -g.blockshape[0] < k < 0 && g.blockshape[0] <= g.chunkshape[0]
    ensures PassesCheck(g, [[k]]) && !Coordinates(g, [[k]])
    ensures ChunkNumber(g, [k]) == 0 && BlockNumber(g, [k]) == 0 && ItemNumber(g, [k]) == k
  {
    var sel: seq<seq<int>> := [[k]];
    assert sel[0][0] == k;
    NegativeNumbers(g, k);
  }

  lemma NegativeNumbers(g: Geometry, k: int)
    requires g.Valid() && |g.shape| == 1 && -g.blockshape[0] < k < 0 && g.blockshape[0] <= g.chunkshape[0]
    ensures ChunkNumber(g, [k]) == 0 && BlockNumber(g, [k]) == 0 && ItemNumber(g, [k]) == k
  {
    hide Sum, Quot, Rem;
    QuotSmall(k, g.chunkshape[0]);
    QuotSmall(k, g.blockshape[0]);
    assert Quots([k], g.chunkshape) == [0] && Rems([k], g.chunkshape) == [k];
    assert Quots([k], g.blockshape) == [0] && Rems([k], g.blockshape) == [k];
    SumOne(0, g.Grid());
    SumOne(0, g.BlockGrid());
    SumOne(k, g.blockshape);
  }

  lemma SumOne(x: int, shape: Index)
    requires |shape| == 1
    ensures Sum([x], shape) == x
  {
  }

  lemma SumTwo(x: int, y: int, shape: Index)
    requires |shape| == 2
    ensures Sum([x, y], shape) == x * shape[1] + y
  {
    assert [x, y][1..] == [y] && shape[1..][1..] == [];
    SumOne(y, shape[1..]);
    assert Volume(shape[1..]) == shape[1] * Volume(shape[1..][1..]);
  }

  lemma QuotSmall(k: int, v: nat)
    requires k < 0 < k + v
    ensures Quot(k, v) == 0 && Rem(k, v) == k
  {
    DivIsUnique(0 - k, v, 0, 0 - k);
  }

  /**
   On two axes it may read another element: in a single block of two by two, the entries 1 and -1
   read the element at 0 and 1.
   */
  lemma NegativeExample()
    ensures var g, sel := Geometry([2, 2], [2, 2], [2, 2]), [[1], [-1]];
            && g.Valid() && Accepted(g, sel, 1, 1) && !Coordinates(g, sel)
            && ChunkNumber(g, [1, -1]) == g.ChunkNo([0, 1]) && BlockNumber(g, [1, -1]) == g.BlockNo([0, 1])
            && ItemNumber(g, [1, -1]) == ItemNumber(g, [0, 1]) == Ravel(g.ItemOf([0, 1]), g.blockshape)
  {
    var g, sel: seq<seq<int>> := Geometry([2, 2], [2, 2], [2, 2]), [[1], [-1]];
    NegativeAccepted(g, sel);
    NumbersAgree(g, [0, 1]);
    OneAndMinusOne(g, [1, -1], [0, 1]);
  }

  lemma NegativeAccepted(g: Geometry, sel: seq<seq<int>>)
    requires g.shape == [2, 2] && sel == [[1], [-1]]
    ensures Accepted(g, sel, 1, 1) && !Coordinates(g, sel)
  {
    assert sel[1][0] == -1;
    assert Product(sel, 1, 0) == 1 && Product(sel, 1, 1) == 1 && Product(sel, 1, 2) == 1;
  }

  lemma OneAndMinusOne(g: Geometry, key: seq<int>, idx: Index)
    requires g == Geometry([2, 2], [2, 2], [2, 2]) && key == [1, -1] && idx == [0, 1]
    ensures ChunkNumber(g, key) == ChunkNumber(g, idx) && BlockNumber(g, key) == BlockNumber(g, idx)
    ensures ItemNumber(g, key) == ItemNumber(g, idx)
  {
    hide *;
    var v := g.blockshape;
    OneDigits(key, idx, v);
    SumTwo(1, -1, v);
    SumTwo(0, 1, v);
    NumbersBy(g, key, v);
    NumbersBy(g, idx, v);
  }

  lemma OneDigits(key: seq<int>, idx: Index, v: Index)
    requires v == [2, 2] && key == [1, -1] && idx == [0, 1]
    ensures Positive(v) && Quots(key, v) == Quots(idx, v) == [0, 0] && Rems(key, v) == key && Rems(idx, v) == idx
  {
  }

  lemma NumbersBy(g: Geometry, key: seq<int>, v: Index)
    requires g == Geometry(v, v, v) && Positive(v) && |key| == |v|
    ensures g.Valid() && ChunkNumber(g, key) == Sum(Quots(key, v), g.Grid())
    ensures BlockNumber(g, key) == Sum(Quots(Rems(key, v), v), g.BlockGrid())
            && ItemNumber(g, key) == Sum(Rems(Rems(key, v), v), v)
  {
  }
}
