/**
 Changing the shape of an array by inserting chunks into its row-major list, in order, or by
 deleting chunks from it, in reverse order (`extend_shape` and `shrink_shape`, blosc/b2nd.c).
 */
module NdResize {
  import opened Arith
  import opened NdIndex
  import opened NdGeometry
  import opened NdBlocks
  import opened NdCopy
  import opened NdSlice

  // ---- two grids, one within the other

  /** How many of the first `i` cells of the large grid, in row-major order, are cells of the small one. */
  function Rank(i: nat, large: Index, small: Index): nat
    requires |small| == |large| && Positive(large)
  {
    if large == [] then i
    else
      VolumePositive(large[1..]);
      var a, r, w := i / Volume(large[1..]), i % Volume(large[1..]), Volume(small[1..]);
      if a < small[0] then Times(a, w) + Rank(r, large[1..], small[1..]) else Times(small[0], w)
  }

  lemma {:induction false} RankStart(large: Index, small: Index)
    requires |small| == |large| && Positive(large)
    ensures Rank(0, large, small) == 0
  {
    if large != [] {
      VolumePositive(large[1..]);
      RankStart(large[1..], small[1..]);
    }
  }

  lemma {:induction false} RankEnd(large: Index, small: Index)
    requires Within(small, large) && Positive(large)
    ensures Rank(Volume(large), large, small) == Volume(small)
  {
    if large != [] {
      VolumePositive(large[1..]);
      DivIsUnique(Volume(large), Volume(large[1..]), large[0], 0);
    }
  }

  /** The rank of a cell that both grids have is its position in the small one. */
  lemma {:induction false} RankOfCell(x: Index, large: Index, small: Index)
    requires |small| == |large| && InBox(x, large) && InBox(x, small)
    ensures Positive(large) && Rank(Ravel(x, large), large, small) == Ravel(x, small)
  {
    assert forall i :: 0 <= i < |large| ==> x[i] < large[i];
    if large != [] {
      BoxCons(x, large);
      BoxCons(x, small);
      RankOfCell(x[1..], large[1..], small[1..]);
      RavelBound(x[1..], large[1..]);
      DivIsUnique(Ravel(x, large), Volume(large[1..]), x[0], Ravel(x[1..], large[1..]));
    }
  }

  lemma RankAt(i: nat, a: nat, r: nat, large: Index, small: Index)
    requires large != [] && |small| == |large| && Positive(large) && r < Volume(large[1..])
             && i == a * Volume(large[1..]) + r
    ensures Rank(i, large, small) ==
            if a < small[0] then Times(a, Volume(small[1..])) + Rank(r, large[1..], small[1..])
              else Times(small[0], Volume(small[1..]))
  {
    DivIsUnique(i, Volume(large[1..]), a, r);
  }

  /** The rank grows by one exactly at the cells of the small grid. */
  lemma {:induction false} RankStep(i: nat, large: Index, small: Index)
    requires Within(small, large) && Positive(large) && i < Volume(large)
    ensures Rank(i + 1, large, small) == Rank(i, large, small) + if InBox(Unravel(i, large), small) then 1 else 0
  {
    if large != [] {
      VolumePositive(large[1..]);
      var a, r := i / Volume(large[1..]), i % Volume(large[1..]);
      CellParts(i, a, r, large, small);
      assert Positive(large[1..]) && Within(small[1..], large[1..]);
      hide Rank, Times, InBox, Unravel, Volume, Within, Positive;
      RankStep(r, large[1..], small[1..]);
      RankAt(i, a, r, large, small);
      RankNext(i, a, r, large, small);
    }
  }

  lemma CellParts(i: nat, a: nat, r: nat, large: Index, small: Index)
    requires large != [] && |small| == |large| && Positive(large) && Volume(large[1..]) > 0
    requires a == i / Volume(large[1..]) && r == i % Volume(large[1..])
    ensures i == a * Volume(large[1..]) + r
    ensures Positive(large[1..])
    ensures InBox(Unravel(i, large), small) <==> a < small[0] && InBox(Unravel(r, large[1..]), small[1..])
  {
  }

  lemma RankNext(i: nat, a: nat, r: nat, large: Index, small: Index)
    requires large != [] && Within(small, large) && Positive(large) && Positive(large[1..])
             && Within(small[1..], large[1..])
    requires r < Volume(large[1..]) && i == a * Volume(large[1..]) + r
    ensures Rank(i + 1, large, small) ==
            if a < small[0] then Times(a, Volume(small[1..])) + Rank(r + 1, large[1..], small[1..])
              else Times(small[0], Volume(small[1..]))
  {
    var v, w := Volume(large[1..]), Volume(small[1..]);
    hide Within, Positive, Volume, Rank;
    if r + 1 < v {
      RankAt(i + 1, a, r + 1, large, small);
    } else {
      MulDistrib(a, 1, v);
      RankAt(i + 1, a + 1, 0, large, small);
      RankEnd(large[1..], small[1..]);
      RankStart(large[1..], small[1..]);
      MulDistrib(a, 1, w);
    }
  }

  // ---- growing

  function Zeros(n: nat): (r: seq<Item>)
    ensures |r| == n && forall i :: 0 <= i < n ==> r[i] == 0
  {
    seq(n, _ => 0)
  }

  /** The list over the large grid: the old chunk where there was one, `fill` elsewhere. */
  function Cell(old_: seq<seq<Item>>, fill: seq<Item>, large: Index, small: Index, k: nat): seq<Item>
    requires |small| == |large| && Positive(large)
  {
    var x := Unravel(k, large);
    if InBoxTest(x, small) && Ravel(x, small) < |old_| then old_[Ravel(x, small)] else fill
  }

  predicate InBoxTest(x: Index, shape: Index)
    requires |x| == |shape|
    ensures InBoxTest(x, shape) <==> InBox(x, shape)
  {
    forall i :: 0 <= i < |x| ==> x[i] < shape[i]
  }

  /** The list when cells before `i` are done: they are as they should be, the rest is still to come. */
  ghost predicate Grown(now: seq<seq<Item>>, old_: seq<seq<Item>>, fill: seq<Item>, large: Index, small: Index, i: nat)
    requires |small| == |large| && Positive(large)
  {
    && i <= |now| && Rank(i, large, small) <= |old_| && now[i..] == old_[Rank(i, large, small)..]
    && forall k :: 0 <= k < i ==> now[k] == Cell(old_, fill, large, small, k)
  }

  lemma GrownInsert(now: seq<seq<Item>>, old_: seq<seq<Item>>, fill: seq<Item>, large: Index, small: Index, i: nat)
    requires Within(small, large) && Positive(large) && i < Volume(large) && |old_| == Volume(small)
    requires Grown(now, old_, fill, large, small, i) && !InBox(Unravel(i, large), small)
    ensures Grown(now[..i] + [fill] + now[i..], old_, fill, large, small, i + 1)
  {
    RankStep(i, large, small);
    assert Cell(old_, fill, large, small, i) == fill;
    hide Rank, Cell, Volume, Unravel;
    var next := now[..i] + [fill] + now[i..];
    assert next[i + 1..] == now[i..];
  }

  lemma GrownKeep(now: seq<seq<Item>>, old_: seq<seq<Item>>, fill: seq<Item>, large: Index, small: Index, i: nat)
    requires Within(small, large) && Positive(large) && i < Volume(large) && |old_| == Volume(small)
    requires Grown(now, old_, fill, large, small, i) && InBox(Unravel(i, large), small)
    ensures Grown(now, old_, fill, large, small, i + 1)
  {
    var x, m := Unravel(i, large), Rank(i, large, small);
    RankStep(i, large, small);
    RavelUnravel(i, large);
    RankOfCell(x, large, small);
    RavelBound(x, small);
    assert m < |old_| && Cell(old_, fill, large, small, i) == old_[m];
    hide Rank, Cell, Volume, Unravel, Ravel;
    assert now[i..][0] == old_[m..][0];
    assert now[i + 1..] == now[i..][1..] && old_[m + 1..] == old_[m..][1..];
  }

  /** When all cells are done the list covers the large grid. */
  lemma GrownAll(now: seq<seq<Item>>, old_: seq<seq<Item>>, fill: seq<Item>, large: Index, small: Index)
    requires Within(small, large) && Positive(large) && |old_| == Volume(small)
    requires Grown(now, old_, fill, large, small, Volume(large))
    ensures |now| == Volume(large)
    ensures forall x: Index :: InBox(x, large) && InBox(x, small) ==>
              Ravel(x, large) < |now| && Ravel(x, small) < |old_| && now[Ravel(x, large)] == old_[Ravel(x, small)]
    ensures forall x: Index ::
            InBox(x, large) && !InBox(x, small) ==> Ravel(x, large) < |now| && now[Ravel(x, large)] == fill
  {
    RankEnd(large, small);
    assert |now[Volume(large)..]| == 0;
    forall x: Index | InBox(x, large)
      ensures Ravel(x, large) < |now| && now[Ravel(x, large)] == Cell(old_, fill, large, small, Ravel(x, large))
      ensures Unravel(Ravel(x, large), large) == x
      ensures InBox(x, small) ==> Ravel(x, small) < |old_|
    {
      RavelBound(x, large);
      UnravelRavel(x, large);
      if InBox(x, small) {
        RavelBound(x, small);
      }
    }
  }

  /** A list that is being grown is never shorter than it was. */
  lemma GrownLength(now: seq<seq<Item>>, old_: seq<seq<Item>>, fill: seq<Item>, large: Index, small: Index, i: nat)
    requires Within(small, large) && Positive(large) && i <= Volume(large) && |old_| == Volume(small)
    requires Grown(now, old_, fill, large, small, i)
    ensures |now| >= |old_|
  {
    RankAtMost(i, large, small);
    assert |now[i..]| == |old_[Rank(i, large, small)..]|;
  }

  lemma {:induction false} RankAtMost(i: nat, large: Index, small: Index)
    requires Within(small, large) && Positive(large) && i <= Volume(large)
    ensures Rank(i, large, small) <= i
  {
    if i == 0 {
      RankStart(large, small);
    } else {
      RankAtMost(i - 1, large, small);
      RankStep(i - 1, large, small);
    }
  }

  // ---- growing along the first axis alone

  lemma {:induction false} FirstAxisRank(i: nat, large: Index, small: Index)
    requires Within(small, large) && Positive(large) && large != [] && large[1..] == small[1..] && i <= Volume(small)
    ensures Rank(i, large, small) == i
  {
    if i == 0 {
      RankStart(large, small);
    } else {
      var k := i - 1;
      FirstAxisRank(k, large, small);
      VolumePositive(large[1..]);
      MulMono(small[0], large[0], Volume(large[1..]));
      DivBelow(k, small[0], Volume(small[1..]));
      RavelUnravel(k, large);
      var x := Unravel(k, large);
      assert x[0] == k / Volume(large[1..]);
      BoxCons(x, large);
      BoxCons(x, small);
      RankStep(k, large, small);
    }
  }

  /** Then the chunks that were there keep their numbers in every state. */
  lemma FirstAxisKeeps(now: seq<seq<Item>>, old_: seq<seq<Item>>, fill: seq<Item>, large: Index, small: Index, i: nat)
    requires Within(small, large) && Positive(large) && i <= Volume(large) && |old_| == Volume(small)
    requires large != [] && large[1..] == small[1..] && Grown(now, old_, fill, large, small, i)
    ensures |now| >= |old_| && now[..|old_|] == old_
  {
    GrownLength(now, old_, fill, large, small, i);
    if i <= |old_| {
      FirstAxisRank(i, large, small);
    }
    forall k | 0 <= k < |old_|
      ensures now[k] == old_[k]
    {
      if k < i {
        FirstAxisCell(old_, fill, large, small, k);
      } else {
        assert now[i..][k - i] == old_[i..][k - i];
      }
    }
  }

  lemma FirstAxisCell(old_: seq<seq<Item>>, fill: seq<Item>, large: Index, small: Index, k: nat)
    requires Within(small, large) && Positive(large) && k < |old_| == Volume(small)
    requires large != [] && large[1..] == small[1..]
    ensures Cell(old_, fill, large, small, k) == old_[k]
  {
    var x, v := Unravel(k, large), Volume(large[1..]);
    VolumePositive(large[1..]);
    MulMono(small[0], large[0], v);
    DivBelow(k, small[0], v);
    RavelUnravel(k, large);
    assert x[0] == k / v && x[1..] == Unravel(k % v, large[1..]);
    BoxCons(x, large);
    BoxCons(x, small);
    assert Ravel(x, small) == Ravel(x, large);
  }

  // ---- shrinking

  /** The chunks of the small grid, taken from the list over the large one. */
  function Picked(old_: seq<seq<Item>>, large: Index, small: Index): (r: seq<seq<Item>>)
    requires |small| == |large| && Positive(small)
    ensures |r| == Volume(small)
    ensures forall m :: 0 <= m < |r| ==> r[m] == Pick(old_, large, small, m)
  {
    seq(Volume(small), m requires 0 <= m < Volume(small) => Pick(old_, large, small, m))
  }

  function Pick(old_: seq<seq<Item>>, large: Index, small: Index, m: nat): seq<Item>
    requires |small| == |large| && Positive(small)
  {
    var k := Ravel(Unravel(m, small), large);
    if k < |old_| then old_[k] else []
  }

  /** The list when the cells from `i` on are done. */
  ghost predicate Shrunk(now: seq<seq<Item>>, old_: seq<seq<Item>>, large: Index, small: Index, i: nat)
    requires |small| == |large| && Positive(large)
  {
    && i <= |old_| && i <= |now| && now[..i] == old_[..i]
    && |now| == i + Volume(small) - Rank(i, large, small)
    && (Positive(small) ==>
          Rank(i, large, small) <= Volume(small) && now[i..] == Picked(old_, large, small)[Rank(i, large, small)..])
  }

  lemma ShrunkStart(old_: seq<seq<Item>>, large: Index, small: Index)
    requires Within(small, large) && Positive(large) && |old_| == Volume(large)
    ensures Shrunk(old_, old_, large, small, |old_|)
  {
    RankEnd(large, small);
  }

  lemma {:induction false} NotPositive(x: Index, small: Index)
    requires InBox(x, small)
    ensures Positive(small)
  {
  }

  lemma ShrunkDelete(now: seq<seq<Item>>, old_: seq<seq<Item>>, large: Index, small: Index, i: nat)
    requires Within(small, large) && Positive(large) && i < Volume(large) == |old_|
    requires Shrunk(now, old_, large, small, i + 1) && !InBox(Unravel(i, large), small)
    ensures Shrunk(now[..i] + now[i + 1..], old_, large, small, i)
  {
    RankStep(i, large, small);
    hide Rank, Volume, Picked, Unravel;
    var i' := i + 1;
    var next := now[..i] + now[i'..];
    assert next[i..] == now[i'..];
    assert now[..i] == now[..i'][..i] && old_[..i] == old_[..i'][..i];
    assert next[..i] == now[..i];
  }

  lemma ShrunkKeep(now: seq<seq<Item>>, old_: seq<seq<Item>>, large: Index, small: Index, i: nat)
    requires Within(small, large) && Positive(large) && i < Volume(large) == |old_|
    requires Shrunk(now, old_, large, small, i + 1) && InBox(Unravel(i, large), small)
    ensures Shrunk(now, old_, large, small, i)
  {
    assert |small| == |large|;
    hide Rank, Unravel, Ravel, Volume, Within, InBox, Positive, Picked, Pick;
    KeptCell(old_, large, small, i);
    TailFrom(now, old_, Picked(old_, large, small), i, Rank(i, large, small));
  }

  /** A cell of the small grid and its place among the chunks that stay. */
  lemma KeptCell(old_: seq<seq<Item>>, large: Index, small: Index, i: nat)
    requires Within(small, large) && Positive(large) && i < Volume(large) == |old_| && InBox(Unravel(i, large), small)
    ensures Positive(small) && Rank(i + 1, large, small) == Rank(i, large, small) + 1
            && Rank(i, large, small) < Volume(small)
    ensures |Picked(old_, large, small)| == Volume(small)
            && Picked(old_, large, small)[Rank(i, large, small)] == old_[i]
  {
    var x, m := Unravel(i, large), Rank(i, large, small);
    hide Rank, Unravel, Ravel, Volume, Picked;
    NotPositive(x, small);
    RankStep(i, large, small);
    RavelUnravel(i, large);
    RankOfCell(x, large, small);
    RavelBound(x, small);
    UnravelRavel(x, small);
    assert Picked(old_, large, small)[m] == Pick(old_, large, small, m);
  }

  lemma TailFrom(now: seq<seq<Item>>, old_: seq<seq<Item>>, picked: seq<seq<Item>>, i: nat, m: nat)
    requires i < |now| && i < |old_| && m < |picked| && picked[m] == old_[i]
    requires now[..i + 1] == old_[..i + 1] && now[i + 1..] == picked[m + 1..]
    ensures now[..i] == old_[..i] && now[i..] == picked[m..]
  {
  }

  lemma ShrunkAll(now: seq<seq<Item>>, old_: seq<seq<Item>>, large: Index, small: Index)
    requires Within(small, large) && Positive(large) && |old_| == Volume(large)
    requires Shrunk(now, old_, large, small, 0)
    ensures |now| == Volume(small)
    ensures forall x: Index :: InBox(x, small) ==>
              Ravel(x, small) < |now| && Ravel(x, large) < |old_| && now[Ravel(x, small)] == old_[Ravel(x, large)]
  {
    RankStart(large, small);
    assert now[0..] == now;
    forall x: Index | InBox(x, small)
      ensures Ravel(x, small) < |now| && Ravel(x, large) < |old_| && now[Ravel(x, small)] == old_[Ravel(x, large)]
    {
      NotPositive(x, small);
      RavelBound(x, small);
      UnravelRavel(x, small);
      RavelBound(x, large);
      var picked := Picked(old_, large, small);
      assert now == picked;
      assert picked[Ravel(x, small)] == Pick(old_, large, small, Ravel(x, small));
    }
  }

  /** A list that is being shrunk is never shorter than the small grid needs. */
  lemma ShrunkLength(now: seq<seq<Item>>, old_: seq<seq<Item>>, large: Index, small: Index, i: nat)
    requires Within(small, large) && Positive(large) && i <= Volume(large)
    requires Shrunk(now, old_, large, small, i)
    ensures |now| >= Volume(small)
  {
    RankAtMost(i, large, small);
  }

  // ---- arrays

  /** What a concurrent reader can see: the shape in the metalayer and the chunks. */
  datatype Snapshot = Snapshot(shape: Index, chunks: seq<seq<Item>>)

  /** The shape that is published never needs more chunks than are stored. */
  ghost predicate Safe(g: Geometry, s: Snapshot)
    requires g.Valid()
  {
    |s.shape| == |g.chunkshape| && Volume(AllParts(s.shape, g.chunkshape)) <= |s.chunks|
  }

  /** The snapshots from number `from` on are safe. */
  ghost predicate AllSafe(g: Geometry, trace: seq<Snapshot>, from: nat)
    requires g.Valid()
  {
    forall k :: from <= k < |trace| ==> Safe(g, trace[k])
  }

  /** In the snapshots from number `from` on, the first chunks are those given. */
  ghost predicate AllKeep(trace: seq<Snapshot>, from: nat, chunks: seq<seq<Item>>) {
    forall k :: from <= k < |trace| ==> Keeps(trace[k].chunks, chunks)
  }

  ghost predicate Keeps(now: seq<seq<Item>>, chunks: seq<seq<Item>>) {
    |chunks| <= |now| && now[..|chunks|] == chunks
  }

  /** The two differ along the first axis at most. */
  ghost predicate FirstAxis(large: Index, small: Index) {
    |large| == |small| && large != [] && large[1..] == small[1..]
  }

  /** A state of a growing list, seen by a reader with the old shape. */
  lemma GrownSafe(g: Geometry, now: seq<seq<Item>>, orig: seq<seq<Item>>, grid: Index, published: Index, i: nat)
    requires g.Valid() && |published| == |g.chunkshape| && Positive(grid) && i <= Volume(grid)
    requires Within(AllParts(published, g.chunkshape), grid) && |orig| == Volume(AllParts(published, g.chunkshape))
    requires Grown(now, orig, Zeros(g.ChunkItems()), grid, AllParts(published, g.chunkshape), i)
    ensures Safe(g, Snapshot(published, now))
    ensures FirstAxis(grid, AllParts(published, g.chunkshape)) ==> Keeps(now, orig)
  {
    var small := AllParts(published, g.chunkshape);
    hide Grown, Rank, Volume, Geometry.ChunkItems;
    GrownLength(now, orig, Zeros(g.ChunkItems()), grid, small, i);
    if FirstAxis(grid, small) {
      FirstAxisKeeps(now, orig, Zeros(g.ChunkItems()), grid, small, i);
    }
  }

  /** Shapes that differ along the first axis at most have such grids. */
  lemma FirstAxisGrids(large: Index, small: Index, chunkshape: Index)
    requires |large| == |small| == |chunkshape| && Positive(chunkshape) && FirstAxis(large, small)
    ensures FirstAxis(AllParts(large, chunkshape), AllParts(small, chunkshape))
  {
  }

  /** If growing takes no more chunks, the grid is the same or has no chunks at all. */
  lemma SameVolume(g: Geometry, chunks: seq<seq<Item>>, shape: Index)
    requires Stored(g, chunks) && |shape| == |g.shape|
    requires Within(g.Grid(), AllParts(shape, g.chunkshape)) && Volume(AllParts(shape, g.chunkshape)) == |chunks|
    ensures Resized(g, chunks, shape, chunks)
  {
    var grid, grid' := g.Grid(), AllParts(shape, g.chunkshape);
    VolumeWithin(grid, grid');
    forall x: Index | InBox(x, grid')
      ensures InBox(x, grid) && Ravel(x, grid') < |chunks|
    {
      RavelBound(x, grid');
    }
  }

  /** The same array with another shape. */
  function Reshaped(g: Geometry, shape: Index): Geometry {
    Geometry(shape, g.chunkshape, g.blockshape)
  }

  /** Each chunk of the new grid is the old chunk at the same coordinates, or zeros where there was none. */
  ghost predicate Resized(g: Geometry, chunks: seq<seq<Item>>, shape: Index, chunks': seq<seq<Item>>)
    requires Stored(g, chunks) && |shape| == |g.shape|
  {
    var grid, grid' := g.Grid(), AllParts(shape, g.chunkshape);
    && |chunks'| == Volume(grid')
    && (forall x: Index :: InBox(x, grid') && InBox(x, grid) ==>
          Ravel(x, grid') < |chunks'| && Ravel(x, grid) < |chunks|
            && chunks'[Ravel(x, grid')] == chunks[Ravel(x, grid)])
    && (forall x: Index :: InBox(x, grid') && !InBox(x, grid) ==>
          Ravel(x, grid') < |chunks'| && chunks'[Ravel(x, grid')] == Zeros(g.ChunkItems()))
  }

  /** A chunk starts at or past the end of an axis exactly when it is past its last part. */
  lemma AxisTest(x: nat, n: nat, c: nat)
    requires c > 0
    ensures n <= Times(x, c) <==> Parts(n, c) <= x
  {
    PartsCover(n, c);
    if Parts(n, c) <= x {
      MulMono(Parts(n, c), x, c);
    } else {
      MulMono(x + 1, Parts(n, c), c);
      MulDistrib(x, 1, c);
    }
  }

  /** The test of both loops: some axis on which the chunk starts between the two lengths. */
  predicate Between(x: Index, small: Index, large: Index, chunkshape: Index)
    requires |x| == |small| == |large| == |chunkshape|
  {
    exists j :: 0 <= j < |x| && small[j] <= Times(chunkshape[j], x[j]) < large[j]
  }

  lemma BetweenIff(x: Index, small: Index, large: Index, chunkshape: Index)
    requires |small| == |large| == |chunkshape| && Positive(chunkshape) && InBox(x, AllParts(large, chunkshape))
    ensures Between(x, small, large, chunkshape) <==> !InBox(x, AllParts(small, chunkshape))
  {
    forall j | 0 <= j < |x|
      ensures small[j] <= Times(chunkshape[j], x[j]) < large[j] <==> Parts(small[j], chunkshape[j]) <= x[j]
    {
      AxisTest(x[j], small[j], chunkshape[j]);
      AxisTest(x[j], large[j], chunkshape[j]);
      assert x[j] < AllParts(large, chunkshape)[j];
      assert Times(chunkshape[j], x[j]) == Times(x[j], chunkshape[j]);
    }
  }

  lemma PartsMono(m: nat, n: nat, c: nat)
    requires c > 0 && m <= n
    ensures Parts(m, c) <= Parts(n, c)
  {
    AxisTest(Parts(n, c), m, c);
    AxisTest(Parts(n, c), n, c);
  }

  lemma GridsWithin(small: Index, large: Index, chunkshape: Index)
    requires |small| == |large| == |chunkshape| && Positive(chunkshape) && Within(small, large)
    ensures Within(AllParts(small, chunkshape), AllParts(large, chunkshape))
  {
    forall j | 0 <= j < |small|
      ensures Parts(small[j], chunkshape[j]) <= Parts(large[j], chunkshape[j])
    {
      PartsMono(small[j], large[j], chunkshape[j]);
    }
  }

  function MinShape(a: Index, b: Index): (r: Index)
    requires |a| == |b|
    ensures |r| == |a| && forall i :: 0 <= i < |a| ==> r[i] == Min(a[i], b[i])
  {
    seq(|a|, i requires 0 <= i < |a| => if b[i] <= a[i] then b[i] else a[i])
  }

  /** A chunk of the new grid is in the old grid exactly when it is in the grid of the common part. */
  lemma CommonGrid(g: Geometry, shape: Index, x: Index)
    requires g.Valid() && |shape| == |g.shape| && InBox(x, AllParts(shape, g.chunkshape))
    ensures InBox(x, AllParts(MinShape(g.shape, shape), g.chunkshape)) <==> InBox(x, g.Grid())
  {
    forall j | 0 <= j < |x|
      ensures x[j] < Parts(Min(g.shape[j], shape[j]), g.chunkshape[j]) <==> x[j] < Parts(g.shape[j], g.chunkshape[j])
    {
      AxisTest(x[j], shape[j], g.chunkshape[j]);
      AxisTest(x[j], g.shape[j], g.chunkshape[j]);
      AxisTest(x[j], Min(g.shape[j], shape[j]), g.chunkshape[j]);
      assert x[j] < AllParts(shape, g.chunkshape)[j];
    }
  }

  lemma ResizedStored(g: Geometry, chunks: seq<seq<Item>>, shape: Index, chunks': seq<seq<Item>>)
    requires Stored(g, chunks) && |shape| == |g.shape| && Resized(g, chunks, shape, chunks')
    ensures Stored(Reshaped(g, shape), chunks')
  {
    var grid, grid' := g.Grid(), AllParts(shape, g.chunkshape);
    forall c | 0 <= c < |chunks'|
      ensures |chunks'[c]| == g.ChunkItems()
    {
      VolumeZero(grid');
      RavelUnravel(c, grid');
      var x := Unravel(c, grid');
      hide Ravel, Unravel, Volume;
      assert InBox(x, grid) || !InBox(x, grid);
    }
  }

  /** Shrinking to the common part and growing from it. */
  lemma ResizedTwice(g: Geometry, chunks: seq<seq<Item>>, mid: Index, chunks1: seq<seq<Item>>, shape: Index,
                     chunks2: seq<seq<Item>>)
    requires Stored(g, chunks) && |shape| == |g.shape| && mid == MinShape(g.shape, shape)
    requires Resized(g, chunks, mid, chunks1) && Stored(Reshaped(g, mid), chunks1)
    requires Resized(Reshaped(g, mid), chunks1, shape, chunks2)
    ensures Resized(g, chunks, shape, chunks2)
  {
    var grid, grid1, grid2 := g.Grid(), AllParts(mid, g.chunkshape), AllParts(shape, g.chunkshape);
    assert Reshaped(g, mid).Grid() == grid1 && Reshaped(g, mid).ChunkItems() == g.ChunkItems();
    hide Ravel, Volume, Geometry.ChunkItems, AllParts;
    forall x: Index | InBox(x, grid2)
      ensures InBox(x, grid1) <==> InBox(x, grid)
    {
      CommonGrid(g, shape, x);
    }
  }

  /** Nothing changes when the shape stays the same. */
  lemma ResizedSame(g: Geometry, chunks: seq<seq<Item>>)
    requires Stored(g, chunks)
    ensures Resized(g, chunks, g.shape, chunks)
  {
    forall x: Index | InBox(x, g.Grid())
      ensures Ravel(x, g.Grid()) < |chunks|
    {
      RavelBound(x, g.Grid());
    }
  }

  /** Every element inside both shapes keeps its value. */
  lemma ResizeKeepsElements(g: Geometry, chunks: seq<seq<Item>>, shape: Index, chunks': seq<seq<Item>>, idx: Index)
    requires Stored(g, chunks) && |shape| == |g.shape| && Resized(g, chunks, shape, chunks')
    requires InBox(idx, g.shape) && InBox(idx, shape)
    ensures Reshaped(g, shape).Valid() && Value(Reshaped(g, shape), chunks', idx) == Value(g, chunks, idx)
  {
    var g' := Reshaped(g, shape);
    PartsInside(g, idx);
    PartsInside(g', idx);
    SamePlace(g, g', idx);
    hide Ravel, Volume;
  }

  lemma SamePlace(g: Geometry, g': Geometry, idx: Index)
    requires g.Valid() && g'.Valid() && g.chunkshape == g'.chunkshape && g.blockshape == g'.blockshape
             && |idx| == |g.shape|
    ensures g.Place(idx) == g'.Place(idx) && g.ChunkOf(idx) == g'.ChunkOf(idx)
  {
  }

  /** A new element is zero in a new chunk; in an old one it shows what the padding held at its place. */
  lemma ResizeNewElements(g: Geometry, chunks: seq<seq<Item>>, shape: Index, chunks': seq<seq<Item>>, idx: Index)
    requires Stored(g, chunks) && |shape| == |g.shape| && Resized(g, chunks, shape, chunks')
    requires InBox(idx, shape)
    ensures Reshaped(g, shape).Valid() &&
            Value(Reshaped(g, shape), chunks', idx) ==
            if InBox(g.ChunkOf(idx), g.Grid()) && Ravel(g.ChunkOf(idx), g.Grid()) < |chunks|
            then At(chunks[Ravel(g.ChunkOf(idx), g.Grid())], g.Place(idx)) else 0
  {
    var g' := Reshaped(g, shape);
    PartsInside(g', idx);
    SamePlace(g, g', idx);
    PlaceBound(g', idx);
    hide Ravel, Volume;
  }

  /** The list of chunks after a change of shape. */
  function AfterResize(g: Geometry, chunks: seq<seq<Item>>, shape: Index): (r: seq<seq<Item>>)
    requires Stored(g, chunks) && |shape| == |g.shape|
    ensures |r| == Volume(AllParts(shape, g.chunkshape))
  {
    var grid' := AllParts(shape, g.chunkshape);
    VolumeZero(grid');
    seq(Volume(grid'), c requires 0 <= c < Volume(grid') => Cell(chunks, Zeros(g.ChunkItems()), grid', g.Grid(), c))
  }

  lemma AfterResizeIsResized(g: Geometry, chunks: seq<seq<Item>>, shape: Index)
    requires Stored(g, chunks) && |shape| == |g.shape|
    ensures Resized(g, chunks, shape, AfterResize(g, chunks, shape))
  {
    var grid, grid' := g.Grid(), AllParts(shape, g.chunkshape);
    var r := AfterResize(g, chunks, shape);
    hide Ravel, Unravel, Volume, AllParts, Geometry.ChunkItems;
    forall x: Index | InBox(x, grid')
      ensures Ravel(x, grid') < |r|
      ensures InBox(x, grid) ==> Ravel(x, grid) < |chunks| && r[Ravel(x, grid')] == chunks[Ravel(x, grid)]
      ensures !InBox(x, grid) ==> r[Ravel(x, grid')] == Zeros(g.ChunkItems())
    {
      RavelBound(x, grid');
      UnravelRavel(x, grid');
      if InBox(x, grid) {
        RavelBound(x, grid);
      }
    }
  }

  /** A new element is zero whatever the array holds exactly when its chunk lies outside the old grid. */
  lemma NewElementExact(g: Geometry, shape: Index, idx: Index)
    requires g.Valid() && |shape| == |g.shape| && InBox(idx, shape)
    ensures (forall chunks, chunks' :: Stored(g, chunks) && Resized(g, chunks, shape, chunks') ==>
               Value(Reshaped(g, shape), chunks', idx) == 0) <==> !InBox(g.ChunkOf(idx), g.Grid())
  {
    hide Value, Ravel, Volume, Geometry.ChunkItems, Geometry.Place, Resized;
    forall chunks, chunks' | Stored(g, chunks) && Resized(g, chunks, shape, chunks') && !InBox(g.ChunkOf(idx), g.Grid())
      ensures Value(Reshaped(g, shape), chunks', idx) == 0
    {
      ResizeNewElements(g, chunks, shape, chunks', idx);
    }
    if InBox(g.ChunkOf(idx), g.Grid()) {
      var chunks := Telltale(g.Chunks(), g.ChunkItems());
      AfterResizeIsResized(g, chunks, shape);
      ResizeNewElements(g, chunks, shape, AfterResize(g, chunks, shape), idx);
      RavelBound(g.ChunkOf(idx), g.Grid());
      InnerBound(g, idx);
    }
  }

  /** An array of one element in a chunk of two, grown to two: the new element is the padding item. */
  lemma NewElementExample()
    ensures var g, chunks := Geometry([1], [2], [2]), [[5, 7]];
            && Stored(g, chunks) && Resized(g, chunks, [2], chunks) && Reshaped(g, [2]).Valid()
            && Value(Reshaped(g, [2]), chunks, [1]) == 7
  {
    var g, chunks := Geometry([1], [2], [2]), [[5, 7]];
    assert g.Grid() == AllParts([2], g.chunkshape) == [1];
    ResizedSame(g, chunks);
    assert Resized(g, chunks, [2], chunks);
    ResizeNewElements(g, chunks, [2], chunks, [1]);
  }

  /** A state of a shrinking list, seen by a reader with the new shape. */
  lemma ShrunkSafe(g: Geometry, now: seq<seq<Item>>, orig: seq<seq<Item>>, grid: Index, i: nat)
    requires g.Valid() && Positive(grid) && i <= Volume(grid) && Within(g.Grid(), grid)
    requires Shrunk(now, orig, grid, g.Grid(), i)
    ensures Safe(g, Snapshot(g.shape, now))
  {
    ShrunkLength(now, orig, grid, g.Grid(), i);
  }

  lemma NoChunks(g: Geometry, shape: Index)
    requires Stored(g, []) && |shape| == |g.shape| && Within(AllParts(shape, g.chunkshape), g.Grid())
    ensures Resized(g, [], shape, [])
  {
    VolumeWithin(AllParts(shape, g.chunkshape), g.Grid());
    forall x: Index | InBox(x, AllParts(shape, g.chunkshape))
      ensures false
    {
      RavelBound(x, AllParts(shape, g.chunkshape));
    }
  }

  lemma WithinBox(g: Geometry, shape: Index)
    requires g.Valid() && |shape| == |g.shape| && Within(AllParts(shape, g.chunkshape), g.Grid())
    ensures forall x: Index :: InBox(x, AllParts(shape, g.chunkshape)) ==> InBox(x, g.Grid())
  {
  }

  lemma JoinSafe(g: Geometry, first: seq<Snapshot>, all: seq<Snapshot>, from: nat)
    requires g.Valid() && from <= |first| <= |all| && all[..|first|] == first
    requires AllSafe(g, first, from) && AllSafe(g, all, |first|)
    ensures AllSafe(g, all, from)
  {
  }
}
