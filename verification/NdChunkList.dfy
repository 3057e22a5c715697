/** `b2nd_get_slice_nchunks` (blosc/b2nd.c): the chunks that hold elements of a slice. */
module NdChunkList {
  import opened Arith
  import opened NdIndex
  import opened NdGeometry
  import opened NdBlocks
  import opened NdSlice

  /** The chunk of each turn that meets the slice, for the turns before `u`. */
  function Listed(s: Slice, u: nat): seq<nat>
    requires s.g.Valid() && |s.start| == |s.stop| == |s.g.shape| && Positive(s.Count())
  {
    if u == 0 then []
    else
      var x := s.ChunkAt(u - 1);
      Listed(s, u - 1) + if ChunkEmpty(s.g, s.start, s.stop, x) then [] else [Ravel(x, s.g.Grid())]
  }

  lemma {:induction false} ListedAt(s: Slice, u: nat, c: nat)
    requires s.Valid() && Positive(s.Count())
    ensures c in Listed(s, u) <==>
            exists t: nat :: t < u && !ChunkEmpty(s.g, s.start, s.stop, s.ChunkAt(t))
                   && Ravel(s.ChunkAt(t), s.g.Grid()) == c
  {
    if u > 0 {
      var t := u - 1;
      ListedAt(s, t, c);
      hide ChunkEmpty, Slice.ChunkAt, Ravel, Positive;
    }
  }

  /** A chunk that meets a slice which is not empty holds an element of it. */
  lemma Meeting(s: Slice, x: Index) returns (idx: Index)
    requires s.Valid() && |x| == |s.g.shape| && !ChunkEmpty(s.g, s.start, s.stop, x)
    requires forall i :: 0 <= i < |s.start| ==> s.start[i] < s.stop[i]
    ensures InSlice(idx, s.start, s.stop) && s.g.ChunkOf(idx) == x
  {
    idx := seq(|x|, i requires 0 <= i < |x| => Max(Times(x[i], s.g.chunkshape[i]), s.start[i]));
    forall i | 0 <= i < |x|
      ensures s.start[i] <= idx[i] < s.stop[i] && s.g.ChunkOf(idx)[i] == x[i]
    {
      assert !(ChunkStop1(s.g.shape[i], s.g.chunkshape[i], x[i]) <= s.start[i]
             || Times(x[i], s.g.chunkshape[i]) >= s.stop[i]);
      ChunkAxis(idx[i], s.g.shape[i], s.g.chunkshape[i], x[i]);
    }
  }

  /** Chunk number `c` holds an element of the slice. */
  ghost predicate Holds(s: Slice, c: nat)
    requires s.g.Valid() && |s.start| == |s.stop| == |s.g.shape|
  {
    exists idx: Index :: InSlice(idx, s.start, s.stop) && s.g.ChunkNo(idx) == c
  }

  lemma NotEmptyIff(s: Slice, c: nat)
    requires s.Valid() && Positive(s.Count())
    requires forall i :: 0 <= i < |s.start| ==> s.start[i] < s.stop[i]
    ensures c in Listed(s, Volume(s.Count())) <==> Holds(s, c)
  {
    ListedAt(s, Volume(s.Count()), c);
    hide Listed, Volume, Positive, Ravel;
    if c in Listed(s, Volume(s.Count())) {
      var t: nat :| t < Volume(s.Count()) && !ChunkEmpty(s.g, s.start, s.stop, s.ChunkAt(t))
        && Ravel(s.ChunkAt(t), s.g.Grid()) == c;
      var idx := Meeting(s, s.ChunkAt(t));
    }
    if idx :| InSlice(idx, s.start, s.stop) && s.g.ChunkNo(idx) == c {
      Listing(s, idx);
    }
  }

  /** The slice is empty along axis `i`, at the edge of a chunk or of the array. */
  predicate AtEdge(s: Slice, i: nat)
    requires s.g.Valid() && |s.start| == |s.stop| == |s.g.shape| && i < |s.start|
  {
    s.start[i] == s.stop[i] && (s.start[i] % s.g.chunkshape[i] == 0 || s.start[i] == s.g.shape[i])
  }

  /** The slice is not empty, or is empty at an edge. */
  predicate Listable(s: Slice)
    requires s.g.Valid() && |s.start| == |s.stop| == |s.g.shape|
  {
    (forall i :: 0 <= i < |s.start| ==> s.start[i] < s.stop[i]) || (exists i :: 0 <= i < |s.start| && AtEdge(s, i))
  }

  /** Along an empty axis one chunk is visited, and it is skipped exactly at an edge. */
  lemma EmptyAxis(start: nat, n: nat, c: nat)
    requires c > 0 && start <= n
    ensures Count1(start, start, c) == 1
    ensures ChunkStop1(n, c, start / c) <= start || Times(start / c, c) >= start <==> start % c == 0 || start == n
  {
    var q := start / c;
    assert start == Times(q, c) + start % c;
    PartsCover(start, c);
    if Parts(start, c) > q + 1 {
      MulMono(q + 2, Parts(start, c), c);
      MulDistrib(q, 2, c);
    }
  }

  /** Along an axis that is not empty the first chunk visited is not skipped. */
  lemma FullAxis(start: nat, stop: nat, n: nat, c: nat)
    requires c > 0 && start < stop <= n
    ensures !(ChunkStop1(n, c, start / c) <= start || Times(start / c, c) >= stop)
  {
    ChunkAxis(start, n, c, start / c);
  }

  /** At an edge nothing is listed. */
  lemma NoneAtEdge(s: Slice, i: nat, c: nat)
    requires s.Valid() && Positive(s.Count()) && i < |s.start| && AtEdge(s, i)
    ensures c !in Listed(s, Volume(s.Count()))
  {
    ListedAt(s, Volume(s.Count()), c);
    EmptyAxis(s.start[i], s.g.shape[i], s.g.chunkshape[i]);
    hide Listed, Volume, Ravel;
    forall t: nat | t < Volume(s.Count())
      ensures ChunkEmpty(s.g, s.start, s.stop, s.ChunkAt(t))
    {
      RavelUnravel(t, s.Count());
      assert Unravel(t, s.Count())[i] < s.Count()[i] == 1;
      assert s.ChunkAt(t)[i] == s.start[i] / s.g.chunkshape[i];
    }
  }

  /** Away from the edges the first chunk is listed, empty slice or not. */
  lemma FirstListed(s: Slice)
    requires s.Valid() && Positive(s.Count()) && forall i :: 0 <= i < |s.start| ==> !AtEdge(s, i)
    ensures |s.First()| == |s.g.shape| && Ravel(s.First(), s.g.Grid()) in Listed(s, Volume(s.Count()))
  {
    ListedAt(s, Volume(s.Count()), Ravel(s.First(), s.g.Grid()));
    VolumePositive(s.Count());
    FirstTurn(s);
    hide Listed, Volume, Ravel, Slice.ChunkAt;
    forall i | 0 <= i < |s.start|
      ensures !(ChunkStop1(s.g.shape[i], s.g.chunkshape[i], s.First()[i]) <= s.start[i]
              || Times(s.First()[i], s.g.chunkshape[i]) >= s.stop[i])
    {
      if s.start[i] < s.stop[i] {
        FullAxis(s.start[i], s.stop[i], s.g.shape[i], s.g.chunkshape[i]);
      } else {
        assert !AtEdge(s, i);
        EmptyAxis(s.start[i], s.g.shape[i], s.g.chunkshape[i]);
      }
    }
    assert !ChunkEmpty(s.g, s.start, s.stop, s.ChunkAt(0));
  }

  lemma FirstTurn(s: Slice)
    requires s.Valid() && Positive(s.Count())
    ensures |s.First()| == |s.g.shape| && s.ChunkAt(0) == s.First()
  {
    ZeroIndex(s.Count());
    var x := s.ChunkAt(0);
    assert forall i :: 0 <= i < |x| ==> x[i] == s.First()[i];
  }

  lemma {:induction false} ZeroIndex(shape: Index)
    requires Positive(shape)
    ensures Unravel(0, shape) == Zero(|shape|)
  {
    if shape != [] {
      UnravelCons(0, shape);
      ZeroIndex(shape[1..]);
      assert Unravel(0, shape) == [0] + Unravel(0, shape)[1..];
    }
  }

  /**
   The chunks listed are exactly those with an element of the slice, if and only if the slice is not
   empty or is empty at an edge.
   */
  lemma ListedIff(s: Slice)
    requires s.Valid()
    ensures Positive(s.Count())
    ensures (forall c: nat :: c in Listed(s, Volume(s.Count())) <==> Holds(s, c)) <==> Listable(s)
  {
    CountPositive(s);
    hide Listed, Volume, Ravel, Positive, Slice.Count, Slice.First;
    if forall i :: 0 <= i < |s.start| ==> s.start[i] < s.stop[i] {
      forall c: nat
        ensures c in Listed(s, Volume(s.Count())) <==> Holds(s, c)
      {
        NotEmptyIff(s, c);
      }
    } else {
      var k :| 0 <= k < |s.start| && s.start[k] >= s.stop[k];
      NoElement(s, k);
      hide Holds;
      if i :| 0 <= i < |s.start| && AtEdge(s, i) {
        forall c: nat
          ensures c !in Listed(s, Volume(s.Count()))
        {
          NoneAtEdge(s, i, c);
        }
      } else {
        FirstListed(s);
        assert !Holds(s, Ravel(s.First(), s.g.Grid()));
      }
    }
  }

  lemma NoElement(s: Slice, k: nat)
    requires s.Valid() && k < |s.start| && s.start[k] >= s.stop[k]
    ensures forall c: nat :: !Holds(s, c)
  {
    forall idx: Index
      ensures !InSlice(idx, s.start, s.stop)
    {
    }
  }

  /** An array without elements: every slice of it is empty at an edge. */
  lemma NoArray(s: Slice)
    requires s.Valid() && Volume(s.g.shape) == 0
    ensures Listable(s) && forall c: nat :: !Holds(s, c)
  {
    VolumeZero(s.g.shape);
    var k :| 0 <= k < |s.g.shape| && s.g.shape[k] == 0;
    assert AtEdge(s, k);
    NoElement(s, k);
  }

  /** A concrete slice without elements for which a chunk is listed. */
  lemma ListedExample()
    ensures var s := Slice(Geometry([4], [4], [2]), [2], [2], [0]);
            s.Valid() && Positive(s.Count()) && 0 in Listed(s, Volume(s.Count())) && !Holds(s, 0)
  {
    var s := Slice(Geometry([4], [4], [2]), [2], [2], [0]);
    assert s.Valid() && !AtEdge(s, 0) && s.First() == [0] && s.g.Grid() == [1];
    assert Ravel([0], [1]) == 0;
    hide Slice.Valid, Listed, Ravel, Volume, AtEdge, Slice.Count, Slice.First, Geometry.Grid, Holds;
    CountPositive(s);
    NoElement(s, 0);
    FirstListed(s);
  }

  lemma Listing(s: Slice, idx: Index)
    requires s.Valid() && Positive(s.Count()) && InSlice(idx, s.start, s.stop)
    ensures var t := s.Turn(idx);
            && t < Volume(s.Count()) && !ChunkEmpty(s.g, s.start, s.stop, s.ChunkAt(t))
            && Ravel(s.ChunkAt(t), s.g.Grid()) == s.g.ChunkNo(idx)
  {
    var t := s.Turn(idx);
    TurnInBox(s, idx);
    RavelBound(Minus(s.g.ChunkOf(idx), s.First()), s.Count());
    TurnIsChunk(s, idx, t);
    ChunkMeets(s.g, s.start, s.stop, s.ChunkAt(t), idx);
  }

  /** No chunk is listed twice. */
  lemma {:induction false} ListedOnce(s: Slice, u: nat)
    requires s.Valid() && Positive(s.Count()) && u <= Volume(s.Count())
    ensures forall i, j :: 0 <= i < j < |Listed(s, u)| ==> Listed(s, u)[i] != Listed(s, u)[j]
  {
    if u > 0 {
      var t, x := u - 1, s.ChunkAt(u - 1);
      ListedOnce(s, t);
      if !ChunkEmpty(s.g, s.start, s.stop, x) {
        ListedAt(s, t, Ravel(x, s.g.Grid()));
        hide ChunkEmpty, Slice.ChunkAt, Ravel, Volume, Slice.Count;
        if Ravel(x, s.g.Grid()) in Listed(s, t) {
          var t': nat :| t' < t && !ChunkEmpty(s.g, s.start, s.stop, s.ChunkAt(t'))
            && Ravel(s.ChunkAt(t'), s.g.Grid()) == Ravel(x, s.g.Grid());
          SameTurn(s, t', t);
        }
      }
    }
  }

  lemma SameTurn(s: Slice, t: nat, t': nat)
    requires s.Valid() && Positive(s.Count()) && t < Volume(s.Count()) && t' < Volume(s.Count())
    requires !ChunkEmpty(s.g, s.start, s.stop, s.ChunkAt(t)) && !ChunkEmpty(s.g, s.start, s.stop, s.ChunkAt(t'))
    requires Ravel(s.ChunkAt(t), s.g.Grid()) == Ravel(s.ChunkAt(t'), s.g.Grid())
    ensures t == t'
  {
    ChunkExists(s, s.ChunkAt(t));
    ChunkExists(s, s.ChunkAt(t'));
    hide ChunkEmpty;
    RavelInjective(s.ChunkAt(t), s.ChunkAt(t'), s.g.Grid());
    var a, b := Unravel(t, s.Count()), Unravel(t', s.Count());
    assert forall i :: 0 <= i < |a| ==> a[i] == s.ChunkAt(t)[i] - s.First()[i] == b[i];
    assert a == b;
    RavelUnravel(t, s.Count());
    RavelUnravel(t', s.Count());
  }

  /** `b2nd_get_slice_nchunks`, for at least one axis. */
  method SliceChunks(s: Slice) returns (list: seq<nat>)
    requires s.Valid()
    ensures Volume(s.g.shape) == 0 ==> list == []
    ensures Volume(s.g.shape) > 0 ==> Positive(s.Count()) && list == Listed(s, Volume(s.Count()))
    ensures (forall c: nat :: c in list <==> Holds(s, c)) <==> Listable(s)
  {
    if Volume(s.g.shape) == 0 {
      NoArray(s);
      return [];
    }
    hide *;
    ListedIff(s);
    CountPositive(s);
    SliceLengths(s);
    var first, count := ChunkRange(s);
    var strides := ComputeStrides(s.g.Grid());
    list := [];
    ListedNext(s, 0);
    for u := 0 to Volume(count)
      invariant list == Listed(s, u) && StridesOf(strides[..], s.g.Grid())
    {
      var off := UnidimToMultidim(count, u);
      var x := Plus(off, first);
      ListedNext(s, u);
      var c := MultidimToUnidim(x, strides[..], s.g.Grid());
      if !ChunkEmpty(s.g, s.start, s.stop, x) {
        list := list + [c];
      }
    }
  }

  lemma SliceLengths(s: Slice)
    requires s.Valid()
    ensures s.g.Valid() && |s.start| == |s.stop| == |s.g.shape| == |s.g.chunkshape| == |s.g.Grid()| && s.g.Grid() != []
    ensures |s.First()| == |s.Count()| == |s.g.shape|
  {
  }

  lemma {:induction false} ListedNext(s: Slice, u: nat)
    requires s.g.Valid() && |s.start| == |s.stop| == |s.g.shape| == |s.g.chunkshape| && Positive(s.Count())
    ensures Listed(s, 0) == []
    ensures |Unravel(u, s.Count())| == |s.First()| && Plus(Unravel(u, s.Count()), s.First()) == s.ChunkAt(u)
    ensures Listed(s, u + 1) == Listed(s, u) + if ChunkEmpty(s.g, s.start, s.stop, s.ChunkAt(u)) then []
            else [Ravel(s.ChunkAt(u), s.g.Grid())]
  {
  }
}
