/**
 `b2nd_copy_buffer2` and the nested loops of `copy2dim` .. `copy8dim` (blosc/b2nd_utils.c):
 copying a box from one padded n-dimensional buffer into another.
 */
module NdCopy {
  import opened Arith
  import opened NdIndex

  /** One array item; its bytes are always moved together. */
  type Item = int

  function At(s: seq<Item>, i: nat): Item {
    if i < |s| then s[i] else 0
  }

  /** `q` lies in the box of this size at `start`. */
  predicate In(q: Index, start: Index, size: Index)
    requires |q| == |start| == |size|
  {
    q == [] || (start[0] <= q[0] < start[0] + size[0] && In(q[1..], start[1..], size[1..]))
  }

  /** The index that corresponds to `q` when `from` corresponds to `to`. */
  function Shift(q: Index, from: Index, to: Index): (r: Index)
    requires |q| == |from| == |to|
    ensures |r| == |q|
  {
    if q == [] then []
    else [if q[0] >= from[0] then q[0] - from[0] + to[0] else 0] + Shift(q[1..], from[1..], to[1..])
  }

  lemma {:induction false} InAt(q: Index, start: Index, size: Index)
    requires |q| == |start| == |size|
    ensures In(q, start, size) <==> forall i :: 0 <= i < |q| ==> start[i] <= q[i] < start[i] + size[i]
  {
    if q != [] {
      InAt(q[1..], start[1..], size[1..]);
      if In(q, start, size) {
        forall i | 0 <= i < |q|
          ensures start[i] <= q[i] < start[i] + size[i]
        {
          assert i == 0 || start[1..][i - 1] <= q[1..][i - 1] < start[1..][i - 1] + size[1..][i - 1];
        }
      }
    }
  }

  lemma {:induction false} ShiftAt(q: Index, from: Index, to: Index, i: nat)
    requires |q| == |from| == |to| && i < |q|
    ensures Shift(q, from, to)[i] == if q[i] >= from[i] then q[i] - from[i] + to[i] else 0
  {
    if i > 0 {
      ShiftAt(q[1..], from[1..], to[1..], i - 1);
    }
  }

  /** The last index of a box. */
  function Far(start: Index, size: Index): (r: Index)
    requires |start| == |size|
    ensures |r| == |size| && forall i ::
            0 <= i < |r| ==> r[i] == if start[i] + size[i] > 0 then start[i] + size[i] - 1 else 0
  {
    seq(|size|, i requires 0 <= i < |size| => if start[i] + size[i] > 0 then start[i] + size[i] - 1 else 0)
  }

  /** An array of shape `pad` at offset `base` of a buffer, and the corner of a box in it. */
  datatype View = View(base: nat, pad: Index, start: Index) {
    /** The box lies in the array, and its last item in the buffer. */
    ghost predicate Valid(length: nat, size: Index) {
      && |pad| == |start| == |size|
      && (forall i :: 0 <= i < |pad| ==> start[i] + size[i] <= pad[i])
      && (Positive(size) ==> base + Ravel(Far(start, size), pad) < length)
    }

    /** The offset of the corner. */
    function Corner(): nat
      requires |pad| == |start|
    {
      base + Ravel(start, pad)
    }

    /** The sub-array number `r` along the first axis. */
    function Row(r: nat): View
      requires |pad| == |start| && pad != []
    {
      View(base + Times(r, Volume(pad[1..])), pad[1..], start[1..])
    }
  }

  /** What a copy of the box `size` from view `s` of `src` to view `d` leaves at index `q` of the destination. */
  function Expected(old_: seq<Item>, src: seq<Item>, d: View, s: View, size: Index, q: Index): Item
    requires |q| == |d.pad| == |d.start| == |s.pad| == |s.start| == |size|
  {
    if In(q, d.start, size) then At(src, s.base + Ravel(Shift(q, d.start, s.start), s.pad))
    else At(old_, d.base + Ravel(q, d.pad))
  }

  /** Every index of the destination view holds what the copy leaves there. */
  ghost predicate Moved(t: seq<Item>, old_: seq<Item>, src: seq<Item>, d: View, s: View, size: Index)
    requires |d.pad| == |d.start| == |s.pad| == |s.start| == |size|
  {
    forall q: Index :: InBox(q, d.pad) ==> At(t, d.base + Ravel(q, d.pad)) == Expected(old_, src, d, s, size, q)
  }

  /** Nothing outside a range changed. */
  ghost predicate SameOutside(t: seq<Item>, old_: seq<Item>, lo: nat, hi: nat) {
    |t| == |old_| && forall i :: 0 <= i < |t| && (i < lo || hi <= i) ==> t[i] == old_[i]
  }

  ghost predicate SameInside(t: seq<Item>, old_: seq<Item>, lo: nat, hi: nat) {
    |t| == |old_| && forall i :: lo <= i < hi && i < |t| ==> t[i] == old_[i]
  }

  /** The rows copied so far: `c` of them from the corner on; the others are as they were. */
  ghost predicate RowsMoved(t: seq<Item>, old_: seq<Item>, src: seq<Item>, d: View, s: View, size: Index, c: nat)
    requires |d.pad| == |d.start| == |s.pad| == |s.start| == |size| && d.pad != []
  {
    forall r: nat :: r < d.pad[0] ==> RowMoved(t, old_, src, d, s, size, c, r)
  }

  ghost predicate RowSame(t: seq<Item>, old_: seq<Item>, d: View, r: nat)
    requires |d.pad| == |d.start| && d.pad != []
  {
    SameInside(t, old_, d.Row(r).base, d.Row(r).base + Volume(d.pad[1..]))
  }

  lemma RowRange(d: View, r: nat)
    requires |d.pad| == |d.start| && d.pad != [] && r < d.pad[0]
    ensures d.base <= d.Row(r).base && d.Row(r).base + Volume(d.pad[1..]) <= d.base + Volume(d.pad)
  {
    MulMono(r + 1, d.pad[0], Volume(d.pad[1..]));
    MulDistrib(r, 1, Volume(d.pad[1..]));
  }

  lemma RowsApart(d: View, r: nat, r': nat)
    requires |d.pad| == |d.start| && d.pad != [] && r < r'
    ensures d.Row(r).base + Volume(d.pad[1..]) <= d.Row(r').base
  {
    MulMono(r + 1, r', Volume(d.pad[1..]));
    MulDistrib(r, 1, Volume(d.pad[1..]));
  }

  /** A row is not affected by changes outside it. */
  lemma MovedSame(t: seq<Item>, t': seq<Item>, old_: seq<Item>, src: seq<Item>, d: View, s: View, size: Index)
    requires |d.pad| == |d.start| == |s.pad| == |s.start| == |size|
    requires Moved(t, old_, src, d, s, size) && SameInside(t', t, d.base, d.base + Volume(d.pad))
    ensures Moved(t', old_, src, d, s, size)
  {
    forall q: Index | InBox(q, d.pad)
      ensures At(t', d.base + Ravel(q, d.pad)) == Expected(old_, src, d, s, size, q)
    {
      RavelBound(q, d.pad);
    }
  }

  /** What was in a row before the copy may be read from any state in which the row was the same. */
  lemma MovedFrom(t: seq<Item>, mid: seq<Item>, old_: seq<Item>, src: seq<Item>, d: View, s: View, size: Index)
    requires |d.pad| == |d.start| == |s.pad| == |s.start| == |size|
    requires Moved(t, mid, src, d, s, size) && SameInside(mid, old_, d.base, d.base + Volume(d.pad))
    ensures Moved(t, old_, src, d, s, size)
  {
    forall q: Index | InBox(q, d.pad)
      ensures At(t, d.base + Ravel(q, d.pad)) == Expected(old_, src, d, s, size, q)
    {
      RavelBound(q, d.pad);
    }
  }

  /** All rows together are the whole. */
  lemma RowsAreAll(t: seq<Item>, old_: seq<Item>, src: seq<Item>, d: View, s: View, size: Index)
    requires |d.pad| == |d.start| == |s.pad| == |s.start| == |size| && d.pad != []
    requires RowsMoved(t, old_, src, d, s, size, size[0])
    ensures Moved(t, old_, src, d, s, size)
  {
    forall q: Index | InBox(q, d.pad)
      ensures At(t, d.base + Ravel(q, d.pad)) == Expected(old_, src, d, s, size, q)
    {
      RowItem(t, old_, src, d, s, size, q);
    }
  }

  lemma RowItem(t: seq<Item>, old_: seq<Item>, src: seq<Item>, d: View, s: View, size: Index, q: Index)
    requires |d.pad| == |d.start| == |s.pad| == |s.start| == |size| && d.pad != []
    requires RowsMoved(t, old_, src, d, s, size, size[0]) && InBox(q, d.pad)
    ensures At(t, d.base + Ravel(q, d.pad)) == Expected(old_, src, d, s, size, q)
  {
    BoxCons(q, d.pad);
    var r, rest := q[0], q[1..];
    var row := d.Row(r);
    assert RowMoved(t, old_, src, d, s, size, size[0], r);
    assert d.base + Ravel(q, d.pad) == row.base + Ravel(rest, row.pad);
    if d.start[0] <= r < d.start[0] + size[0] {
      var from := s.Row(r - d.start[0] + s.start[0]);
      assert Moved(t, old_, src, row, from, size[1..]);
      assert Shift(q, d.start, s.start)[1..] == Shift(rest, row.start, from.start);
      hide Moved;
    } else {
      assert RowSame(t, old_, d, r);
      RavelBound(rest, row.pad);
    }
  }

  // ---- the loops

  /** `memcpy` of `n` items. */
  method CopyItems(dst: array<Item>, to: nat, src: seq<Item>, from: nat, n: nat)
    requires to + n <= dst.Length && from + n <= |src|
    modifies dst
    ensures forall i :: 0 <= i < dst.Length ==>
      dst[i] == if to <= i < to + n then src[from + (i - to)] else old(dst[i])
  {
    forall i | to <= i < to + n {
      dst[i] := src[from + (i - to)];
    }
  }

  lemma LastAxis(t: seq<Item>, old_: seq<Item>, src: seq<Item>, d: View, s: View, size: Index)
    requires |size| == 1 && Positive(size) && d.Valid(|old_|, size) && s.Valid(|src|, size) && |t| == |old_|
    requires forall i :: 0 <= i < |t| ==>
      t[i] == if d.Corner() <= i < d.Corner() + size[0] then At(src, s.Corner() + (i - d.Corner())) else old_[i]
    ensures Moved(t, old_, src, d, s, size) && SameOutside(t, old_, d.base, d.base + Volume(d.pad))
  {
    OneAxis(d.start, d.pad);
    OneAxis(s.start, s.pad);
    CornerFits(d, |old_|, size);
    CornerFits(s, |src|, size);
    forall q: Index | InBox(q, d.pad)
      ensures At(t, d.base + Ravel(q, d.pad)) == Expected(old_, src, d, s, size, q)
    {
      OneAxis(q, d.pad);
      OneAxis(Shift(q, d.start, s.start), s.pad);
      assert Shift(q, d.start, s.start)[0] == if q[0] >= d.start[0] then q[0] - d.start[0] + s.start[0] else 0;
      assert In(q, d.start, size) <==> d.start[0] <= q[0] < d.start[0] + size[0];
    }
  }

  lemma OneAxis(q: Index, shape: Index)
    requires |q| == |shape| == 1
    ensures Ravel(q, shape) == q[0] && Volume(shape) == shape[0]
  {
  }

  /** The corner of the row that the copy visits after `c` steps. */
  lemma CornerOfRow(v: View, c: nat)
    requires |v.pad| == |v.start| && v.pad != []
    ensures v.Row(v.start[0] + c).Corner() == v.Corner() + c * Volume(v.pad[1..])
  {
  }

  /** The last item of a box is not before that of any of its rows. */
  lemma RowReach(v: View, size: Index, r: nat)
    requires |v.pad| == |v.start| == |size| && size != [] && r < v.start[0] + size[0]
    ensures v.Row(r).base + Ravel(Far(v.start[1..], size[1..]), v.pad[1..]) <= v.base + Ravel(Far(v.start, size), v.pad)
  {
    assert Far(v.start, size)[1..] == Far(v.start[1..], size[1..]);
    MulMono(r, v.start[0] + size[0] - 1, Volume(v.pad[1..]));
  }

  lemma RowValid(v: View, length: nat, size: Index, r: nat)
    requires v.Valid(length, size) && size != [] && r < v.start[0] + size[0] && Positive(size)
    ensures v.Row(r).Valid(length, size[1..])
  {
    RowReach(v, size, r);
    var row := v.Row(r);
    forall i | 0 <= i < |row.pad|
      ensures row.start[i] + size[1..][i] <= row.pad[i]
    {
      assert v.start[i + 1] + size[i + 1] <= v.pad[i + 1];
    }
  }

  /** What has become of row `r` after `c` rows from the corner on. */
  ghost predicate RowMoved(t: seq<Item>, old_: seq<Item>, src: seq<Item>, d: View, s: View, size: Index, c: nat, r: nat)
    requires |d.pad| == |d.start| == |s.pad| == |s.start| == |size| && d.pad != []
  {
    if d.start[0] <= r < d.start[0] + c
    then Moved(t, old_, src, d.Row(r), s.Row(r - d.start[0] + s.start[0]), size[1..])
    else RowSame(t, old_, d, r)
  }

  lemma RowStepOther(t: seq<Item>, mid: seq<Item>, old_: seq<Item>, src: seq<Item>, d: View, s: View, size: Index,
                     c: nat, r: nat)
    requires |d.pad| == |d.start| == |s.pad| == |s.start| == |size| && d.pad != [] && r != d.start[0] + c
    requires RowMoved(mid, old_, src, d, s, size, c, r)
    requires var row := d.Row(d.start[0] + c); SameOutside(t, mid, row.base, row.base + Volume(row.pad))
    ensures RowMoved(t, old_, src, d, s, size, c + 1, r)
  {
    var at := d.start[0] + c;
    if r < at { RowsApart(d, r, at); } else { RowsApart(d, at, r); }
    assert SameInside(t, mid, d.Row(r).base, d.Row(r).base + Volume(d.pad[1..]));
    if d.start[0] <= r < at {
      MovedSame(mid, t, old_, src, d.Row(r), s.Row(r - d.start[0] + s.start[0]), size[1..]);
    }
  }

  lemma RowStepThis(t: seq<Item>, mid: seq<Item>, old_: seq<Item>, src: seq<Item>, d: View, s: View, size: Index,
                    c: nat)
    requires |d.pad| == |d.start| == |s.pad| == |s.start| == |size| && d.pad != []
    requires RowMoved(mid, old_, src, d, s, size, c, d.start[0] + c)
    requires Moved(t, mid, src, d.Row(d.start[0] + c), s.Row(s.start[0] + c), size[1..])
    ensures RowMoved(t, old_, src, d, s, size, c + 1, d.start[0] + c)
  {
    MovedFrom(t, mid, old_, src, d.Row(d.start[0] + c), s.Row(s.start[0] + c), size[1..]);
  }

  /** One more row copied, the others untouched. */
  lemma RowStep(t: seq<Item>, mid: seq<Item>, old_: seq<Item>, src: seq<Item>, d: View, s: View, size: Index, c: nat)
    requires |d.pad| == |d.start| == |s.pad| == |s.start| == |size| && d.pad != []
    requires RowsMoved(mid, old_, src, d, s, size, c) && d.start[0] + c < d.pad[0]
    requires var row := d.Row(d.start[0] + c);
             Moved(t, mid, src, row, s.Row(s.start[0] + c), size[1..]) &&
             SameOutside(t, mid, row.base, row.base + Volume(row.pad))
    ensures RowsMoved(t, old_, src, d, s, size, c + 1)
  {
    hide RowMoved, Moved, SameOutside;
    var c' := c + 1;
    forall r: nat | r < d.pad[0]
      ensures RowMoved(t, old_, src, d, s, size, c', r)
    {
      assert RowMoved(mid, old_, src, d, s, size, c, r);
      if r == d.start[0] + c {
        RowStepThis(t, mid, old_, src, d, s, size, c);
      } else {
        RowStepOther(t, mid, old_, src, d, s, size, c, r);
      }
    }
  }

  /**
   One level of the nested loops, for the axes that are left.  `from` and `to` are the aligned
   pointers; the views say where the whole arrays lie.
   */
  method CopyAxes(size: Index, src: seq<Item>, from: nat, sstrides: Index, dst: array<Item>, to: nat, dstrides: Index,
                  ghost s: View, ghost d: View)
    requires size != [] && Positive(size)
    requires d.Valid(dst.Length, size) && s.Valid(|src|, size)
    requires from == s.Corner() && to == d.Corner()
    requires StridesOf(sstrides, s.pad) && StridesOf(dstrides, d.pad)
    modifies dst
    ensures Moved(dst[..], old(dst[..]), src, d, s, size)
    ensures SameOutside(dst[..], old(dst[..]), d.base, d.base + Volume(d.pad))
    decreases |size|, 1
  {
    if |size| == 1 {
      CornerFits(d, dst.Length, size);
      CornerFits(s, |src|, size);
      ghost var orig := dst[..];
      CopyItems(dst, to, src, from, size[0]);
      LastAxis(dst[..], orig, src, d, s, size);
    } else {
      CopyRows(size, src, from, sstrides, dst, to, dstrides, s, d);
      RowsAreAll(dst[..], old(dst[..]), src, d, s, size);
    }
  }

  method CopyRows(size: Index, src: seq<Item>, from: nat, sstrides: Index, dst: array<Item>, to: nat, dstrides: Index,
                  ghost s: View, ghost d: View)
    requires |size| > 1 && Positive(size)
    requires d.Valid(dst.Length, size) && s.Valid(|src|, size)
    requires from == s.Corner() && to == d.Corner()
    requires StridesOf(sstrides, s.pad) && StridesOf(dstrides, d.pad)
    modifies dst
    ensures RowsMoved(dst[..], old(dst[..]), src, d, s, size, size[0])
    ensures SameOutside(dst[..], old(dst[..]), d.base, d.base + Volume(d.pad))
    decreases |size|, 0, 1
  {
    assert |d.pad| == |d.start| == |s.pad| == |s.start| == |size|;
    hide RowsMoved, SameOutside, StridesOf, Positive, Volume, Ravel, View.Valid, View.Corner;
    NoRows(dst[..], src, d, s, size);
    var c := 0;
    while c < size[0]
      invariant 0 <= c <= size[0]
      invariant RowsMoved(dst[..], old(dst[..]), src, d, s, size, c)
      invariant SameOutside(dst[..], old(dst[..]), d.base, d.base + Volume(d.pad))
    {
      CopyRow(size, src, from, sstrides, dst, to, dstrides, c, s, d, old(dst[..]));
      c := c + 1;
    }
  }

  /** The body of a loop: the row `c` steps from the corner. */
  method CopyRow(size: Index, src: seq<Item>, from: nat, sstrides: Index, dst: array<Item>, to: nat, dstrides: Index,
                 c: nat, ghost s: View, ghost d: View, ghost orig: seq<Item>)
    requires |size| > 1 && Positive(size) && c < size[0]
    requires d.Valid(dst.Length, size) && s.Valid(|src|, size) && |orig| == dst.Length
    requires from == s.Corner() && to == d.Corner()
    requires StridesOf(sstrides, s.pad) && StridesOf(dstrides, d.pad)
    requires RowsMoved(dst[..], orig, src, d, s, size, c)
    requires SameOutside(dst[..], orig, d.base, d.base + Volume(d.pad))
    modifies dst
    ensures RowsMoved(dst[..], orig, src, d, s, size, c + 1)
    ensures SameOutside(dst[..], orig, d.base, d.base + Volume(d.pad))
    decreases |size|, 0, 0
  {
    assert |d.pad| == |d.start| == |s.pad| == |s.start| == |size| == |sstrides| == |dstrides|;
    hide Moved, RowsMoved, SameOutside, StridesOf, Positive, Volume, Ravel, Times, View.Valid, View.Corner;
    ghost var mid := dst[..];
    EnterRow(d, dst.Length, size, c, dstrides);
    EnterRow(s, |src|, size, c, sstrides);
    CopyAxes(size[1..], src, from + Times(c, sstrides[0]), sstrides[1..], dst, to + Times(c, dstrides[0]),
      dstrides[1..],
             s.Row(s.start[0] + c), d.Row(d.start[0] + c));
    RowStep(dst[..], mid, orig, src, d, s, size, c);
    OutsideStep(dst[..], mid, orig, d, size, c);
  }

  lemma NoRows(t: seq<Item>, src: seq<Item>, d: View, s: View, size: Index)
    requires |d.pad| == |d.start| == |s.pad| == |s.start| == |size| && d.pad != []
    ensures RowsMoved(t, t, src, d, s, size, 0) && SameOutside(t, t, d.base, d.base + Volume(d.pad))
  {
  }

  lemma CornerFits(v: View, length: nat, size: Index)
    requires |size| == 1 && Positive(size) && v.Valid(length, size)
    ensures v.Corner() + size[0] <= v.base + Volume(v.pad) && v.Corner() + size[0] <= length
  {
    OneAxis(v.start, v.pad);
    OneAxis(Far(v.start, size), v.pad);
  }

  lemma EnterRow(v: View, length: nat, size: Index, c: nat, strides: Index)
    requires v.Valid(length, size) && |size| > 1 && Positive(size) && c < size[0] && StridesOf(strides, v.pad)
    ensures size[1..] != [] && Positive(size[1..])
    ensures v.start[0] + c < v.pad[0] && v.Row(v.start[0] + c).Valid(length, size[1..])
    ensures v.Row(v.start[0] + c).Corner() == v.Corner() + Times(c, strides[0])
    ensures StridesOf(strides[1..], v.pad[1..])
  {
    RowValid(v, length, size, v.start[0] + c);
    CornerOfRow(v, c);
    var tail, rest := strides[1..], v.pad[1..];
    forall i | 0 <= i < |rest|
      ensures tail[i] == Volume(rest[i + 1..])
    {
      assert strides[i + 1] == Volume(v.pad[i + 2..]) && rest[i + 1..] == v.pad[i + 2..];
    }
  }

  lemma OutsideStep(t: seq<Item>, mid: seq<Item>, old_: seq<Item>, d: View, size: Index, c: nat)
    requires d.Valid(|old_|, size) && size != [] && c < size[0]
    requires SameOutside(mid, old_, d.base, d.base + Volume(d.pad))
    requires var row := d.Row(d.start[0] + c); SameOutside(t, mid, row.base, row.base + Volume(row.pad))
    ensures SameOutside(t, old_, d.base, d.base + Volume(d.pad))
  {
    RowRange(d, d.start[0] + c);
  }

  /** `b2nd_copy_buffer2`: nothing if the box is empty along some axis. */
  method CopyBuffer(size: Index, src: seq<Item>, s: View, dst: array<Item>, d: View)
    requires size != []
    requires d.Valid(dst.Length, size) && s.Valid(|src|, size)
    modifies dst
    ensures Moved(dst[..], old(dst[..]), src, d, s, size)
    ensures SameOutside(dst[..], old(dst[..]), d.base, d.base + Volume(d.pad))
  {
    for i := 0 to |size|
      invariant forall k :: 0 <= k < i ==> size[k] > 0
    {
      if size[i] == 0 {
        EmptyBox(dst[..], src, d, s, size, i);
        return;
      }
    }
    var sstrides := ComputeStrides(s.pad);
    var dstrides := ComputeStrides(d.pad);
    var from := MultidimToUnidim(s.start, sstrides[..], s.pad);
    var to := MultidimToUnidim(d.start, dstrides[..], d.pad);
    CopyAxes(size, src, s.base + from, sstrides[..], dst, d.base + to, dstrides[..], s, d);
  }

  lemma EmptyBox(t: seq<Item>, src: seq<Item>, d: View, s: View, size: Index, i: nat)
    requires |d.pad| == |d.start| == |s.pad| == |s.start| == |size| && i < |size| && size[i] == 0
    ensures Moved(t, t, src, d, s, size)
  {
    forall q: Index | InBox(q, d.pad)
      ensures At(t, d.base + Ravel(q, d.pad)) == Expected(t, src, d, s, size, q)
    {
      InAt(q, d.start, size);
    }
  }
}
