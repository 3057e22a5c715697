/**
 Transposes of arrays of elements, as the loops of blosc/bitshuffle-generic.c and the macro
 TRANS_ELEM_TYPE of blosc/bitshuffle-generic.h make them.
 */
module Transpose {
  import opened Arith

  /** The place of part `t` of the element in row `r` and column `c`, for `b` columns of elements of `e` bytes. */
  function Place(r: nat, c: nat, t: nat, b: nat, e: nat): nat {
    Times(Times(r, b) + c, e) + t
  }

  /** Where the byte at `p` of the transpose of an `a` by `b` array comes from. */
  function Origin(p: nat, a: nat, b: nat, e: nat): nat
    requires a > 0 && e > 0
  {
    Place(p / e % a, p / e / a, p % e, b, e)
  }

  lemma PlaceParts(r: nat, c: nat, t: nat, b: nat, e: nat)
    requires c < b && t < e
    ensures e > 0 && b > 0 && Place(r, c, t, b, e) / e == Times(r, b) + c && Place(r, c, t, b, e) % e == t
    ensures (Times(r, b) + c) / b == r && (Times(r, b) + c) % b == c
  {
    DivIsUnique(Place(r, c, t, b, e), e, Times(r, b) + c, t);
    DivIsUnique(Times(r, b) + c, b, r, c);
  }

  lemma PlaceBound(r: nat, c: nat, t: nat, a: nat, b: nat, e: nat)
    requires r < a && c < b && t < e
    ensures Place(r, c, t, b, e) < Times(Times(a, b), e)
    ensures Place(r, c, 0, b, e) + e <= Times(Times(a, b), e)
  {
    MulLess(r, a, b, c);
    MulLess(Times(r, b) + c, Times(a, b), e, t);
    MulMono(Times(r, b) + c + 1, Times(a, b), e);
    MulDistrib(Times(r, b) + c, 1, e);
  }

  lemma OriginOfPlace(r: nat, c: nat, t: nat, a: nat, b: nat, e: nat)
    requires r < a && c < b && t < e
    ensures Origin(Place(c, r, t, a, e), a, b, e) == Place(r, c, t, b, e)
  {
    PlaceParts(c, r, t, a, e);
  }

  /** The parts of a position. */
  lemma Parts(p: nat, a: nat, b: nat, e: nat) returns (c: nat, r: nat, t: nat)
    requires p < Times(Times(b, a), e)
    ensures c < b && r < a && t < e && p == Place(c, r, t, a, e)
  {
    if e == 0 || a == 0 {
      assert false;
    }
    DivBelow(p, Times(b, a), e);
    var q := p / e;
    DivBelow(q, b, a);
    c, r, t := q / a, q % a, p % e;
  }

  lemma SameSize(a: nat, b: nat, e: nat)
    ensures Times(Times(a, b), e) == Times(Times(b, a), e)
  {
  }

  /** The transpose: out[(c * a + r) * e + t] == in[(r * b + c) * e + t]. */
  function Transposed(s: seq<bv8>, a: nat, b: nat, e: nat): (r: seq<bv8>)
    requires |s| == Times(Times(a, b), e)
    ensures |r| == |s|
  {
    if a == 0 || e == 0 then s
    else seq(|s|, p requires 0 <= p < |s| => if Origin(p, a, b, e) < |s| then s[Origin(p, a, b, e)] else 0)
  }

  lemma TransposedAt(s: seq<bv8>, a: nat, b: nat, e: nat, r: nat, c: nat, t: nat)
    requires |s| == Times(Times(a, b), e) && r < a && c < b && t < e
    ensures Place(c, r, t, a, e) < |s| && Place(r, c, t, b, e) < |s|
    ensures Transposed(s, a, b, e)[Place(c, r, t, a, e)] == s[Place(r, c, t, b, e)]
  {
    hide Place, Origin, Times;
    PlaceBound(r, c, t, a, b, e);
    PlaceBound(c, r, t, b, a, e);
    SameSize(a, b, e);
    OriginOfPlace(r, c, t, a, b, e);
  }

  /** A sequence that has the right byte at every place is the transpose. */
  lemma TransposedIs(s: seq<bv8>, a: nat, b: nat, e: nat, out: seq<bv8>)
    requires |s| == Times(Times(a, b), e) && |out| == |s|
    requires forall r: nat, c: nat, t: nat :: r < a && c < b && t < e ==> Moved(s, out, a, b, e, r, c, t)
    ensures out == Transposed(s, a, b, e)
  {
    SameSize(a, b, e);
    forall p | 0 <= p < |out|
      ensures out[p] == Transposed(s, a, b, e)[p]
    {
      var c, r, t := Parts(p, a, b, e);
      TransposedAt(s, a, b, e, r, c, t);
      assert Moved(s, out, a, b, e, r, c, t);
    }
  }

  /** The byte for row `r`, column `c` and part `t` is where it should be. */
  ghost predicate Moved(s: seq<bv8>, out: seq<bv8>, a: nat, b: nat, e: nat, r: nat, c: nat, t: nat) {
    var to, from := Place(c, r, t, a, e), Place(r, c, t, b, e);
    to < |out| && from < |s| && out[to] == s[from]
  }

  // ---- the loops

  /** The element in row `r` and column `c` is where it should be. */
  ghost predicate Done(s: seq<bv8>, out: seq<bv8>, a: nat, b: nat, e: nat, r: nat, c: nat) {
    forall t: nat :: t < e ==> Moved(s, out, a, b, e, r, c, t)
  }

  /** Only right bytes were written. */
  ghost predicate Better(s: seq<bv8>, out: seq<bv8>, was: seq<bv8>, a: nat, b: nat, e: nat)
    requires |s| == Times(Times(a, b), e)
  {
    |out| == |was| == |s| && forall p :: 0 <= p < |out| ==> out[p] == was[p] || out[p] == Transposed(s, a, b, e)[p]
  }

  /** What was done stays done. */
  lemma StillDone(s: seq<bv8>, out: seq<bv8>, was: seq<bv8>, a: nat, b: nat, e: nat, r: nat, c: nat)
    requires |s| == Times(Times(a, b), e) && Better(s, out, was, a, b, e) && r < a && c < b
             && Done(s, was, a, b, e, r, c)
    ensures Done(s, out, a, b, e, r, c)
  {
    hide Transposed, Place;
    forall t: nat | t < e
      ensures Moved(s, out, a, b, e, r, c, t)
    {
      assert Moved(s, was, a, b, e, r, c, t);
      TransposedAt(s, a, b, e, r, c, t);
    }
  }

  lemma BetterTwice(s: seq<bv8>, out: seq<bv8>, mid: seq<bv8>, was: seq<bv8>, a: nat, b: nat, e: nat)
    requires |s| == Times(Times(a, b), e) && Better(s, out, mid, a, b, e) && Better(s, mid, was, a, b, e)
    ensures Better(s, out, was, a, b, e)
  {
  }

  /** `memcpy` of one element to its place. */
  method PutElement(s: seq<bv8>, a: nat, b: nat, e: nat, r: nat, c: nat, out: array<bv8>)
    requires |s| == out.Length == Times(Times(a, b), e) && r < a && c < b
    modifies out
    ensures Better(s, out[..], old(out[..]), a, b, e) && Done(s, out[..], a, b, e, r, c)
  {
    if e == 0 {
      return;
    }
    var to, from := Place(c, r, 0, a, e), Place(r, c, 0, b, e);
    PlaceBound(r, c, 0, a, b, e);
    PlaceBound(c, r, 0, b, a, e);
    SameSize(a, b, e);
    hide Transposed, Moved, Place;
    ghost var was := out[..];
    forall t | 0 <= t < e {
      out[to + t] := s[from + t];
    }
    Put(s, out[..], was, a, b, e, r, c, to, from);
  }

  lemma Put(s: seq<bv8>, out: seq<bv8>, was: seq<bv8>, a: nat, b: nat, e: nat, r: nat, c: nat, to: nat, from: nat)
    requires |s| == |out| == |was| == Times(Times(a, b), e) && r < a && c < b && to + e <= |out| && from + e <= |s|
    requires to == Place(c, r, 0, a, e) && from == Place(r, c, 0, b, e)
    requires forall p :: 0 <= p < |out| ==> out[p] == if to <= p < to + e then s[from + (p - to)] else was[p]
    ensures Better(s, out, was, a, b, e) && Done(s, out, a, b, e, r, c)
  {
    hide Transposed, Place, Times;
    forall t: nat | t < e
      ensures Moved(s, out, a, b, e, r, c, t)
    {
      PlaceShift(c, r, t, a, e);
      PlaceShift(r, c, t, b, e);
      TransposedAt(s, a, b, e, r, c, t);
    }
    hide Moved;
    forall p | 0 <= p < |out|
      ensures out[p] == was[p] || out[p] == Transposed(s, a, b, e)[p]
    {
      if to <= p < to + e {
        var t := p - to;
        PlaceShift(c, r, t, a, e);
        PlaceShift(r, c, t, b, e);
        TransposedAt(s, a, b, e, r, c, t);
      }
    }
  }

  lemma PlaceShift(r: nat, c: nat, t: nat, b: nat, e: nat)
    ensures Place(r, c, t, b, e) == Place(r, c, 0, b, e) + t
  {
  }

  /** Rows before `r` are done, and in row `r` the columns before `c`. */
  ghost predicate DoneTo(s: seq<bv8>, out: seq<bv8>, a: nat, b: nat, e: nat, r: nat, c: nat) {
    && (forall i: nat, j: nat :: i < r && i < a && j < b ==> Done(s, out, a, b, e, i, j))
    && (forall j: nat :: r < a && j < c && j < b ==> Done(s, out, a, b, e, r, j))
  }

  lemma DoneNext(s: seq<bv8>, out: seq<bv8>, was: seq<bv8>, a: nat, b: nat, e: nat, r: nat, c: nat)
    requires |s| == Times(Times(a, b), e) && Better(s, out, was, a, b, e) && r < a && c < b
    requires DoneTo(s, was, a, b, e, r, c) && Done(s, out, a, b, e, r, c)
    ensures DoneTo(s, out, a, b, e, r, c + 1)
  {
    hide Done, Better;
    var c' := c + 1;
    forall i: nat, j: nat | i < r && j < b
      ensures Done(s, out, a, b, e, i, j)
    {
      StillDone(s, out, was, a, b, e, i, j);
    }
    forall j: nat | j < c'
      ensures Done(s, out, a, b, e, r, j)
    {
      if j < c {
        StillDone(s, out, was, a, b, e, r, j);
      }
    }
  }

  lemma DoneRow(s: seq<bv8>, out: seq<bv8>, a: nat, b: nat, e: nat, r: nat)
    requires DoneTo(s, out, a, b, e, r, b)
    ensures DoneTo(s, out, a, b, e, r + 1, 0)
  {
  }

  lemma DoneAll(s: seq<bv8>, out: seq<bv8>, a: nat, b: nat, e: nat)
    requires |s| == Times(Times(a, b), e) == |out| && DoneTo(s, out, a, b, e, a, 0)
    ensures out == Transposed(s, a, b, e)
  {
    hide Moved, Transposed;
    forall r: nat, c: nat, t: nat | r < a && c < b && t < e
      ensures Moved(s, out, a, b, e, r, c, t)
    {
      assert Done(s, out, a, b, e, r, c);
    }
    TransposedIs(s, a, b, e, out);
  }

  /** `bshuf_trans_elem`. */
  method TransElem(s: seq<bv8>, out: array<bv8>, lda: nat, ldb: nat, elem: nat)
    requires |s| == out.Length == Times(Times(lda, ldb), elem)
    modifies out
    ensures out[..] == Transposed(s, lda, ldb, elem)
  {
    hide Done, Transposed, Better, Times;
    for ii := 0 to lda
      invariant DoneTo(s, out[..], lda, ldb, elem, ii, 0)
    {
      for jj := 0 to ldb
        invariant DoneTo(s, out[..], lda, ldb, elem, ii, jj)
      {
        ghost var before := out[..];
        PutElement(s, lda, ldb, elem, ii, jj, out);
        DoneNext(s, out[..], before, lda, ldb, elem, ii, jj);
      }
      DoneRow(s, out[..], lda, ldb, elem, ii);
    }
    DoneAll(s, out[..], lda, ldb, elem);
  }

  // ---- groups of eight rows

  /** Columns before `c` are done in rows `lo` to `hi`. */
  ghost predicate DoneIn(s: seq<bv8>, out: seq<bv8>, a: nat, b: nat, e: nat, lo: nat, hi: nat, c: nat) {
    forall i: nat, j: nat :: lo <= i < hi && i < a && j < c && j < b ==> Done(s, out, a, b, e, i, j)
  }

  lemma KeepIn(s: seq<bv8>, out: seq<bv8>, was: seq<bv8>, a: nat, b: nat, e: nat, lo: nat, hi: nat, c: nat)
    requires |s| == Times(Times(a, b), e) && Better(s, out, was, a, b, e) && DoneIn(s, was, a, b, e, lo, hi, c)
    ensures DoneIn(s, out, a, b, e, lo, hi, c)
  {
    hide Done, Better;
    forall i: nat, j: nat | lo <= i < hi && i < a && j < c && j < b
      ensures Done(s, out, a, b, e, i, j)
    {
      StillDone(s, out, was, a, b, e, i, j);
    }
  }

  /** One element of each of the rows `ii` to `ii + n`: an innermost loop. */
  method PutColumn(s: seq<bv8>, a: nat, b: nat, e: nat, ii: nat, n: nat, jj: nat, out: array<bv8>)
    requires |s| == out.Length == Times(Times(a, b), e) && ii + n <= a && jj < b
    requires DoneIn(s, out[..], a, b, e, ii, ii + n, jj)
    modifies out
    ensures Better(s, out[..], old(out[..]), a, b, e) && DoneIn(s, out[..], a, b, e, ii, ii + n, jj + 1)
  {
    hide Done, Better, Times;
    ghost var c', was := jj + 1, out[..];
    BetterSame(s, was, a, b, e);
    for kk := 0 to n
      invariant Better(s, out[..], was, a, b, e)
      invariant DoneIn(s, out[..], a, b, e, ii, ii + n, jj) && DoneIn(s, out[..], a, b, e, ii, ii + kk, c')
    {
      ghost var before := out[..];
      PutElement(s, a, b, e, ii + kk, jj, out);
      BetterTwice(s, out[..], before, was, a, b, e);
      KeepIn(s, out[..], before, a, b, e, ii, ii + n, jj);
      KeepIn(s, out[..], before, a, b, e, ii, ii + kk, c');
    }
  }

  lemma BetterSame(s: seq<bv8>, out: seq<bv8>, a: nat, b: nat, e: nat)
    requires |s| == |out| == Times(Times(a, b), e)
    ensures Better(s, out, out, a, b, e)
  {
  }

  /** The elements of the rows `ii` to `ii + n`. */
  method PutRows(s: seq<bv8>, a: nat, b: nat, e: nat, ii: nat, n: nat, out: array<bv8>)
    requires |s| == out.Length == Times(Times(a, b), e) && ii + n <= a
    modifies out
    ensures Better(s, out[..], old(out[..]), a, b, e) && DoneIn(s, out[..], a, b, e, ii, ii + n, b)
  {
    hide Done, Better, Times;
    ghost var was := out[..];
    BetterSame(s, was, a, b, e);
    for jj := 0 to b
      invariant Better(s, out[..], was, a, b, e) && DoneIn(s, out[..], a, b, e, ii, ii + n, jj)
    {
      ghost var before := out[..];
      PutColumn(s, a, b, e, ii, n, jj, out);
      BetterTwice(s, out[..], before, was, a, b, e);
    }
  }

  lemma JoinIn(s: seq<bv8>, out: seq<bv8>, a: nat, b: nat, e: nat, lo: nat, mid: nat, hi: nat, c: nat)
    requires DoneIn(s, out, a, b, e, lo, mid, c) && DoneIn(s, out, a, b, e, mid, hi, c)
    ensures DoneIn(s, out, a, b, e, lo, hi, c)
  {
  }

  lemma NoneIn(s: seq<bv8>, out: seq<bv8>, a: nat, b: nat, e: nat, lo: nat, hi: nat, c: nat)
    requires hi <= lo
    ensures DoneIn(s, out, a, b, e, lo, hi, c)
  {
  }

  /** `n` more rows, after those from `start` to `ii`. */
  method PutMoreRows(s: seq<bv8>, a: nat, b: nat, e: nat, ghost start: nat, ii: nat, n: nat, out: array<bv8>,
                     ghost was: seq<bv8>)
    requires |s| == out.Length == Times(Times(a, b), e) && ii + n <= a
    requires Better(s, out[..], was, a, b, e) && DoneIn(s, out[..], a, b, e, start, ii, b)
    modifies out
    ensures Better(s, out[..], was, a, b, e) && DoneIn(s, out[..], a, b, e, start, ii + n, b)
  {
    hide *;
    ghost var before := out[..];
    PutRows(s, a, b, e, ii, n, out);
    BetterTwice(s, out[..], before, was, a, b, e);
    KeepIn(s, out[..], before, a, b, e, start, ii, b);
    JoinIn(s, out[..], a, b, e, start, ii, ii + n, b);
  }

  /** Groups of eight rows from `start` on, then single rows; the rows before `start` are not touched. */
  method TransRows(s: seq<bv8>, out: array<bv8>, size: nat, elem: nat, e: nat, start: nat)
    requires |s| == out.Length == Times(Times(size, elem), e) && start % 8 == 0
    modifies out
    ensures Better(s, out[..], old(out[..]), size, elem, e) && DoneIn(s, out[..], size, elem, e, start, size, elem)
  {
    hide *;
    ghost var was := out[..];
    BetterSame(s, was, size, elem, e);
    NoneIn(s, out[..], size, elem, e, start, start, elem);
    if size <= start {
      NoneIn(s, out[..], size, elem, e, start, size, elem);
      return;
    }
    var ii := start;
    while ii + 7 < size
      invariant start <= ii <= size && ii % 8 == 0
      invariant Better(s, out[..], was, size, elem, e) && DoneIn(s, out[..], size, elem, e, start, ii, elem)
    {
      PutMoreRows(s, size, elem, e, start, ii, 8, out, was);
      ii := ii + 8;
    }
    ii := size - size % 8;
    while ii < size
      invariant start <= ii <= size
      invariant Better(s, out[..], was, size, elem, e) && DoneIn(s, out[..], size, elem, e, start, ii, elem)
    {
      PutMoreRows(s, size, elem, e, start, ii, 1, out, was);
      ii := ii + 1;
    }
  }

  /** `bshuf_trans_byte_elem_remainder`. */
  method TransByteElemRemainder(s: seq<bv8>, out: array<bv8>, size: nat, elem: nat, start: nat)
    requires |s| == out.Length == Times(Times(size, elem), 1) && start % 8 == 0
    modifies out
    ensures Better(s, out[..], old(out[..]), size, elem, 1) && DoneIn(s, out[..], size, elem, 1, start, size, elem)
  {
    TransRows(s, out, size, elem, 1, start);
  }

  /** The macro TRANS_ELEM_TYPE, for a type of `width` bytes. */
  method TransElemType(s: seq<bv8>, out: array<bv8>, lda: nat, ldb: nat, width: nat)
    requires |s| == out.Length == Times(Times(lda, ldb), width)
    modifies out
    ensures out[..] == Transposed(s, lda, ldb, width)
  {
    TransRows(s, out, lda, ldb, width, 0);
    DoneInAll(s, out[..], lda, ldb, width);
  }

  lemma DoneInAll(s: seq<bv8>, out: seq<bv8>, a: nat, b: nat, e: nat)
    requires |s| == Times(Times(a, b), e) == |out| && DoneIn(s, out, a, b, e, 0, a, b)
    ensures out == Transposed(s, a, b, e)
  {
    hide Done;
    assert DoneTo(s, out, a, b, e, a, 0);
    DoneAll(s, out, a, b, e);
  }

  /** `bshuf_trans_byte_elem_scal`. */
  method TransByteElem(s: seq<bv8>, out: array<bv8>, size: nat, elem: nat)
    requires |s| == out.Length == Times(Times(size, elem), 1)
    modifies out
    ensures out[..] == Transposed(s, size, elem, 1)
  {
    TransByteElemRemainder(s, out, size, elem, 0);
    DoneInAll(s, out[..], size, elem, 1);
  }
}
