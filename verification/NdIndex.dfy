/**
 Row-major indexing: `blosc2_unidim_to_multidim` and `blosc2_multidim_to_unidim`
 (blosc/blosc2.c) against recursive definitions, which are inverse to each other on
 every positive shape.
 */
module NdIndex {
  import opened Arith

  type Index = seq<nat>

  function Volume(shape: Index): nat {
    if shape == [] then 1 else shape[0] * Volume(shape[1..])
  }

  ghost predicate Positive(shape: Index) {
    forall i :: 0 <= i < |shape| ==> shape[i] > 0
  }

  /** `idx` is an index of an array of this shape. */
  ghost predicate InBox(idx: Index, shape: Index) {
    |idx| == |shape| && forall i :: 0 <= i < |shape| ==> idx[i] < shape[i]
  }

  /** The position of an index in row-major (C) order. */
  function Ravel(idx: Index, shape: Index): nat
    requires |idx| == |shape|
  {
    if shape == [] then 0 else idx[0] * Volume(shape[1..]) + Ravel(idx[1..], shape[1..])
  }

  /** The index at a position. */
  function Unravel(i: nat, shape: Index): (r: Index)
    requires Positive(shape)
    ensures |r| == |shape|
  {
    if shape == [] then [] else
      VolumePositive(shape[1..]);
      [i / Volume(shape[1..])] + Unravel(i % Volume(shape[1..]), shape[1..])
  }

  lemma {:induction false} VolumePositive(shape: Index)
    requires Positive(shape)
    ensures Volume(shape) > 0
  {
    if shape != [] {
      VolumePositive(shape[1..]);
      MulPositive(shape[0], Volume(shape[1..]));
    }
  }

  lemma {:induction false} RavelBound(idx: Index, shape: Index)
    requires InBox(idx, shape)
    ensures Ravel(idx, shape) < Volume(shape)
  {
    if shape != [] {
      RavelBound(idx[1..], shape[1..]);
      MulLess(idx[0], shape[0], Volume(shape[1..]), Ravel(idx[1..], shape[1..]));
    }
  }

  /** Flattening an index and unflattening it gives the index back. */
  lemma {:induction false} UnravelRavel(idx: Index, shape: Index)
    requires InBox(idx, shape)
    ensures Positive(shape) && Unravel(Ravel(idx, shape), shape) == idx
  {
    assert forall i :: 0 <= i < |shape| ==> idx[i] < shape[i];
    if shape != [] {
      UnravelRavel(idx[1..], shape[1..]);
      RavelBound(idx[1..], shape[1..]);
      DivIsUnique(Ravel(idx, shape), Volume(shape[1..]), idx[0], Ravel(idx[1..], shape[1..]));
      assert idx == [idx[0]] + idx[1..];
    }
  }

  /** Unflattening a position and flattening it gives the position back. */
  lemma {:induction false} RavelUnravel(i: nat, shape: Index)
    requires Positive(shape) && i < Volume(shape)
    ensures InBox(Unravel(i, shape), shape) && Ravel(Unravel(i, shape), shape) == i
  {
    if shape != [] {
      hide *;
      var v, r := Volume(shape[1..]), Unravel(i, shape);
      UnravelCons(i, shape);
      VolumeCons(shape);
      Remainder(i, v);
      RavelUnravel(i % v, shape[1..]);
      DivBelow(i, shape[0], v);
      BoxCons(r, shape);
      RavelCons(r, shape);
    }
  }

  lemma {:induction false} VolumeCons(shape: Index)
    requires shape != []
    ensures Volume(shape) == shape[0] * Volume(shape[1..])
  {
  }

  lemma {:induction false} RavelCons(idx: Index, shape: Index)
    requires shape != [] && |idx| == |shape|
    ensures Ravel(idx, shape) == idx[0] * Volume(shape[1..]) + Ravel(idx[1..], shape[1..])
  {
  }

  lemma Remainder(i: nat, v: nat)
    requires v > 0
    ensures i % v < v && (i / v) * v + i % v == i
  {
  }

  lemma {:induction false} UnravelCons(i: nat, shape: Index)
    requires shape != [] && Positive(shape)
    ensures Positive(shape[1..]) && Volume(shape[1..]) > 0 && |Unravel(i, shape)| == |shape|
    ensures Unravel(i, shape)[0] == i / Volume(shape[1..])
            && Unravel(i, shape)[1..] == Unravel(i % Volume(shape[1..]), shape[1..])
  {
    VolumePositive(shape[1..]);
  }

  lemma BoxCons(idx: Index, shape: Index)
    requires shape != [] && |idx| == |shape|
    ensures InBox(idx, shape) <==> idx[0] < shape[0] && InBox(idx[1..], shape[1..])
  {
  }

  /** Distinct indices have distinct positions. */
  lemma RavelInjective(a: Index, b: Index, shape: Index)
    requires InBox(a, shape) && InBox(b, shape) && Ravel(a, shape) == Ravel(b, shape)
    ensures a == b
  {
    UnravelRavel(a, shape);
    UnravelRavel(b, shape);
  }

  /** The first index of an array. */
  function Zero(n: nat): (r: Index)
    ensures |r| == n && forall i :: 0 <= i < n ==> r[i] == 0
  {
    seq(n, _ => 0)
  }

  // ---- shapes

  /** No axis of the one is longer than that of the other. */
  ghost predicate Within(small: Index, large: Index) {
    |small| == |large| && forall i :: 0 <= i < |small| ==> small[i] <= large[i]
  }

  lemma {:induction false} VolumeWithin(small: Index, large: Index)
    requires Within(small, large)
    ensures Volume(small) <= Volume(large)
    ensures Volume(small) == Volume(large) > 0 ==> small == large
  {
    if small != [] {
      var m, n, v, w := small[0], large[0], Volume(small[1..]), Volume(large[1..]);
      VolumeWithin(small[1..], large[1..]);
      MulMono(m, n, v);
      MulMono(v, w, n);
      if m * v == n * w && m * v > 0 {
        SameProduct(m, n, v, w);
        assert small == [small[0]] + small[1..] && large == [large[0]] + large[1..];
      }
    }
  }

  lemma SameProduct(m: nat, n: nat, v: nat, w: nat)
    requires m <= n && v <= w && m * v == n * w > 0
    ensures m == n && v == w && v > 0
  {
  }

  lemma {:induction false} VolumeZero(shape: Index)
    ensures Volume(shape) > 0 <==> Positive(shape)
  {
    if shape != [] {
      VolumeZero(shape[1..]);
      if shape[0] > 0 && Volume(shape[1..]) > 0 {
        MulPositive(shape[0], Volume(shape[1..]));
        assert forall i :: 0 < i < |shape| ==> shape[i] == shape[1..][i - 1];
      } else {
        assert Volume(shape) == 0;
        if Positive(shape) {
          PositiveTail(shape);
        }
      }
    }
  }

  lemma PositiveTail(shape: Index)
    requires shape != [] && Positive(shape)
    ensures shape[0] > 0 && Positive(shape[1..])
  {
  }

  // ---- the loops

  /** `strides[i]`: the items that one step along axis `i` skips. */
  ghost predicate StridesOf(strides: Index, shape: Index) {
    |strides| == |shape| && forall i :: 0 <= i < |shape| ==> strides[i] == Volume(shape[i + 1..])
  }

  /** The loop that fills a table of strides from the last axis to the first. */
  method ComputeStrides(shape: Index) returns (strides: array<nat>)
    requires shape != []
    ensures fresh(strides) && StridesOf(strides[..], shape)
  {
    var n := |shape|;
    strides := new nat[n](_ => 1);
    assert shape[n..] == [];
    var j := n - 1;
    while j > 0
      invariant 0 <= j < n
      invariant forall i :: j <= i < n ==> strides[i] == Volume(shape[i + 1..])
    {
      j := j - 1;
      assert shape[j + 1..][1..] == shape[j + 2..];
      strides[j] := shape[j + 1] * strides[j + 1];
    }
  }

  lemma {:induction false} VolumeSplit(shape: Index, j: nat)
    requires j <= |shape|
    ensures Volume(shape) == Volume(shape[..j]) * Volume(shape[j..])
  {
    if j == 0 {
      assert shape[0..] == shape;
    } else {
      VolumeSplit(shape[1..], j - 1);
      assert shape[1..][..j - 1] == shape[..j][1..] && shape[1..][j - 1..] == shape[j..];
      MulAssoc(shape[0], Volume(shape[..j][1..]), Volume(shape[j..]));
    }
  }

  lemma MulAssoc(a: nat, b: nat, c: nat)
    ensures a * (b * c) == (a * b) * c
  {
  }

  /** Each coordinate by itself, as the loop computes it. */
  lemma {:induction false} UnravelAt(i: nat, shape: Index, j: nat)
    requires Positive(shape) && j < |shape|
    ensures Volume(shape[j + 1..]) > 0 && (j > 0 ==> Volume(shape[j..]) > 0)
    ensures Unravel(i, shape)[j] == (if j == 0 then i else i % Volume(shape[j..])) / Volume(shape[j + 1..])
    decreases |shape|
  {
    VolumePositive(shape[j + 1..]);
    VolumePositive(shape[j..]);
    if j > 0 {
      var rest := shape[1..];
      VolumePositive(rest);
      UnravelAt(i % Volume(rest), rest, j - 1);
      assert rest[j..] == shape[j + 1..] && rest[j - 1..] == shape[j..];
      VolumeSplit(rest, j - 1);
      VolumePositive(rest[..j - 1]);
      ModOfMultiple(i, Volume(rest[..j - 1]), Volume(shape[j..]));
    }
  }

  /** `blosc2_unidim_to_multidim`, for a positive shape. */
  method UnidimToMultidim(shape: Index, i: nat) returns (index: Index)
    requires Positive(shape)
    ensures index == Unravel(i, shape)
  {
    if shape == [] {
      return [];
    }
    var strides := ComputeStrides(shape);
    UnravelAt(i, shape, 0);
    index := [i / strides[0]];
    for j := 1 to |shape|
      invariant |index| == j && StridesOf(strides[..], shape)
      invariant forall k :: 0 <= k < j ==> index[k] == Unravel(i, shape)[k]
    {
      UnravelAt(i, shape, j);
      assert strides[j - 1] == strides[..][j - 1] && strides[j] == strides[..][j];
      index := index + [i % strides[j - 1] / strides[j]];
    }
  }

  /** `blosc2_multidim_to_unidim`. */
  method MultidimToUnidim(index: Index, strides: Index, ghost shape: Index) returns (i: nat)
    requires |index| == |shape| && StridesOf(strides, shape)
    ensures i == Ravel(index, shape)
  {
    i := 0;
    for j := 0 to |index|
      invariant i + Ravel(index[j..], shape[j..]) == Ravel(index, shape)
    {
      assert index[j..][1..] == index[j + 1..] && shape[j..][1..] == shape[j + 1..];
      i := i + index[j] * strides[j];
    }
  }
}
