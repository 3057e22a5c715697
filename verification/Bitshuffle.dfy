/**
 Bitshuffle without vector instructions (blosc/bitshuffle-generic.c): the transform in three
 stages, its inverse in two, and the closed form of both.
 */
module Bitshuffle {
  import opened Arith
  import opened Transpose
  import opened BitMatrix

  // ---- rows of bits

  /** Byte `k` of the transposed word number `g`: bit `k` of each of the eight bytes. */
  function RowByte(s: seq<bv8>, g: nat, k: nat): bv8
    requires 8 * g + 8 <= |s|
  {
    ByteOf(Trans8x8(Load(s, 8 * g)), k)
  }

  lemma RowByteBit(s: seq<bv8>, g: nat, k: nat, c: nat)
    requires 8 * g + 8 <= |s| && k < 8 && c < 8
    ensures Bit(RowByte(s, g, k), c) == Bit(s[8 * g + c], k)
  {
    TransBit(Load(s, 8 * g), k, c);
    LoadByte(s, 8 * g, c);
  }

  /** One row for each bit of a byte, with one bit for each byte of the input. */
  function BitRows(s: seq<bv8>, row: nat): (r: seq<bv8>)
    requires |s| == 8 * row
    ensures |r| == |s|
  {
    seq(|s|, p requires 0 <= p < |s| => RowByte(s, p % row, p / row))
  }

  lemma BitRowsAt(s: seq<bv8>, row: nat, g: nat, k: nat)
    requires |s| == 8 * row && g < row && k < 8
    ensures Times(k, row) + g < |s| && BitRows(s, row)[Times(k, row) + g] == RowByte(s, g, k)
  {
    MulLess(k, 8, row, g);
    DivIsUnique(Times(k, row) + g, row, k, g);
  }

  // ---- the loops

  ghost predicate Improved(out: seq<bv8>, was: seq<bv8>, spec: seq<bv8>) {
    |out| == |was| == |spec| && forall p :: 0 <= p < |out| ==> out[p] == was[p] || out[p] == spec[p]
  }

  /** The byte for bit `k` of word `g` is right. */
  ghost predicate BitDone(out: seq<bv8>, spec: seq<bv8>, row: nat, g: nat, k: nat) {
    Times(k, row) + g < |out| == |spec| && out[Times(k, row) + g] == spec[Times(k, row) + g]
  }

  ghost predicate WordsDone(out: seq<bv8>, spec: seq<bv8>, row: nat, lo: nat, hi: nat, n: nat) {
    forall g: nat, k: nat :: lo <= g < hi && k < n ==> BitDone(out, spec, row, g, k)
  }

  lemma KeepWords(out: seq<bv8>, was: seq<bv8>, spec: seq<bv8>, row: nat, lo: nat, hi: nat, n: nat)
    requires Improved(out, was, spec) && WordsDone(was, spec, row, lo, hi, n)
    ensures WordsDone(out, spec, row, lo, hi, n)
  {
    hide Times;
    forall g: nat, k: nat | lo <= g < hi && k < n
      ensures BitDone(out, spec, row, g, k)
    {
      assert BitDone(was, spec, row, g, k);
    }
  }

  /** Store the eight bytes of a word, one in each row. */
  method PutWord(ghost s: seq<bv8>, x0: bv64, row: nat, g: nat, out: array<bv8>, ghost spec: seq<bv8>)
    requires |s| == out.Length == 8 * row && g < row && spec == BitRows(s, row)
    requires x0 == Trans8x8(Load(s, 8 * g))
    modifies out
    ensures Improved(out[..], old(out[..]), spec) && WordsDone(out[..], spec, row, g, g + 1, 8)
  {
    hide *;
    var x := x0;
    FirstByte(x0);
    ImprovedSame(out[..], spec);
    NoWords(out[..], spec, row, g);
    for k := 0 to 8
      invariant k < 8 ==> x == Dropped(x0, k)
      invariant Improved(out[..], old(out[..]), spec) && WordsDone(out[..], spec, row, g, g + 1, k)
    {
      ghost var before := out[..];
      BitRowsAt(s, row, g, k);
      RowByteIs(s, g, k);
      LowIsByte(x0, k);
      out[Times(k, row) + g] := LowByte(x);
      OneMore(out[..], before, old(out[..]), spec, row, g, k);
      if k < 7 {
        NextByte(x0, k);
      }
      x := ShiftByte(x);
    }
  }

  lemma RowByteIs(s: seq<bv8>, g: nat, k: nat)
    requires 8 * g + 8 <= |s|
    ensures RowByte(s, g, k) == ByteOf(Trans8x8(Load(s, 8 * g)), k)
  {
  }

  lemma ImprovedSame(out: seq<bv8>, spec: seq<bv8>)
    requires |out| == |spec|
    ensures Improved(out, out, spec)
  {
  }

  lemma NoWords(out: seq<bv8>, spec: seq<bv8>, row: nat, g: nat)
    ensures WordsDone(out, spec, row, g, g + 1, 0)
  {
  }

  lemma OneMore(out: seq<bv8>, before: seq<bv8>, was: seq<bv8>, spec: seq<bv8>, row: nat, g: nat, k: nat)
    requires Improved(before, was, spec) && WordsDone(before, spec, row, g, g + 1, k)
    requires Times(k, row) + g < |spec| && |before| == |spec|
             && out == before[Times(k, row) + g := spec[Times(k, row) + g]]
    ensures Improved(out, was, spec) && WordsDone(out, spec, row, g, g + 1, k + 1)
  {
    hide Times;
    KeepWords(out, before, spec, row, g, g + 1, k);
    assert BitDone(out, spec, row, g, k);
    var k' := k + 1;
    hide BitDone;
    assert forall i: nat, n: nat :: g <= i < g + 1 && n < k' ==> BitDone(out, spec, row, i, n);
  }

  /** `bshuf_trans_bit_byte_remainder`, on a little-endian machine. */
  method TransBitByteRemainder(s: seq<bv8>, out: array<bv8>, row: nat, start: nat)
    requires |s| == out.Length == 8 * row && start % 8 == 0
    modifies out
    ensures Improved(out[..], old(out[..]), BitRows(s, row))
            && WordsDone(out[..], BitRows(s, row), row, start / 8, row, 8)
  {
    ghost var spec, was := BitRows(s, row), out[..];
    hide BitRows, Trans8x8, Load, BitDone;
    var ii := start / 8;
    while ii < row
      invariant start / 8 <= ii
      invariant Improved(out[..], was, spec) && WordsDone(out[..], spec, row, start / 8, ii, 8)
    {
      ghost var before := out[..];
      PutWord(s, Trans8x8(Load(s, 8 * ii)), row, ii, out, spec);
      KeepWords(out[..], before, spec, row, start / 8, ii, 8);
      ii := ii + 1;
    }
  }

  lemma AllWords(out: seq<bv8>, spec: seq<bv8>, row: nat)
    requires |out| == |spec| == 8 * row && WordsDone(out, spec, row, 0, row, 8)
    ensures out == spec
  {
    forall p | 0 <= p < |out|
      ensures out[p] == spec[p]
    {
      DivBelow(p, 8, row);
      assert p == Times(p / row, row) + p % row;
      assert BitDone(out, spec, row, p % row, p / row);
    }
  }

  /** `bshuf_trans_bit_byte_scal`. */
  method TransBitByte(s: seq<bv8>, out: array<bv8>, row: nat)
    requires |s| == out.Length == 8 * row
    modifies out
    ensures out[..] == BitRows(s, row)
  {
    TransBitByteRemainder(s, out, row, 0);
    AllWords(out[..], BitRows(s, row), row);
  }

  // ---- the whole transform

  lemma Sizes(m: nat, elem: nat)
    ensures Times(Times(8 * m, elem), 1) == 8 * Times(elem, m) == Times(Times(8, elem), m)
            == Times(Times(8 * elem, m), 1)
  {
  }

  /** The transform of `8 * m` elements. */
  function Shuffled(s: seq<bv8>, m: nat, elem: nat): (r: seq<bv8>)
    requires |s| == 8 * Times(elem, m)
    ensures |r| == |s|
  {
    Sizes(m, elem);
    Transposed(BitRows(Transposed(s, 8 * m, elem, 1), Times(elem, m)), 8, elem, m)
  }

  /** The closed form: bit `b` of byte `j` of element `8 * g + c` becomes bit `c` of byte `g` of row `8 * j + b`. */
  lemma ShuffledAt(s: seq<bv8>, m: nat, elem: nat, g: nat, c: nat, j: nat, b: nat)
    requires |s| == 8 * Times(elem, m) && g < m && c < 8 && j < elem && b < 8
    ensures Times(8 * j + b, m) + g < |s| && Times(8 * g + c, elem) + j < |s|
    ensures Bit(Shuffled(s, m, elem)[Times(8 * j + b, m) + g], c) == Bit(s[Times(8 * g + c, elem) + j], b)
  {
    hide *;
    Sizes(m, elem);
    ShuffledIs(s, m, elem);
    var row, q := Times(elem, m), Times(j, m) + g;
    var one := Transposed(s, 8 * m, elem, 1);
    var two := BitRows(one, row);
    StageThree(two, m, elem, g, j, b);
    StageTwo(one, row, q, b, c);
    StageOne(s, m, elem, g, c, j);
  }

  lemma ShuffledIs(s: seq<bv8>, m: nat, elem: nat)
    requires |s| == 8 * Times(elem, m)
    ensures |s| == Times(Times(8 * m, elem), 1) == Times(Times(8, elem), m)
    ensures Shuffled(s, m, elem) == Transposed(BitRows(Transposed(s, 8 * m, elem, 1), Times(elem, m)), 8, elem, m)
  {
  }

  lemma StageOne(s: seq<bv8>, m: nat, elem: nat, g: nat, c: nat, j: nat)
    requires |s| == Times(Times(8 * m, elem), 1) && g < m && c < 8 && j < elem
    ensures 8 * (Times(j, m) + g) + c < |s| && Times(8 * g + c, elem) + j < |s|
    ensures Transposed(s, 8 * m, elem, 1)[8 * (Times(j, m) + g) + c] == s[Times(8 * g + c, elem) + j]
  {
    hide Transposed, Times, Place;
    TransposedAt(s, 8 * m, elem, 1, 8 * g + c, j, 0);
    ByteIndex(j, g, c, m);
    PlaceOne(8 * g + c, j, elem);
  }

  lemma PlaceOne(r: nat, c: nat, b: nat)
    ensures Place(r, c, 0, b, 1) == Times(r, b) + c
  {
  }

  lemma StageTwo(one: seq<bv8>, row: nat, q: nat, b: nat, c: nat)
    requires |one| == 8 * row && q < row && b < 8 && c < 8
    ensures Times(b, row) + q < |one| && Bit(BitRows(one, row)[Times(b, row) + q], c) == Bit(one[8 * q + c], b)
  {
    hide BitRows, RowByte, Bit, Times;
    BitRowsAt(one, row, q, b);
    RowByteBit(one, q, b, c);
  }

  lemma StageThree(two: seq<bv8>, m: nat, elem: nat, g: nat, j: nat, b: nat)
    requires |two| == Times(Times(8, elem), m) && g < m && j < elem && b < 8
    ensures Times(8 * j + b, m) + g < |two| && Times(b, Times(elem, m)) + (Times(j, m) + g) < |two|
            && Times(j, m) + g < Times(elem, m)
    ensures Transposed(two, 8, elem, m)[Times(8 * j + b, m) + g] == two[Times(b, Times(elem, m)) + (Times(j, m) + g)]
  {
    MulLess(j, elem, m, g);
    hide Transposed;
    TransposedAt(two, 8, elem, m, b, j, g);
    RowIndex(b, j, g, elem, m);
    assert Place(j, b, g, 8, m) == Times(8 * j + b, m) + g;
  }

  lemma RowIndex(b: nat, j: nat, g: nat, elem: nat, m: nat)
    ensures Place(b, j, g, elem, m) == Times(b, Times(elem, m)) + (Times(j, m) + g)
  {
  }

  lemma ByteIndex(j: nat, g: nat, c: nat, m: nat)
    ensures Place(j, 8 * g + c, 0, 8 * m, 1) == 8 * (Times(j, m) + g) + c
  {
  }

  /** `bshuf_trans_bit_elem_scal`: -80 unless the number of elements is a multiple of eight. */
  method TransBitElem(s: seq<bv8>, out: array<bv8>, size: nat, elem: nat) returns (r: int)
    requires |s| == out.Length == Times(size, elem)
    modifies out
    ensures size % 8 != 0 ==> r == -80 && out[..] == old(out[..])
    ensures size % 8 == 0 ==> r == |s| == 8 * Times(elem, size / 8) && out[..] == Shuffled(s, size / 8, elem)
  {
    if size % 8 != 0 {
      return -80;
    }
    var m := size / 8;
    assert size == 8 * m;
    hide *;
    EightTimes(size, m, elem);
    ShuffledIs(s, m, elem);
    var tmp := new bv8[out.Length];
    TransByteElem(s, out, size, elem);
    TransBitByte(out[..], tmp, Times(elem, m));
    TransElem(tmp[..], out, 8, elem, m);
    r := |s|;
  }

  lemma EightTimes(size: nat, m: nat, elem: nat)
    requires size == 8 * m
    ensures Times(size, elem) == 8 * Times(elem, m) == Times(Times(size, elem), 1) == Times(Times(8, elem), m)
            == Times(Times(8 * elem, m), 1)
  {
  }

  // ---- the inverse

  /** The byte at `p` after the second stage of the inverse, from words of the first. */
  function Gathered(s: seq<bv8>, m: nat, elem: nat): (r: seq<bv8>)
    requires |s| == 8 * Times(elem, m)
    ensures |r| == |s|
  {
    seq(|s|, p requires 0 <= p < |s| => GatheredAt(s, elem, p))
  }

  function GatheredAt(s: seq<bv8>, elem: nat, p: nat): bv8 {
    if elem == 0 then 0
    else
      var i, j := p / elem, p % elem;
      var at := 8 * (Times(i / 8, elem) + j);
      if at + 8 <= |s| then ByteOf(Trans8x8(Load(s, at)), i % 8) else 0
  }

  /** The word of byte `j` of eight elements lies in the buffer. */
  lemma WordFits(m: nat, elem: nat, g: nat, j: nat)
    requires g < m && j < elem
    ensures 8 * (Times(g, elem) + j) + 8 <= 8 * Times(elem, m)
  {
    MulLess(g, m, elem, j);
  }

  lemma ElementFits(m: nat, elem: nat, g: nat, k: nat, j: nat)
    requires g < m && k < 8 && j < elem
    ensures Times(8 * g + k, elem) + j < 8 * Times(elem, m)
  {
    MulLess(8 * g + k, 8 * m, elem, j);
    Sizes(m, elem);
  }

  lemma GatheredIs(s: seq<bv8>, m: nat, elem: nat, g: nat, k: nat, j: nat)
    requires |s| == 8 * Times(elem, m) && g < m && k < 8 && j < elem
    ensures Times(8 * g + k, elem) + j < |s| && 8 * (Times(g, elem) + j) + 8 <= |s|
    ensures Gathered(s, m, elem)[Times(8 * g + k, elem) + j] == ByteOf(Trans8x8(Load(s, 8 * (Times(g, elem) + j))), k)
  {
    WordFits(m, elem, g, j);
    ElementFits(m, elem, g, k, j);
    DivIsUnique(Times(8 * g + k, elem) + j, elem, 8 * g + k, j);
    hide Times, ByteOf, Trans8x8, Load;
  }

  lemma GatheredBit(s: seq<bv8>, m: nat, elem: nat, g: nat, k: nat, j: nat, c: nat)
    requires |s| == 8 * Times(elem, m) && g < m && k < 8 && j < elem && c < 8
    ensures Times(8 * g + k, elem) + j < |s| && 8 * (Times(g, elem) + j) + 8 <= |s|
    ensures Bit(Gathered(s, m, elem)[Times(8 * g + k, elem) + j], c) == Bit(s[8 * (Times(g, elem) + j) + c], k)
  {
    hide Gathered, Times, ByteOf, Trans8x8, Load, Bit;
    GatheredIs(s, m, elem, g, k, j);
    TransBit(Load(s, 8 * (Times(g, elem) + j)), k, c);
    LoadByte(s, 8 * (Times(g, elem) + j), c);
  }

  function Unshuffled(s: seq<bv8>, m: nat, elem: nat): (r: seq<bv8>)
    requires |s| == 8 * Times(elem, m)
    ensures |r| == |s|
  {
    Sizes(m, elem);
    Gathered(Transposed(s, 8 * elem, m, 1), m, elem)
  }

  lemma UnshuffledIs(s: seq<bv8>, m: nat, elem: nat)
    requires |s| == 8 * Times(elem, m)
    ensures |s| == Times(Times(8 * elem, m), 1)
            && Unshuffled(s, m, elem) == Gathered(Transposed(s, 8 * elem, m, 1), m, elem)
  {
  }

  /** The closed form of the inverse. */
  lemma UnshuffledAt(s: seq<bv8>, m: nat, elem: nat, g: nat, c: nat, j: nat, b: nat)
    requires |s| == 8 * Times(elem, m) && g < m && c < 8 && j < elem && b < 8
    ensures Times(8 * j + b, m) + g < |s| && Times(8 * g + c, elem) + j < |s|
    ensures Bit(Unshuffled(s, m, elem)[Times(8 * g + c, elem) + j], b) == Bit(s[Times(8 * j + b, m) + g], c)
  {
    hide *;
    UnshuffledIs(s, m, elem);
    var one := Transposed(s, 8 * elem, m, 1);
    GatheredBit(one, m, elem, g, c, j, b);
    BitRowBack(s, m, elem, g, j, b);
  }

  lemma BitRowBack(s: seq<bv8>, m: nat, elem: nat, g: nat, j: nat, b: nat)
    requires |s| == Times(Times(8 * elem, m), 1) && g < m && j < elem && b < 8
    ensures 8 * (Times(g, elem) + j) + b < |s| && Times(8 * j + b, m) + g < |s|
    ensures Transposed(s, 8 * elem, m, 1)[8 * (Times(g, elem) + j) + b] == s[Times(8 * j + b, m) + g]
  {
    hide Transposed, Times, Place;
    TransposedAt(s, 8 * elem, m, 1, 8 * j + b, g, 0);
    ByteIndex(g, j, b, elem);
    PlaceOne(8 * j + b, g, m);
  }

  // ---- the two are inverse to each other

  lemma ElementParts(p: nat, m: nat, elem: nat) returns (g: nat, c: nat, j: nat)
    requires p < 8 * Times(elem, m)
    ensures g < m && c < 8 && j < elem && p == Times(8 * g + c, elem) + j
  {
    Sizes(m, elem);
    if elem == 0 {
      assert false;
    }
    DivBelow(p, 8 * m, elem);
    var i := p / elem;
    g, c, j := i / 8, i % 8, p % elem;
    assert 8 * g + c == i;
  }

  /** Untransforming what was transformed gives the input back. */
  lemma UnshuffleShuffle(s: seq<bv8>, m: nat, elem: nat)
    requires |s| == 8 * Times(elem, m)
    ensures Unshuffled(Shuffled(s, m, elem), m, elem) == s
  {
    hide *;
    var t := Shuffled(s, m, elem);
    var back := Unshuffled(t, m, elem);
    forall p | 0 <= p < |s|
      ensures back[p] == s[p]
    {
      var g, c, j := ElementParts(p, m, elem);
      forall b: nat | b < 8
        ensures Bit(back[p], b) == Bit(s[p], b)
      {
        UnshuffledAt(t, m, elem, g, c, j, b);
        ShuffledAt(s, m, elem, g, c, j, b);
      }
      BitsDetermine(back[p], s[p]);
    }
  }

  /** And the other way round. */
  lemma ShuffleUnshuffle(s: seq<bv8>, m: nat, elem: nat)
    requires |s| == 8 * Times(elem, m)
    ensures Shuffled(Unshuffled(s, m, elem), m, elem) == s
  {
    hide *;
    var t := Unshuffled(s, m, elem);
    var back := Shuffled(t, m, elem);
    forall p | 0 <= p < |s|
      ensures back[p] == s[p]
    {
      var j, b, g := RowParts(p, m, elem);
      forall c: nat | c < 8
        ensures Bit(back[p], c) == Bit(s[p], c)
      {
        ShuffledAt(t, m, elem, g, c, j, b);
        UnshuffledAt(s, m, elem, g, c, j, b);
      }
      BitsDetermine(back[p], s[p]);
    }
  }

  lemma RowParts(p: nat, m: nat, elem: nat) returns (j: nat, b: nat, g: nat)
    requires p < 8 * Times(elem, m)
    ensures j < elem && b < 8 && g < m && p == Times(8 * j + b, m) + g
  {
    Sizes(m, elem);
    if m == 0 {
      assert false;
    }
    DivBelow(p, 8 * elem, m);
    var i := p / m;
    j, b, g := i / 8, i % 8, p % m;
    assert 8 * j + b == i;
  }

  // ---- the loops of the inverse

  /** `bshuf_trans_byte_bitrow_scal`. */
  method TransByteBitrow(s: seq<bv8>, out: array<bv8>, m: nat, elem: nat)
    requires |s| == out.Length == Times(Times(8 * elem, m), 1)
    modifies out
    ensures out[..] == Transposed(s, 8 * elem, m, 1)
  {
    hide *;
    ghost var was := out[..];
    BetterSame(s, was, 8 * elem, m, 1);
    NoneIn(s, out[..], 8 * elem, m, 1, 0, 0, m);
    for jj := 0 to elem
      invariant Better(s, out[..], was, 8 * elem, m, 1) && DoneIn(s, out[..], 8 * elem, m, 1, 0, 8 * jj, m)
    {
      PutMoreRows(s, 8 * elem, m, 1, 0, 8 * jj, 8, out, was);
    }
    DoneInAll(s, out[..], 8 * elem, m, 1);
  }

  /** Byte `j` of element `8 * g + k` is right. */
  ghost predicate ByteDone(out: seq<bv8>, spec: seq<bv8>, elem: nat, g: nat, j: nat, k: nat) {
    Times(8 * g + k, elem) + j < |out| == |spec| && out[Times(8 * g + k, elem) + j] == spec[Times(8 * g + k, elem) + j]
  }

  /** The first `n` of the eight bytes of group `g` are right. */
  ghost predicate GroupDone(out: seq<bv8>, spec: seq<bv8>, elem: nat, g: nat, j: nat, n: nat) {
    forall k: nat :: k < n ==> ByteDone(out, spec, elem, g, j, k)
  }

  lemma KeepGroup(out: seq<bv8>, was: seq<bv8>, spec: seq<bv8>, elem: nat, g: nat, j: nat, n: nat)
    requires Improved(out, was, spec) && GroupDone(was, spec, elem, g, j, n)
    ensures GroupDone(out, spec, elem, g, j, n)
  {
    hide Times;
    forall k: nat | k < n
      ensures ByteDone(out, spec, elem, g, j, k)
    {
      assert ByteDone(was, spec, elem, g, j, k);
    }
  }

  /** Store the eight bytes of a word, one in each of eight elements. */
  method PutGroup(ghost s: seq<bv8>, x0: bv64, ghost m: nat, elem: nat, g: nat, j: nat, out: array<bv8>,
                  ghost spec: seq<bv8>)
    requires |s| == out.Length == 8 * Times(elem, m) && g < m && j < elem && spec == Gathered(s, m, elem)
    requires 8 * (Times(g, elem) + j) + 8 <= |s| && x0 == Trans8x8(Load(s, 8 * (Times(g, elem) + j)))
    modifies out
    ensures Improved(out[..], old(out[..]), spec) && GroupDone(out[..], spec, elem, g, j, 8)
  {
    hide *;
    var x := x0;
    FirstByte(x0);
    ImprovedSame(out[..], spec);
    NoGroup(out[..], spec, elem, g, j);
    for k := 0 to 8
      invariant k < 8 ==> x == Dropped(x0, k)
      invariant Improved(out[..], old(out[..]), spec) && GroupDone(out[..], spec, elem, g, j, k)
    {
      ghost var before := out[..];
      GatheredIs(s, m, elem, g, k, j);
      LowIsByte(x0, k);
      out[Times(8 * g + k, elem) + j] := LowByte(x);
      OneMoreByte(out[..], before, old(out[..]), spec, elem, g, j, k);
      if k < 7 {
        NextByte(x0, k);
      }
      x := ShiftByte(x);
    }
  }

  lemma NoGroup(out: seq<bv8>, spec: seq<bv8>, elem: nat, g: nat, j: nat)
    ensures GroupDone(out, spec, elem, g, j, 0)
  {
  }

  lemma OneMoreByte(out: seq<bv8>, before: seq<bv8>, was: seq<bv8>, spec: seq<bv8>, elem: nat, g: nat, j: nat, k: nat)
    requires Improved(before, was, spec) && GroupDone(before, spec, elem, g, j, k)
    requires var p := Times(8 * g + k, elem) + j; p < |spec| && |before| == |spec| && out == before[p := spec[p]]
    ensures Improved(out, was, spec) && GroupDone(out, spec, elem, g, j, k + 1)
  {
    hide Times;
    KeepGroup(out, before, spec, elem, g, j, k);
    assert ByteDone(out, spec, elem, g, j, k);
    var k' := k + 1;
    hide ByteDone;
    assert forall n: nat :: n < k' ==> ByteDone(out, spec, elem, g, j, n);
  }

  /** Bytes before `j` are right in all groups, and byte `j` in the groups before `g`. */
  ghost predicate GroupsDone(out: seq<bv8>, spec: seq<bv8>, m: nat, elem: nat, j: nat, g: nat) {
    && (forall i: nat, h: nat :: i < j && h < m ==> GroupDone(out, spec, elem, h, i, 8))
    && (forall h: nat :: h < g && h < m ==> GroupDone(out, spec, elem, h, j, 8))
  }

  lemma GroupsNext(out: seq<bv8>, was: seq<bv8>, spec: seq<bv8>, m: nat, elem: nat, j: nat, g: nat)
    requires Improved(out, was, spec) && GroupsDone(was, spec, m, elem, j, g) && GroupDone(out, spec, elem, g, j, 8)
    ensures GroupsDone(out, spec, m, elem, j, g + 1)
  {
    hide GroupDone, Improved;
    var g' := g + 1;
    forall i: nat, h: nat | i < j && h < m
      ensures GroupDone(out, spec, elem, h, i, 8)
    {
      KeepGroup(out, was, spec, elem, h, i, 8);
    }
    forall h: nat | h < g' && h < m
      ensures GroupDone(out, spec, elem, h, j, 8)
    {
      if h < g {
        KeepGroup(out, was, spec, elem, h, j, 8);
      }
    }
  }

  lemma GroupsRow(out: seq<bv8>, spec: seq<bv8>, m: nat, elem: nat, j: nat)
    requires GroupsDone(out, spec, m, elem, j, m)
    ensures GroupsDone(out, spec, m, elem, j + 1, 0)
  {
  }

  lemma GroupsAll(out: seq<bv8>, spec: seq<bv8>, m: nat, elem: nat)
    requires |out| == |spec| == 8 * Times(elem, m) && GroupsDone(out, spec, m, elem, elem, 0)
    ensures out == spec
  {
    hide Times;
    forall p | 0 <= p < |out|
      ensures out[p] == spec[p]
    {
      var g, c, j := ElementParts(p, m, elem);
      assert GroupDone(out, spec, elem, g, j, 8);
      assert ByteDone(out, spec, elem, g, j, c);
    }
  }

  /** `bshuf_shuffle_bit_eightelem_scal`, on a little-endian machine. */
  method ShuffleBitEightelem(s: seq<bv8>, out: array<bv8>, m: nat, elem: nat)
    requires |s| == out.Length == 8 * Times(elem, m)
    modifies out
    ensures out[..] == Gathered(s, m, elem)
  {
    ghost var spec := Gathered(s, m, elem);
    hide Gathered, GroupDone, Improved, Trans8x8, Load, Times;
    for j := 0 to elem
      invariant GroupsDone(out[..], spec, m, elem, j, 0)
    {
      for g := 0 to m
        invariant GroupsDone(out[..], spec, m, elem, j, g)
      {
        ghost var before := out[..];
        WordFits(m, elem, g, j);
        PutGroup(s, Trans8x8(Load(s, 8 * (Times(g, elem) + j))), m, elem, g, j, out, spec);
        GroupsNext(out[..], before, spec, m, elem, j, g);
      }
      GroupsRow(out[..], spec, m, elem, j);
    }
    GroupsAll(out[..], spec, m, elem);
  }

  /** `bshuf_untrans_bit_elem_scal`. */
  method UntransBitElem(s: seq<bv8>, out: array<bv8>, size: nat, elem: nat) returns (r: int)
    requires |s| == out.Length == Times(size, elem)
    modifies out
    ensures size % 8 != 0 ==> r == -80 && out[..] == old(out[..])
    ensures size % 8 == 0 ==> r == |s| == 8 * Times(elem, size / 8) && out[..] == Unshuffled(s, size / 8, elem)
  {
    if size % 8 != 0 {
      return -80;
    }
    var m := size / 8;
    assert size == 8 * m;
    hide *;
    EightTimes(size, m, elem);
    UnshuffledIs(s, m, elem);
    var tmp := new bv8[out.Length];
    TransByteBitrow(s, tmp, m, elem);
    ShuffleBitEightelem(tmp[..], out, m, elem);
    r := |s|;
  }
}
