/**
 Bitshuffle with SSE2 instructions (blosc/bitshuffle-sse2.c): rows of bits taken with movemask,
 and the whole transform, which is the one without vector instructions.
 */
module BitshuffleSse {
  import opened Arith
  import opened Transpose
  import opened BitMatrix
  import opened Bitshuffle
  import opened SseTranspose

  /** The eight lanes of a register of sixteen bytes from `ii` on, after `k` shifts. */
  function Lanes(s: seq<bv8>, ii: nat, k: nat): (r: seq<bv16>)
    requires ii + 16 <= |s|
    ensures |r| == 8
  {
    seq(8, i requires 0 <= i < 8 => Shifted(BitMatrix.Lane(s[ii + 2 * i], s[ii + 2 * i + 1]), k))
  }

  /** `_mm_slli_epi16` by one. */
  function ShiftLanes(l: seq<bv16>): (r: seq<bv16>)
    requires |l| == 8
    ensures |r| == 8
  {
    seq(8, i requires 0 <= i < 8 => ShiftLane(l[i]))
  }

  lemma LanesNext(s: seq<bv8>, ii: nat, k: nat)
    requires ii + 16 <= |s| && k < 7
    ensures ShiftLanes(Lanes(s, ii, k)) == Lanes(s, ii, k + 1)
  {
    hide Shifted, BitMatrix.Lane, ShiftLane;
    forall i | 0 <= i < 8
      ensures ShiftLanes(Lanes(s, ii, k))[i] == Lanes(s, ii, k + 1)[i]
    {
      ShiftedNext(BitMatrix.Lane(s[ii + 2 * i], s[ii + 2 * i + 1]), k);
    }
  }

  /** One byte of `_mm_movemask_epi8`: the lower (`half == 0`) or the upper one. */
  function Mask(l: seq<bv16>, half: nat): bv8
    requires |l| == 8 && half < 2
  {
    MaskByte(l[4 * half], l[4 * half + 1], l[4 * half + 2], l[4 * half + 3])
  }

  /** The mask after `k` shifts is made of bit `7 - k` of each byte. */
  lemma MaskBit(s: seq<bv8>, ii: nat, k: nat, half: nat, c: nat)
    requires ii + 16 <= |s| && k < 8 && half < 2 && c < 8
    ensures Bit(Mask(Lanes(s, ii, k), half), c) == Bit(s[ii + 8 * half + c], 7 - k)
  {
    hide *;
    MaskIs(s, ii, k, half);
    MaskOfBytes(s, ii + 8 * half, k, c);
  }

  lemma MaskIs(s: seq<bv8>, ii: nat, k: nat, half: nat)
    requires ii + 16 <= |s| && half < 2
    ensures Mask(Lanes(s, ii, k), half) == MaskOf(s, ii + 8 * half, k)
  {
  }

  /** The mask of eight bytes after `k` shifts. */
  function MaskOf(s: seq<bv8>, at: nat, k: nat): bv8
    requires at + 8 <= |s|
  {
    MaskByte(Shifted(BitMatrix.Lane(s[at], s[at + 1]), k), Shifted(BitMatrix.Lane(s[at + 2], s[at + 3]), k),
             Shifted(BitMatrix.Lane(s[at + 4], s[at + 5]), k), Shifted(BitMatrix.Lane(s[at + 6], s[at + 7]), k))
  }

  lemma MaskOfBytes(s: seq<bv8>, at: nat, k: nat, c: nat)
    requires at + 8 <= |s| && k < 8 && c < 8
    ensures Bit(MaskOf(s, at, k), c) == Bit(s[at + c], 7 - k)
  {
    hide MaskByte, Shifted, BitMatrix.Lane, Bit, LowTop, HighTop;
    MaskBits(Shifted(BitMatrix.Lane(s[at], s[at + 1]), k), Shifted(BitMatrix.Lane(s[at + 2], s[at + 3]), k),
             Shifted(BitMatrix.Lane(s[at + 4], s[at + 5]), k), Shifted(BitMatrix.Lane(s[at + 6], s[at + 7]), k));
    match c {
      case 0 => LaneTop(s[at], s[at + 1], k);
      case 1 => LaneTop(s[at], s[at + 1], k);
      case 2 => LaneTop(s[at + 2], s[at + 3], k);
      case 3 => LaneTop(s[at + 2], s[at + 3], k);
      case 4 => LaneTop(s[at + 4], s[at + 5], k);
      case 5 => LaneTop(s[at + 4], s[at + 5], k);
      case 6 => LaneTop(s[at + 6], s[at + 7], k);
      case _ => LaneTop(s[at + 6], s[at + 7], k);
    }
  }

  /** So the mask is a byte of a row of bits. */
  lemma MaskIsRow(s: seq<bv8>, q: nat, k: nat, half: nat)
    requires 16 * q + 16 <= |s| && k < 8 && half < 2
    ensures Mask(Lanes(s, 16 * q, k), half) == RowByte(s, 2 * q + half, 7 - k)
  {
    hide Lanes, Mask, RowByte, Bit;
    var m, b := Mask(Lanes(s, 16 * q, k), half), RowByte(s, 2 * q + half, 7 - k);
    forall c: nat | c < 8
      ensures Bit(m, c) == Bit(b, c)
    {
      MaskBit(s, 16 * q, k, half, c);
      RowByteBit(s, 2 * q + half, 7 - k, c);
      assert 8 * (2 * q + half) + c == 16 * q + 8 * half + c;
    }
    BitsDetermine(m, b);
  }

  // ---- the loops

  /** The bits from `n` on are done for word `g`. */
  ghost predicate HighDone(out: seq<bv8>, spec: seq<bv8>, row: nat, g: nat, n: nat) {
    forall k: nat :: n <= k < 8 ==> BitDone(out, spec, row, g, k)
  }

  lemma HighKept(out: seq<bv8>, was: seq<bv8>, spec: seq<bv8>, row: nat, g: nat, n: nat)
    requires Improved(out, was, spec) && HighDone(was, spec, row, g, n)
    ensures HighDone(out, spec, row, g, n)
  {
    hide Times;
    forall k: nat | n <= k < 8
      ensures BitDone(out, spec, row, g, k)
    {
      assert BitDone(was, spec, row, g, k);
    }
  }

  lemma HighNext(out: seq<bv8>, was: seq<bv8>, spec: seq<bv8>, row: nat, g: nat, n: nat)
    requires Improved(out, was, spec) && HighDone(was, spec, row, g, n + 1) && BitDone(out, spec, row, g, n)
    ensures HighDone(out, spec, row, g, n)
  {
    hide BitDone, Improved;
    HighKept(out, was, spec, row, g, n + 1);
    forall k: nat | n <= k < 8
      ensures BitDone(out, spec, row, g, k)
    {
    }
  }

  /** Store the two bytes of a mask, next to each other in row `k`. */
  method PutMask(ghost s: seq<bv8>, lo: bv8, hi: bv8, row: nat, q: nat, k: nat, out: array<bv8>, ghost spec: seq<bv8>)
    requires |s| == out.Length == 8 * row && 2 * q + 1 < row && k < 8 && spec == BitRows(s, row)
    requires lo == RowByte(s, 2 * q, k) && hi == RowByte(s, 2 * q + 1, k)
    modifies out
    ensures Improved(out[..], old(out[..]), spec) && BitDone(out[..], spec, row, 2 * q, k)
            && BitDone(out[..], spec, row, 2 * q + 1, k)
  {
    BitRowsAt(s, row, 2 * q, k);
    BitRowsAt(s, row, 2 * q + 1, k);
    hide BitRows, RowByte, Times;
    var at := Times(k, row) + 2 * q;
    out[at] := lo;
    out[at + 1] := hi;
    assert at + 1 == Times(k, row) + (2 * q + 1);
  }

  /** Sixteen bytes: eight masks. */
  method MaskRows(s: seq<bv8>, row: nat, q: nat, out: array<bv8>, ghost spec: seq<bv8>)
    requires |s| == out.Length == 8 * row && 2 * q + 1 < row && spec == BitRows(s, row)
    modifies out
    ensures Improved(out[..], old(out[..]), spec) && HighDone(out[..], spec, row, 2 * q, 0)
            && HighDone(out[..], spec, row, 2 * q + 1, 0)
  {
    hide *;
    var lanes := Lanes(s, 16 * q, 0);
    ghost var was := out[..];
    ImprovedSame(out[..], spec);
    NoneHigh(out[..], spec, row, 2 * q);
    NoneHigh(out[..], spec, row, 2 * q + 1);
    for kk := 0 to 8
      invariant |lanes| == 8 && (kk < 8 ==> lanes == Lanes(s, 16 * q, kk))
      invariant Improved(out[..], was, spec)
      invariant HighDone(out[..], spec, row, 2 * q, 8 - kk) && HighDone(out[..], spec, row, 2 * q + 1, 8 - kk)
    {
      ghost var before := out[..];
      MaskIsRow(s, q, kk, 0);
      MaskIsRow(s, q, kk, 1);
      PutMask(s, Mask(lanes, 0), Mask(lanes, 1), row, q, 7 - kk, out, spec);
      ImprovedTwice(out[..], before, was, spec);
      HighNext(out[..], before, spec, row, 2 * q, 7 - kk);
      HighNext(out[..], before, spec, row, 2 * q + 1, 7 - kk);
      if kk < 7 {
        LanesNext(s, 16 * q, kk);
      }
      lanes := ShiftLanes(lanes);
    }
  }

  lemma NoneHigh(out: seq<bv8>, spec: seq<bv8>, row: nat, g: nat)
    ensures HighDone(out, spec, row, g, 8)
  {
  }

  lemma ImprovedTwice(out: seq<bv8>, mid: seq<bv8>, was: seq<bv8>, spec: seq<bv8>)
    requires Improved(out, mid, spec) && Improved(mid, was, spec)
    ensures Improved(out, was, spec)
  {
  }

  lemma TwoMoreWords(out: seq<bv8>, was: seq<bv8>, spec: seq<bv8>, row: nat, q: nat)
    requires Improved(out, was, spec) && WordsDone(was, spec, row, 0, 2 * q, 8)
    requires HighDone(out, spec, row, 2 * q, 0) && HighDone(out, spec, row, 2 * q + 1, 0)
    ensures WordsDone(out, spec, row, 0, 2 * q + 2, 8)
  {
    KeepWords(out, was, spec, row, 0, 2 * q, 8);
    hide BitDone, Improved;
    forall g: nat, k: nat | g < 2 * q + 2 && k < 8
      ensures BitDone(out, spec, row, g, k)
    {
      assert g < 2 * q || g == 2 * q || g == 2 * q + 1;
    }
  }

  /** `bshuf_trans_bit_byte_SSE`. */
  method TransBitByteSse(s: seq<bv8>, out: array<bv8>, row: nat)
    requires |s| == out.Length == 8 * row
    modifies out
    ensures out[..] == BitRows(s, row)
  {
    hide *;
    ghost var spec := BitRows(s, row);
    NoWordsBelow(out[..], spec, row);
    var q := 0;
    while 16 * q + 15 < 8 * row
      invariant 0 <= 2 * q <= row
      invariant WordsDone(out[..], spec, row, 0, 2 * q, 8)
    {
      ghost var before := out[..];
      MaskRows(s, row, q, out, spec);
      TwoMoreWords(out[..], before, spec, row, q);
      q := q + 1;
    }
    ghost var mid := out[..];
    var nbyte := 8 * row;
    Rest(q, row);
    TransBitByteRemainder(s, out, row, nbyte - nbyte % 16);
    KeepWords(out[..], mid, spec, row, 0, 2 * q, 8);
    JoinWords(out[..], spec, row, 2 * q);
    AllWords(out[..], spec, row);
  }

  lemma Rest(q: nat, row: nat)
    requires 2 * q <= row && 16 * q + 15 >= 8 * row
    ensures 8 * row - 8 * row % 16 == 16 * q && 16 * q % 8 == 0 && 16 * q / 8 == 2 * q
  {
  }

  lemma NoWordsBelow(out: seq<bv8>, spec: seq<bv8>, row: nat)
    ensures WordsDone(out, spec, row, 0, 0, 8)
  {
  }

  lemma JoinWords(out: seq<bv8>, spec: seq<bv8>, row: nat, mid: nat)
    requires WordsDone(out, spec, row, 0, mid, 8) && WordsDone(out, spec, row, mid, row, 8)
    ensures WordsDone(out, spec, row, 0, row, 8)
  {
  }

  /** `bshuf_trans_bit_elem_SSE` gives what the scalar transform gives. */
  method TransBitElemSse(s: seq<bv8>, out: array<bv8>, size: nat, elem: nat) returns (r: int)
    requires |s| == out.Length == Times(size, elem)
    modifies out
    ensures size % 8 != 0 ==> r == -80 && out[..] == old(out[..])
    ensures size % 8 == 0 ==> r == |s| == 8 * Times(elem, size / 8) && out[..] == Shuffled(s, size / 8, elem)
  {
    if size % 8 != 0 {
      return -80;
    }
    var m := size / 8;
    assert size == 8 * m;
    hide *;
    EightTimes(size, m, elem);
    ShuffledIs(s, m, elem);
    var tmp := new bv8[out.Length];
    TransByteElemSse(s, out, size, elem);
    TransBitByteSse(out[..], tmp, Times(elem, m));
    TransElem(tmp[..], out, 8, elem, m);
    r := |s|;
  }
}
