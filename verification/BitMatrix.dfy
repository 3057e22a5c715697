/**
 Eight bytes as an eight by eight matrix of bits: the macro TRANS_BIT_8X8
 (blosc/bitshuffle-generic.h) and the movemask of blosc/bitshuffle-sse2.c.
 */
module BitMatrix {

  /** Bit `n` of a byte. */
  function Bit(b: bv8, n: nat): bool {
    if n == 0 then b & 0x01 != 0 else if n == 1 then b & 0x02 != 0
    else if n == 2 then b & 0x04 != 0 else if n == 3 then b & 0x08 != 0
    else if n == 4 then b & 0x10 != 0 else if n == 5 then b & 0x20 != 0
    else if n == 6 then b & 0x40 != 0 else b & 0x80 != 0
  }

  /** A word after `n` shifts by one byte. */
  function Dropped(x: bv64, n: nat): bv64 {
    if n == 0 then x else if n == 1 then x >> 8 else if n == 2 then x >> 16 else if n == 3 then x >> 24
    else if n == 4 then x >> 32 else if n == 5 then x >> 40 else if n == 6 then x >> 48 else x >> 56
  }

  /** The cast of a word to a byte. */
  function LowByte(x: bv64): bv8 {
    (x & 0xFF) as bv8
  }

  /** Byte `n` of a word. */
  function ByteOf(x: bv64, n: nat): bv8 {
    LowByte(Dropped(x, n))
  }

  /** Bytes with the same bits are the same. */
  lemma BitsDetermine(a: bv8, b: bv8)
    requires forall n: nat :: n < 8 ==> Bit(a, n) == Bit(b, n)
    ensures a == b
  {
    assert Bit(a, 0) == Bit(b, 0) && Bit(a, 1) == Bit(b, 1) && Bit(a, 2) == Bit(b, 2) && Bit(a, 3) == Bit(b, 3);
    assert Bit(a, 4) == Bit(b, 4) && Bit(a, 5) == Bit(b, 5) && Bit(a, 6) == Bit(b, 6) && Bit(a, 7) == Bit(b, 7);
  }

  // ---- the transpose of one word

  function Trans8x8(x0: bv64): bv64 {
    var t1 := (x0 ^ (x0 >> 7)) & 0x00AA00AA00AA00AA;
    var x1 := x0 ^ t1 ^ (t1 << 7);
    var t2 := (x1 ^ (x1 >> 14)) & 0x0000CCCC0000CCCC;
    var x2 := x1 ^ t2 ^ (t2 << 14);
    var t3 := (x2 ^ (x2 >> 28)) & 0x00000000F0F0F0F0;
    x2 ^ t3 ^ (t3 << 28)
  }

  lemma TransRow0(x: bv64)
    ensures var y := Trans8x8(x);
            && Bit(ByteOf(y, 0), 0) == Bit(ByteOf(x, 0), 0) && Bit(ByteOf(y, 0), 1) == Bit(ByteOf(x, 1), 0)
            && Bit(ByteOf(y, 0), 2) == Bit(ByteOf(x, 2), 0) && Bit(ByteOf(y, 0), 3) == Bit(ByteOf(x, 3), 0)
            && Bit(ByteOf(y, 0), 4) == Bit(ByteOf(x, 4), 0) && Bit(ByteOf(y, 0), 5) == Bit(ByteOf(x, 5), 0)
            && Bit(ByteOf(y, 0), 6) == Bit(ByteOf(x, 6), 0) && Bit(ByteOf(y, 0), 7) == Bit(ByteOf(x, 7), 0)
  {
  }

  lemma TransRow1(x: bv64)
    ensures var y := Trans8x8(x);
            && Bit(ByteOf(y, 1), 0) == Bit(ByteOf(x, 0), 1) && Bit(ByteOf(y, 1), 1) == Bit(ByteOf(x, 1), 1)
            && Bit(ByteOf(y, 1), 2) == Bit(ByteOf(x, 2), 1) && Bit(ByteOf(y, 1), 3) == Bit(ByteOf(x, 3), 1)
            && Bit(ByteOf(y, 1), 4) == Bit(ByteOf(x, 4), 1) && Bit(ByteOf(y, 1), 5) == Bit(ByteOf(x, 5), 1)
            && Bit(ByteOf(y, 1), 6) == Bit(ByteOf(x, 6), 1) && Bit(ByteOf(y, 1), 7) == Bit(ByteOf(x, 7), 1)
  {
  }

  lemma TransRow2(x: bv64)
    ensures var y := Trans8x8(x);
            && Bit(ByteOf(y, 2), 0) == Bit(ByteOf(x, 0), 2) && Bit(ByteOf(y, 2), 1) == Bit(ByteOf(x, 1), 2)
            && Bit(ByteOf(y, 2), 2) == Bit(ByteOf(x, 2), 2) && Bit(ByteOf(y, 2), 3) == Bit(ByteOf(x, 3), 2)
            && Bit(ByteOf(y, 2), 4) == Bit(ByteOf(x, 4), 2) && Bit(ByteOf(y, 2), 5) == Bit(ByteOf(x, 5), 2)
            && Bit(ByteOf(y, 2), 6) == Bit(ByteOf(x, 6), 2) && Bit(ByteOf(y, 2), 7) == Bit(ByteOf(x, 7), 2)
  {
  }

  lemma TransRow3(x: bv64)
    ensures var y := Trans8x8(x);
            && Bit(ByteOf(y, 3), 0) == Bit(ByteOf(x, 0), 3) && Bit(ByteOf(y, 3), 1) == Bit(ByteOf(x, 1), 3)
            && Bit(ByteOf(y, 3), 2) == Bit(ByteOf(x, 2), 3) && Bit(ByteOf(y, 3), 3) == Bit(ByteOf(x, 3), 3)
            && Bit(ByteOf(y, 3), 4) == Bit(ByteOf(x, 4), 3) && Bit(ByteOf(y, 3), 5) == Bit(ByteOf(x, 5), 3)
            && Bit(ByteOf(y, 3), 6) == Bit(ByteOf(x, 6), 3) && Bit(ByteOf(y, 3), 7) == Bit(ByteOf(x, 7), 3)
  {
  }

  lemma TransRow4(x: bv64)
    ensures var y := Trans8x8(x);
            && Bit(ByteOf(y, 4), 0) == Bit(ByteOf(x, 0), 4) && Bit(ByteOf(y, 4), 1) == Bit(ByteOf(x, 1), 4)
            && Bit(ByteOf(y, 4), 2) == Bit(ByteOf(x, 2), 4) && Bit(ByteOf(y, 4), 3) == Bit(ByteOf(x, 3), 4)
            && Bit(ByteOf(y, 4), 4) == Bit(ByteOf(x, 4), 4) && Bit(ByteOf(y, 4), 5) == Bit(ByteOf(x, 5), 4)
            && Bit(ByteOf(y, 4), 6) == Bit(ByteOf(x, 6), 4) && Bit(ByteOf(y, 4), 7) == Bit(ByteOf(x, 7), 4)
  {
  }

  lemma TransRow5(x: bv64)
    ensures var y := Trans8x8(x);
            && Bit(ByteOf(y, 5), 0) == Bit(ByteOf(x, 0), 5) && Bit(ByteOf(y, 5), 1) == Bit(ByteOf(x, 1), 5)
            && Bit(ByteOf(y, 5), 2) == Bit(ByteOf(x, 2), 5) && Bit(ByteOf(y, 5), 3) == Bit(ByteOf(x, 3), 5)
            && Bit(ByteOf(y, 5), 4) == Bit(ByteOf(x, 4), 5) && Bit(ByteOf(y, 5), 5) == Bit(ByteOf(x, 5), 5)
            && Bit(ByteOf(y, 5), 6) == Bit(ByteOf(x, 6), 5) && Bit(ByteOf(y, 5), 7) == Bit(ByteOf(x, 7), 5)
  {
  }

  lemma TransRow6(x: bv64)
    ensures var y := Trans8x8(x);
            && Bit(ByteOf(y, 6), 0) == Bit(ByteOf(x, 0), 6) && Bit(ByteOf(y, 6), 1) == Bit(ByteOf(x, 1), 6)
            && Bit(ByteOf(y, 6), 2) == Bit(ByteOf(x, 2), 6) && Bit(ByteOf(y, 6), 3) == Bit(ByteOf(x, 3), 6)
            && Bit(ByteOf(y, 6), 4) == Bit(ByteOf(x, 4), 6) && Bit(ByteOf(y, 6), 5) == Bit(ByteOf(x, 5), 6)
            && Bit(ByteOf(y, 6), 6) == Bit(ByteOf(x, 6), 6) && Bit(ByteOf(y, 6), 7) == Bit(ByteOf(x, 7), 6)
  {
  }

  lemma TransRow7(x: bv64)
    ensures var y := Trans8x8(x);
            && Bit(ByteOf(y, 7), 0) == Bit(ByteOf(x, 0), 7) && Bit(ByteOf(y, 7), 1) == Bit(ByteOf(x, 1), 7)
            && Bit(ByteOf(y, 7), 2) == Bit(ByteOf(x, 2), 7) && Bit(ByteOf(y, 7), 3) == Bit(ByteOf(x, 3), 7)
            && Bit(ByteOf(y, 7), 4) == Bit(ByteOf(x, 4), 7) && Bit(ByteOf(y, 7), 5) == Bit(ByteOf(x, 5), 7)
            && Bit(ByteOf(y, 7), 6) == Bit(ByteOf(x, 6), 7) && Bit(ByteOf(y, 7), 7) == Bit(ByteOf(x, 7), 7)
  {
  }

  /** TRANS_BIT_8X8 is the transpose: bit `c` of byte `r` of the result is bit `r` of byte `c`. */
  lemma {:induction false} TransBit(x: bv64, r: nat, c: nat)
    requires r < 8 && c < 8
    ensures Bit(ByteOf(Trans8x8(x), r), c) == Bit(ByteOf(x, c), r)
  {
    hide Trans8x8, Bit, ByteOf;
    match r {
      case 0 => TransRow0(x);
      case 1 => TransRow1(x);
      case 2 => TransRow2(x);
      case 3 => TransRow3(x);
      case 4 => TransRow4(x);
      case 5 => TransRow5(x);
      case 6 => TransRow6(x);
      case _ => TransRow7(x);
    }
    assert c == 0 || c == 1 || c == 2 || c == 3 || c == 4 || c == 5 || c == 6 || c == 7;
  }

  // ---- words in memory

  /** The word at `p`, least significant byte first. */
  function Load(s: seq<bv8>, p: nat): bv64
    requires p + 8 <= |s|
  {
    Word(s[p], s[p + 1], s[p + 2], s[p + 3], s[p + 4], s[p + 5], s[p + 6], s[p + 7])
  }

  function Word(b0: bv8, b1: bv8, b2: bv8, b3: bv8, b4: bv8, b5: bv8, b6: bv8, b7: bv8): bv64 {
    (b0 as bv64) | ((b1 as bv64) << 8) | ((b2 as bv64) << 16) | ((b3 as bv64) << 24) |
    ((b4 as bv64) << 32) | ((b5 as bv64) << 40) | ((b6 as bv64) << 48) | ((b7 as bv64) << 56)
  }

  lemma WordBytes(b0: bv8, b1: bv8, b2: bv8, b3: bv8, b4: bv8, b5: bv8, b6: bv8, b7: bv8)
    ensures var x := Word(b0, b1, b2, b3, b4, b5, b6, b7);
            && ByteOf(x, 0) == b0 && ByteOf(x, 1) == b1 && ByteOf(x, 2) == b2 && ByteOf(x, 3) == b3
            && ByteOf(x, 4) == b4 && ByteOf(x, 5) == b5 && ByteOf(x, 6) == b6 && ByteOf(x, 7) == b7
  {
  }

  lemma LoadByte(s: seq<bv8>, p: nat, c: nat)
    requires p + 8 <= |s| && c < 8
    ensures ByteOf(Load(s, p), c) == s[p + c]
  {
    WordBytes(s[p], s[p + 1], s[p + 2], s[p + 3], s[p + 4], s[p + 5], s[p + 6], s[p + 7]);
    hide Word, ByteOf;
    assert c == 0 || c == 1 || c == 2 || c == 3 || c == 4 || c == 5 || c == 6 || c == 7;
  }

  function ShiftByte(x: bv64): bv64 {
    x >> 8
  }

  lemma FirstByte(x: bv64)
    ensures Dropped(x, 0) == x
  {
  }

  lemma LowIsByte(x: bv64, n: nat)
    ensures LowByte(Dropped(x, n)) == ByteOf(x, n)
  {
  }

  /** Shifting by a byte moves on to the next byte. */
  lemma {:induction false} NextByte(x: bv64, n: nat)
    requires n < 7
    ensures ShiftByte(Dropped(x, n)) == Dropped(x, n + 1)
  {
    ShiftTwice(x);
    hide ShiftByte;
    assert n == 0 || n == 1 || n == 2 || n == 3 || n == 4 || n == 5 || n == 6;
  }

  lemma ShiftTwice(x: bv64)
    ensures ShiftByte(x) == x >> 8 && ShiftByte(x >> 8) == x >> 16 && ShiftByte(x >> 16) == x >> 24
    ensures ShiftByte(x >> 24) == x >> 32 && ShiftByte(x >> 32) == x >> 40 && ShiftByte(x >> 40) == x >> 48
    ensures ShiftByte(x >> 48) == x >> 56
  {
  }

  // ---- the movemask of sixteen bytes

  /** Two bytes as one lane of a register. */
  function Lane(lo: bv8, hi: bv8): bv16 {
    (lo as bv16) | ((hi as bv16) << 8)
  }

  /** The top bits of the eight bytes of four lanes, one bit for each byte. */
  function MaskByte(a: bv16, b: bv16, c: bv16, d: bv16): bv8 {
    (((a >> 7) & 1) as bv8) | ((((a >> 15) & 1) as bv8) << 1) |
    ((((b >> 7) & 1) as bv8) << 2) | ((((b >> 15) & 1) as bv8) << 3) |
    ((((c >> 7) & 1) as bv8) << 4) | ((((c >> 15) & 1) as bv8) << 5) |
    ((((d >> 7) & 1) as bv8) << 6) | ((((d >> 15) & 1) as bv8) << 7)
  }

  /** Eight bytes, shifted left `k` times lane by lane, as `_mm_slli_epi16` does. */
  function Shifted(v: bv16, k: nat): bv16 {
    if k == 0 then v else if k == 1 then v << 1 else if k == 2 then v << 2 else if k == 3 then v << 3
    else if k == 4 then v << 4 else if k == 5 then v << 5 else if k == 6 then v << 6 else v << 7
  }

  /** One lane of `_mm_slli_epi16` by one. */
  function ShiftLane(v: bv16): bv16 {
    v << 1
  }

  /** One more shift by one. */
  lemma {:induction false} ShiftedNext(v: bv16, k: nat)
    requires k < 7
    ensures ShiftLane(Shifted(v, k)) == Shifted(v, k + 1)
  {
    LaneTwice(v);
    hide ShiftLane;
    assert k == 0 || k == 1 || k == 2 || k == 3 || k == 4 || k == 5 || k == 6;
  }

  lemma LaneTwice(v: bv16)
    ensures ShiftLane(v) == v << 1 && ShiftLane(v << 1) == v << 2 && ShiftLane(v << 2) == v << 3
            && ShiftLane(v << 3) == v << 4
    ensures ShiftLane(v << 4) == v << 5 && ShiftLane(v << 5) == v << 6 && ShiftLane(v << 6) == v << 7
  {
  }

  /** The top bit of the lower byte of a lane, and of the upper one. */
  function LowTop(v: bv16): bool { (v >> 7) & 1 == 1 }

  function HighTop(v: bv16): bool { (v >> 15) & 1 == 1 }

  /** The bits that a shift carries from one byte of a lane into the other do not reach its top bit. */
  lemma LaneTop(lo: bv8, hi: bv8, k: nat)
    requires k < 8
    ensures LowTop(Shifted(Lane(lo, hi), k)) == Bit(lo, 7 - k)
    ensures HighTop(Shifted(Lane(lo, hi), k)) == Bit(hi, 7 - k)
  {
  }

  lemma MaskBits(a: bv16, b: bv16, c: bv16, d: bv16)
    ensures var m := MaskByte(a, b, c, d);
            && Bit(m, 0) == LowTop(a) && Bit(m, 1) == HighTop(a) && Bit(m, 2) == LowTop(b) && Bit(m, 3) == HighTop(b)
            && Bit(m, 4) == LowTop(c) && Bit(m, 5) == HighTop(c) && Bit(m, 6) == LowTop(d) && Bit(m, 7) == HighTop(d)
  {
  }
}
