/**
 The byte transposes with SSE2 instructions (blosc/bitshuffle-sse2.c): networks of unpack
 instructions on registers of sixteen bytes, and the transpose of longer elements in three steps.
 */
module SseTranspose {
  import opened Arith
  import opened Transpose

  /** A register: sixteen bytes. */
  type Register = r: seq<bv8> | |r| == 16 witness seq(16, _ => 0)

  // ---- the unpack instructions: interleave the low or the high halves of two registers

  /** `_mm_unpacklo_epi8` (`high == 0`) and `_mm_unpackhi_epi8` (`high == 1`). */
  function Unpack8(a: Register, b: Register, high: nat): (r: Register)
    requires high < 2
    ensures forall i :: 0 <= i < 16 ==> r[i] == (if i % 2 == 0 then a else b)[8 * high + i / 2]
  {
    seq(16, i requires 0 <= i < 16 => (if i % 2 == 0 then a else b)[8 * high + i / 2])
  }

  function Unpack32(a: Register, b: Register, high: nat): (r: Register)
    requires high < 2
    ensures forall i :: 0 <= i < 16 ==> r[i] == (if i / 4 % 2 == 0 then a else b)[8 * high + 4 * (i / 8) + i % 4]
  {
    seq(16, i requires 0 <= i < 16 => (if i / 4 % 2 == 0 then a else b)[8 * high + 4 * (i / 8) + i % 4])
  }

  function Unpack64(a: Register, b: Register, high: nat): (r: Register)
    requires high < 2
    ensures forall i :: 0 <= i < 16 ==> r[i] == (if i / 8 == 0 then a else b)[8 * high + i % 8]
  {
    seq(16, i requires 0 <= i < 16 => (if i / 8 == 0 then a else b)[8 * high + i % 8])
  }

  // ---- the networks, stage by stage

  function Pairs2(r: seq<Register>): (t: seq<Register>)
    requires |r| == 2
    ensures |t| == 2
  {
    [Unpack8(r[0], r[1], 0), Unpack8(r[0], r[1], 1)]
  }

  function Pairs4(r: seq<Register>): (t: seq<Register>)
    requires |r| == 4
    ensures |t| == 4
  {
    [Unpack8(r[0], r[1], 0), Unpack8(r[0], r[1], 1), Unpack8(r[2], r[3], 0), Unpack8(r[2], r[3], 1)]
  }

  function Halves4(r: seq<Register>): (t: seq<Register>)
    requires |r| == 4
    ensures |t| == 4
  {
    [Unpack64(r[0], r[2], 0), Unpack64(r[0], r[2], 1), Unpack64(r[1], r[3], 0), Unpack64(r[1], r[3], 1)]
  }

  function Pairs8(r: seq<Register>): (t: seq<Register>)
    requires |r| == 8
    ensures |t| == 8
  {
    [Unpack8(r[0], r[1], 0), Unpack8(r[0], r[1], 1), Unpack8(r[2], r[3], 0), Unpack8(r[2], r[3], 1),
     Unpack8(r[4], r[5], 0), Unpack8(r[4], r[5], 1), Unpack8(r[6], r[7], 0), Unpack8(r[6], r[7], 1)]
  }

  function Words8(r: seq<Register>): (t: seq<Register>)
    requires |r| == 8
    ensures |t| == 8
  {
    [Unpack32(r[0], r[2], 0), Unpack32(r[0], r[2], 1), Unpack32(r[1], r[3], 0), Unpack32(r[1], r[3], 1),
     Unpack32(r[4], r[6], 0), Unpack32(r[4], r[6], 1), Unpack32(r[5], r[7], 0), Unpack32(r[5], r[7], 1)]
  }

  function Halves8(r: seq<Register>): (t: seq<Register>)
    requires |r| == 8
    ensures |t| == 8
  {
    [Unpack64(r[0], r[4], 0), Unpack64(r[0], r[4], 1), Unpack64(r[1], r[5], 0), Unpack64(r[1], r[5], 1),
     Unpack64(r[2], r[6], 0), Unpack64(r[2], r[6], 1), Unpack64(r[3], r[7], 0), Unpack64(r[3], r[7], 1)]
  }

  // ---- where the stages take a lane from

  /** A register and a lane in it. */
  datatype Lane = Lane(k: nat, i: nat)

  function At(r: seq<Register>, x: Lane): bv8 {
    if x.k < |r| && x.i < 16 then r[x.k][x.i] else 0
  }

  function FromPairs(x: Lane): Lane { Lane(2 * (x.k / 2) + x.i % 2, 8 * (x.k % 2) + x.i / 2) }

  function FromWords(x: Lane): Lane { Lane(4 * (x.k / 4) + x.k / 2 % 2 + 2 * (x.i / 4 % 2),
    8 * (x.k % 2) + 4 * (x.i / 8) + x.i % 4) }

  function FromHalves(x: Lane, w: nat): Lane
    requires w == 4 || w == 8
  {
    Lane(x.k / 2 + (if w == 4 then 2 else 4) * (x.i / 8), 8 * (x.k % 2) + x.i % 8)
  }

  predicate In(x: Lane, w: nat) {
    x.k < w && x.i < 16
  }

  lemma {:induction false} Pairs2At(r: seq<Register>, x: Lane)
    requires |r| == 2 && In(x, 2)
    ensures In(FromPairs(x), 2) && At(Pairs2(r), x) == At(r, FromPairs(x))
  {
  }

  lemma {:induction false} Pairs4Lane(r: seq<Register>, k: nat, i: nat)
    requires |r| == 4 && k < 4 && i < 16
    ensures 2 * (k / 2) + i % 2 < 4 && 8 * (k % 2) + i / 2 < 16
            && Pairs4(r)[k][i] == r[2 * (k / 2) + i % 2][8 * (k % 2) + i / 2]
  {
  }

  lemma {:induction false} Pairs4At(r: seq<Register>, x: Lane)
    requires |r| == 4 && In(x, 4)
    ensures In(FromPairs(x), 4) && At(Pairs4(r), x) == At(r, FromPairs(x))
  {
    hide Pairs4;
    Pairs4Lane(r, x.k, x.i);
  }

  lemma {:induction false} Halves4Lane(r: seq<Register>, k: nat, i: nat)
    requires |r| == 4 && k < 4 && i < 16
    ensures k / 2 + 2 * (i / 8) < 4 && 8 * (k % 2) + i % 8 < 16
            && Halves4(r)[k][i] == r[k / 2 + 2 * (i / 8)][8 * (k % 2) + i % 8]
  {
  }

  lemma {:induction false} Halves4At(r: seq<Register>, x: Lane)
    requires |r| == 4 && In(x, 4)
    ensures In(FromHalves(x, 4), 4) && At(Halves4(r), x) == At(r, FromHalves(x, 4))
  {
    hide Halves4;
    Halves4Lane(r, x.k, x.i);
  }

  lemma {:induction false} Pairs8Lane(r: seq<Register>, k: nat, i: nat)
    requires |r| == 8 && k < 8 && i < 16
    ensures 2 * (k / 2) + i % 2 < 8 && 8 * (k % 2) + i / 2 < 16
            && Pairs8(r)[k][i] == r[2 * (k / 2) + i % 2][8 * (k % 2) + i / 2]
  {
  }

  lemma {:induction false} Pairs8At(r: seq<Register>, x: Lane)
    requires |r| == 8 && In(x, 8)
    ensures In(FromPairs(x), 8) && At(Pairs8(r), x) == At(r, FromPairs(x))
  {
    hide Pairs8;
    Pairs8Lane(r, x.k, x.i);
  }

  lemma {:induction false} Words8Lane(r: seq<Register>, k: nat, i: nat)
    requires |r| == 8 && k < 8 && i < 16
    ensures 4 * (k / 4) + k / 2 % 2 + 2 * (i / 4 % 2) < 8 && 8 * (k % 2) + 4 * (i / 8) + i % 4 < 16
            && Words8(r)[k][i] == r[4 * (k / 4) + k / 2 % 2 + 2 * (i / 4 % 2)][8 * (k % 2) + 4 * (i / 8) + i % 4]
  {
  }

  lemma {:induction false} Words8At(r: seq<Register>, x: Lane)
    requires |r| == 8 && In(x, 8)
    ensures In(FromWords(x), 8) && At(Words8(r), x) == At(r, FromWords(x))
  {
    hide Words8, FromWords;
    Words8Lane(r, x.k, x.i);
    FromWordsIs(x);
  }

  lemma FromWordsIs(x: Lane)
    ensures FromWords(x).k == 4 * (x.k / 4) + x.k / 2 % 2 + 2 * (x.i / 4 % 2)
    ensures FromWords(x).i == 8 * (x.k % 2) + 4 * (x.i / 8) + x.i % 4
  {
  }

  lemma {:induction false} Halves8Lane(r: seq<Register>, k: nat, i: nat)
    requires |r| == 8 && k < 8 && i < 16
    ensures k / 2 + 4 * (i / 8) < 8 && 8 * (k % 2) + i % 8 < 16
            && Halves8(r)[k][i] == r[k / 2 + 4 * (i / 8)][8 * (k % 2) + i % 8]
  {
  }

  lemma {:induction false} Halves8At(r: seq<Register>, x: Lane)
    requires |r| == 8 && In(x, 8)
    ensures In(FromHalves(x, 8), 8) && At(Halves8(r), x) == At(r, FromHalves(x, 8))
  {
    hide Halves8;
    Halves8Lane(r, x.k, x.i);
  }

  /** The whole network for elements of `w` bytes. */
  function Network(r: seq<Register>, w: nat): (t: seq<Register>)
    requires |r| == w && (w == 2 || w == 4 || w == 8)
    ensures |t| == w
  {
    if w == 2 then Pairs2(Pairs2(Pairs2(Pairs2(r))))
    else if w == 4 then Halves4(Pairs4(Pairs4(Pairs4(r))))
    else Halves8(Words8(Pairs8(Pairs8(r))))
  }

  // ---- the route of a lane, bit by bit of its number

  predicate IsBit(x: nat) { x < 2 }

  function Bits(k2: nat, k1: nat, k0: nat, i3: nat, i2: nat, i1: nat, i0: nat): Lane {
    Lane(4 * k2 + 2 * k1 + k0, 8 * i3 + 4 * i2 + 2 * i1 + i0)
  }

  lemma PairsBits(k2: nat, k1: nat, k0: nat, i3: nat, i2: nat, i1: nat, i0: nat)
    requires IsBit(k0) && IsBit(i0)
    ensures FromPairs(Bits(k2, k1, k0, i3, i2, i1, i0)) == Bits(k2, k1, i0, k0, i3, i2, i1)
  {
    DivIsUnique(4 * k2 + 2 * k1 + k0, 2, 2 * k2 + k1, k0);
    DivIsUnique(8 * i3 + 4 * i2 + 2 * i1 + i0, 2, 4 * i3 + 2 * i2 + i1, i0);
  }

  lemma WordsBits(k2: nat, k1: nat, k0: nat, i3: nat, i2: nat, i1: nat, i0: nat)
    requires IsBit(k1) && IsBit(k0) && IsBit(i2) && IsBit(i1) && IsBit(i0)
    ensures FromWords(Bits(k2, k1, k0, i3, i2, i1, i0)) == Bits(k2, i2, k1, k0, i3, i1, i0)
  {
    hide FromWords;
    FromWordsIs(Bits(k2, k1, k0, i3, i2, i1, i0));
    KParts(k2, k1, k0);
    IParts(i3, i2, i1, i0);
  }

  lemma KParts(k2: nat, k1: nat, k0: nat)
    requires IsBit(k1) && IsBit(k0)
    ensures var k := 4 * k2 + 2 * k1 + k0; k / 2 == 2 * k2 + k1 && k / 4 == k2 && k / 2 % 2 == k1 && k % 2 == k0
  {
  }

  lemma IParts(i3: nat, i2: nat, i1: nat, i0: nat)
    requires IsBit(i2) && IsBit(i1) && IsBit(i0)
    ensures var i := 8 * i3 + 4 * i2 + 2 * i1 + i0;
            i / 8 == i3 && i / 4 % 2 == i2 && i % 4 == 2 * i1 + i0 && i % 8 == 4 * i2 + 2 * i1 + i0
  {
  }

  lemma HalvesBits(k2: nat, k1: nat, k0: nat, i3: nat, i2: nat, i1: nat, i0: nat)
    requires IsBit(k1) && IsBit(k0) && IsBit(i2) && IsBit(i1) && IsBit(i0)
    ensures FromHalves(Bits(k2, k1, k0, i3, i2, i1, i0), 8) == Bits(i3, k2, k1, k0, i2, i1, i0)
    ensures k2 == 0 ==> FromHalves(Bits(0, k1, k0, i3, i2, i1, i0), 4) == Bits(0, i3, k1, k0, i2, i1, i0)
  {
    KParts(k2, k1, k0);
    IParts(i3, i2, i1, i0);
  }

  lemma ToBits(e: nat) returns (e3: nat, e2: nat, e1: nat, e0: nat)
    requires e < 16
    ensures IsBit(e3) && IsBit(e2) && IsBit(e1) && IsBit(e0) && e == 8 * e3 + 4 * e2 + 2 * e1 + e0
  {
    e3, e2, e1, e0 := e / 8, e / 4 % 2, e / 2 % 2, e % 2;
  }

  lemma RouteBits2(y: nat, e3: nat, e2: nat, e1: nat, e0: nat)
    requires IsBit(y) && IsBit(e3) && IsBit(e2) && IsBit(e1) && IsBit(e0)
    ensures FromPairs(FromPairs(FromPairs(FromPairs(Bits(0, 0, y, e3, e2, e1, e0))))) == Bits(0, 0, e3, e2, e1, e0, y)
  {
    hide *;
    PairsBits(0, 0, y, e3, e2, e1, e0);
    PairsBits(0, 0, e0, y, e3, e2, e1);
    PairsBits(0, 0, e1, e0, y, e3, e2);
    PairsBits(0, 0, e2, e1, e0, y, e3);
  }

  lemma RouteBits4(y1: nat, y0: nat, e3: nat, e2: nat, e1: nat, e0: nat)
    requires IsBit(y1) && IsBit(y0) && IsBit(e3) && IsBit(e2) && IsBit(e1) && IsBit(e0)
    ensures FromPairs(FromPairs(FromPairs(FromHalves(Bits(0, y1, y0, e3, e2, e1, e0), 4))))
            == Bits(0, e3, e2, e1, e0, y1, y0)
  {
    hide *;
    HalvesBits(0, y1, y0, e3, e2, e1, e0);
    PairsBits(0, e3, y1, y0, e2, e1, e0);
    PairsBits(0, e3, e0, y1, y0, e2, e1);
    PairsBits(0, e3, e1, e0, y1, y0, e2);
  }

  lemma RouteBits8(y2: nat, y1: nat, y0: nat, e3: nat, e2: nat, e1: nat, e0: nat)
    requires IsBit(y2) && IsBit(y1) && IsBit(y0) && IsBit(e3) && IsBit(e2) && IsBit(e1) && IsBit(e0)
    ensures FromPairs(FromPairs(FromWords(FromHalves(Bits(y2, y1, y0, e3, e2, e1, e0), 8))))
            == Bits(e3, e2, e1, e0, y2, y1, y0)
  {
    hide *;
    HalvesBits(y2, y1, y0, e3, e2, e1, e0);
    WordsBits(e3, y2, y1, y0, e2, e1, e0);
    PairsBits(e3, e2, y2, y1, y0, e1, e0);
    PairsBits(e3, e2, e0, y2, y1, y0, e1);
  }

  /** Byte `y` of element `e` is byte `(w * e + y) % 16` of register `(w * e + y) / 16` at first. */
  lemma WhichBits(x: nat, k2: nat, k1: nat, k0: nat, i3: nat, i2: nat, i1: nat, i0: nat)
    requires IsBit(i3) && IsBit(i2) && IsBit(i1) && IsBit(i0)
    requires x == 64 * k2 + 32 * k1 + 16 * k0 + 8 * i3 + 4 * i2 + 2 * i1 + i0
    ensures Bits(k2, k1, k0, i3, i2, i1, i0) == Lane(x / 16, x % 16)
  {
  }

  lemma Route2(y: nat, e: nat)
    requires y < 2 && e < 16
    ensures FromPairs(FromPairs(FromPairs(FromPairs(Lane(y, e))))) == Lane((2 * e + y) / 16, (2 * e + y) % 16)
  {
    hide FromPairs;
    var e3, e2, e1, e0 := ToBits(e);
    RouteBits2(y, e3, e2, e1, e0);
    WhichBits(2 * e + y, 0, 0, e3, e2, e1, e0, y);
  }

  lemma Route4(y: nat, e: nat)
    requires y < 4 && e < 16
    ensures FromPairs(FromPairs(FromPairs(FromHalves(Lane(y, e), 4)))) == Lane((4 * e + y) / 16, (4 * e + y) % 16)
  {
    hide FromPairs, FromHalves, FromWords;
    var e3, e2, e1, e0 := ToBits(e);
    var y3, y2, y1, y0 := ToBits(y);
    RouteBits4(y1, y0, e3, e2, e1, e0);
    WhichBits(4 * e + y, 0, e3, e2, e1, e0, y1, y0);
  }

  lemma Route8(y: nat, e: nat)
    requires y < 8 && e < 16
    ensures FromPairs(FromPairs(FromWords(FromHalves(Lane(y, e), 8)))) == Lane((8 * e + y) / 16, (8 * e + y) % 16)
  {
    hide FromPairs, FromHalves, FromWords;
    var e3, e2, e1, e0 := ToBits(e);
    var y3, y2, y1, y0 := ToBits(y);
    RouteBits8(y2, y1, y0, e3, e2, e1, e0);
    WhichBits(8 * e + y, e3, e2, e1, e0, y2, y1, y0);
  }

  lemma Network2(r: seq<Register>, x: Lane)
    requires |r| == 2 && In(x, 2)
    ensures At(Network(r, 2), x) == At(r, FromPairs(FromPairs(FromPairs(FromPairs(x)))))
  {
    hide Pairs2, At, In, FromPairs;
    Pairs2At(Pairs2(Pairs2(Pairs2(r))), x);
    Pairs2At(Pairs2(Pairs2(r)), FromPairs(x));
    Pairs2At(Pairs2(r), FromPairs(FromPairs(x)));
    Pairs2At(r, FromPairs(FromPairs(FromPairs(x))));
  }

  lemma Network4(r: seq<Register>, x: Lane)
    requires |r| == 4 && In(x, 4)
    ensures At(Network(r, 4), x) == At(r, FromPairs(FromPairs(FromPairs(FromHalves(x, 4)))))
  {
    hide Pairs4, Halves4, At, In, FromPairs, FromHalves;
    Halves4At(Pairs4(Pairs4(Pairs4(r))), x);
    Pairs4At(Pairs4(Pairs4(r)), FromHalves(x, 4));
    Pairs4At(Pairs4(r), FromPairs(FromHalves(x, 4)));
    Pairs4At(r, FromPairs(FromPairs(FromHalves(x, 4))));
  }

  lemma Network8(r: seq<Register>, x: Lane)
    requires |r| == 8 && In(x, 8)
    ensures At(Network(r, 8), x) == At(r, FromPairs(FromPairs(FromWords(FromHalves(x, 8)))))
  {
    hide Pairs8, Words8, Halves8, At, In, FromPairs, FromWords, FromHalves;
    Halves8At(Words8(Pairs8(Pairs8(r))), x);
    Words8At(Pairs8(Pairs8(r)), FromHalves(x, 8));
    Pairs8At(Pairs8(r), FromWords(FromHalves(x, 8)));
    Pairs8At(r, FromPairs(FromWords(FromHalves(x, 8))));
  }

  /** After the network, register `y` holds byte `y` of each of the sixteen elements. */
  lemma NetworkAt(r: seq<Register>, w: nat, y: nat, e: nat)
    requires |r| == w && (w == 2 || w == 4 || w == 8) && y < w && e < 16
    ensures At(Network(r, w), Lane(y, e)) == At(r, Lane((Times(e, w) + y) / 16, (Times(e, w) + y) % 16))
  {
    hide *;
    var x := Lane(y, e);
    Inside(y, e, w);
    SmallTimes(e);
    if w == 2 {
      Network2(r, x);
      Route2(y, e);
    } else if w == 4 {
      Network4(r, x);
      Route4(y, e);
    } else {
      Network8(r, x);
      Route8(y, e);
    }
  }

  lemma Inside(y: nat, e: nat, w: nat)
    requires y < w && e < 16
    ensures In(Lane(y, e), w)
  {
  }

  lemma SmallTimes(e: nat)
    ensures Times(e, 2) == 2 * e && Times(e, 4) == 4 * e && Times(e, 8) == 8 * e
  {
  }

  /** `w` registers loaded from position `at` on. */
  function Loaded(s: seq<bv8>, at: nat, w: nat): (r: seq<Register>)
    requires at + 16 * w <= |s|
    ensures |r| == w
  {
    seq(w, k requires 0 <= k < w => s[at + 16 * k..at + 16 * k + 16])
  }

  lemma LoadedAt(s: seq<bv8>, at: nat, w: nat, q: nat)
    requires at + 16 * w <= |s| && q < 16 * w
    ensures At(Loaded(s, at, w), Lane(q / 16, q % 16)) == s[at + q]
  {
  }

  /** Byte `y` of element `ii + e` ends in lane `e` of register `y`. */
  lemma Unpacked(s: seq<bv8>, size: nat, w: nat, ii: nat, y: nat, e: nat)
    requires (w == 2 || w == 4 || w == 8) && |s| == Times(Times(size, w), 1) && ii + 16 <= size && y < w && e < 16
    ensures Times(ii, w) + 16 * w <= |s|
    ensures Place(ii + e, y, 0, w, 1) < |s|
            && At(Network(Loaded(s, Times(ii, w), w), w), Lane(y, e)) == s[Place(ii + e, y, 0, w, 1)]
  {
    hide *;
    ElementPlace(size, w, ii, y, e);
    NetworkAt(Loaded(s, Times(ii, w), w), w, y, e);
    LoadedAt(s, Times(ii, w), w, Times(e, w) + y);
  }

  lemma ElementPlace(size: nat, w: nat, ii: nat, y: nat, e: nat)
    requires ii + 16 <= size && y < w && e < 16
    ensures Times(ii, w) + 16 * w <= Times(Times(size, w), 1) && Times(e, w) + y < 16 * w
    ensures Place(ii + e, y, 0, w, 1) == Times(ii, w) + (Times(e, w) + y)
  {
    MulMono(ii + 16, size, w);
    MulDistrib(ii, 16, w);
    MulDistrib(ii, e, w);
    MulLess(e, 16, w, y);
  }

  // ---- whole buffers

  /** The register holds byte `y` of element `i`, for sixteen elements from `ii` on. */
  ghost predicate Right(r: Register, s: seq<bv8>, w: nat, ii: nat, y: nat, i: nat) {
    ii <= i < ii + 16 && Place(i, y, 0, w, 1) < |s| && r[i - ii] == s[Place(i, y, 0, w, 1)]
  }

  /** Store register `y` of a group of sixteen elements. */
  method StoreRegister(s: seq<bv8>, out: array<bv8>, size: nat, w: nat, ii: nat, y: nat, r: Register)
    requires |s| == out.Length == Times(Times(size, w), 1) && ii + 16 <= size && y < w
    requires forall i: nat :: ii <= i < ii + 16 ==> Right(r, s, w, ii, y, i)
    modifies out
    ensures Better(s, out[..], old(out[..]), size, w, 1)
    ensures forall i: nat :: ii <= i < ii + 16 ==> Done(s, out[..], size, w, 1, i, y)
  {
    hide *;
    var at := Times(y, size) + ii;
    RowFits(size, w, ii, y);
    ghost var was := out[..];
    forall e | 0 <= e < 16 {
      out[at + e] := r[e];
    }
    Stored(s, out[..], was, size, w, ii, y, r);
  }

  lemma RowFits(size: nat, w: nat, ii: nat, y: nat)
    requires ii + 16 <= size && y < w
    ensures Times(y, size) + ii + 16 <= Times(Times(size, w), 1)
  {
    MulMono(y + 1, w, size);
    MulDistrib(y, 1, size);
  }

  lemma Stored(s: seq<bv8>, out: seq<bv8>, was: seq<bv8>, size: nat, w: nat, ii: nat, y: nat, r: Register)
    requires |s| == |out| == |was| == Times(Times(size, w), 1) && ii + 16 <= size && y < w
             && Times(y, size) + ii + 16 <= |s|
    requires forall i: nat :: ii <= i < ii + 16 ==> Right(r, s, w, ii, y, i)
    requires var at := Times(y, size) + ii;
             forall p :: 0 <= p < |out| ==> out[p] == if at <= p < at + 16 then r[p - at] else was[p]
    ensures Better(s, out, was, size, w, 1)
    ensures forall i: nat :: ii <= i < ii + 16 ==> Done(s, out, size, w, 1, i, y)
  {
    var at := Times(y, size) + ii;
    hide Times, Place, Transposed, Done;
    forall i: nat | ii <= i < ii + 16
      ensures Done(s, out, size, w, 1, i, y)
    {
      assert Right(r, s, w, ii, y, i);
      RowPlace(y, i, size);
      OneDone(s, out, size, w, i, y);
    }
    forall p | 0 <= p < |out|
      ensures out[p] == was[p] || out[p] == Transposed(s, size, w, 1)[p]
    {
      if at <= p < at + 16 {
        var i := ii + (p - at);
        assert Right(r, s, w, ii, y, i);
          RowPlace(y, i, size);
        TransposedAt(s, size, w, 1, i, y, 0);
      }
    }
  }

  lemma OneDone(s: seq<bv8>, out: seq<bv8>, size: nat, w: nat, i: nat, y: nat)
    requires Place(y, i, 0, size, 1) < |out| && Place(i, y, 0, w, 1) < |s|
             && out[Place(y, i, 0, size, 1)] == s[Place(i, y, 0, w, 1)]
    ensures Done(s, out, size, w, 1, i, y)
  {
  }

  lemma RowPlace(y: nat, i: nat, size: nat)
    ensures Place(y, i, 0, size, 1) == Times(y, size) + i
  {
  }

  /** Sixteen elements: load, unpack, store. */
  method Transpose16(s: seq<bv8>, out: array<bv8>, size: nat, w: nat, ii: nat)
    requires (w == 2 || w == 4 || w == 8) && |s| == out.Length == Times(Times(size, w), 1) && ii + 16 <= size
    modifies out
    ensures Better(s, out[..], old(out[..]), size, w, 1) && DoneIn(s, out[..], size, w, 1, ii, ii + 16, w)
  {
    hide *;
    ElementPlace(size, w, ii, 0, 0);
    var r := Network(Loaded(s, Times(ii, w), w), w);
    ghost var was := out[..];
    BetterSame(s, was, size, w, 1);
    NoColumns(s, out[..], size, w, ii);
    for y := 0 to w
      invariant Better(s, out[..], was, size, w, 1) && DoneIn(s, out[..], size, w, 1, ii, ii + 16, y)
    {
      ghost var before := out[..];
      AllRight(s, size, w, ii, y);
      StoreRegister(s, out, size, w, ii, y, r[y]);
      BetterTwice(s, out[..], before, was, size, w, 1);
      KeepIn(s, out[..], before, size, w, 1, ii, ii + 16, y);
      NextColumn(s, out[..], size, w, ii, y);
    }
  }

  lemma AllRight(s: seq<bv8>, size: nat, w: nat, ii: nat, y: nat)
    requires (w == 2 || w == 4 || w == 8) && |s| == Times(Times(size, w), 1) && ii + 16 <= size && y < w
    requires Times(ii, w) + 16 * w <= |s|
    ensures forall i: nat :: ii <= i < ii + 16 ==> Right(Network(Loaded(s, Times(ii, w), w), w)[y], s, w, ii, y, i)
  {
    hide Network, Loaded, Place, Times;
    forall i: nat | ii <= i < ii + 16
      ensures Right(Network(Loaded(s, Times(ii, w), w), w)[y], s, w, ii, y, i)
    {
      Unpacked(s, size, w, ii, y, i - ii);
    }
  }

  lemma NoColumns(s: seq<bv8>, out: seq<bv8>, size: nat, w: nat, ii: nat)
    ensures DoneIn(s, out, size, w, 1, ii, ii + 16, 0)
  {
  }

  lemma NextColumn(s: seq<bv8>, out: seq<bv8>, size: nat, w: nat, ii: nat, y: nat)
    requires DoneIn(s, out, size, w, 1, ii, ii + 16, y) && forall i: nat ::
             ii <= i < ii + 16 ==> Done(s, out, size, w, 1, i, y)
    ensures DoneIn(s, out, size, w, 1, ii, ii + 16, y + 1)
  {
  }

  /** Sixteen more elements, after those before `ii`. */
  method NextSixteen(s: seq<bv8>, out: array<bv8>, size: nat, w: nat, ii: nat, ghost was: seq<bv8>)
    requires (w == 2 || w == 4 || w == 8) && |s| == out.Length == Times(Times(size, w), 1) && ii + 16 <= size
    requires Better(s, out[..], was, size, w, 1) && DoneIn(s, out[..], size, w, 1, 0, ii, w)
    modifies out
    ensures Better(s, out[..], was, size, w, 1) && DoneIn(s, out[..], size, w, 1, 0, ii + 16, w)
  {
    hide *;
    ghost var before := out[..];
    Transpose16(s, out, size, w, ii);
    BetterTwice(s, out[..], before, was, size, w, 1);
    KeepIn(s, out[..], before, size, w, 1, 0, ii, w);
    JoinIn(s, out[..], size, w, 1, 0, ii, ii + 16, w);
  }

  lemma Sixteens(ii: nat, size: nat)
    requires ii % 16 == 0 && ii <= size < ii + 16
    ensures ii == size - size % 16 && ii % 8 == 0
  {
  }

  /** `bshuf_trans_byte_elem_SSE_16`, `_32` and `_64`. */
  method TransByteElemSseN(s: seq<bv8>, out: array<bv8>, size: nat, w: nat)
    requires (w == 2 || w == 4 || w == 8) && |s| == out.Length == Times(Times(size, w), 1)
    modifies out
    ensures out[..] == Transposed(s, size, w, 1)
  {
    hide *;
    ghost var was := out[..];
    BetterSame(s, was, size, w, 1);
    NoneIn(s, out[..], size, w, 1, 0, 0, w);
    var ii := 0;
    while ii + 15 < size
      invariant 0 <= ii <= size && ii % 16 == 0
      invariant Better(s, out[..], was, size, w, 1) && DoneIn(s, out[..], size, w, 1, 0, ii, w)
    {
      NextSixteen(s, out, size, w, ii, was);
      ii := ii + 16;
    }
    ghost var mid := out[..];
    Sixteens(ii, size);
    TransByteElemRemainder(s, out, size, w, size - size % 16);
    KeepIn(s, out[..], mid, size, w, 1, 0, ii, w);
    JoinIn(s, out[..], size, w, 1, 0, ii, size, w);
    DoneInAll(s, out[..], size, w, 1);
  }

  // ---- longer elements

  lemma SplitSizes(size: nat, n: nat, w: nat)
    ensures Times(Times(size, n), w) == Times(Times(Times(size, n), w), 1) == Times(Times(w, n), size)
            == Times(Times(size, Times(n, w)), 1)
  {
  }

  /** Words first, then the bytes of all words, then the rows: together the byte transpose. */
  lemma Hierarchical(s: seq<bv8>, size: nat, n: nat, w: nat)
    requires |s| == Times(Times(size, n), w) && w > 0
    ensures |s| == Times(Times(Times(size, n), w), 1) == Times(Times(w, n), size) == Times(Times(size, Times(n, w)), 1)
    ensures Transposed(Transposed(Transposed(s, size, n, w), Times(size, n), w, 1), w, n, size)
            == Transposed(s, size, Times(n, w), 1)
  {
    hide *;
    SplitSizes(size, n, w);
    var one := Transposed(s, size, n, w);
    var two := Transposed(one, Times(size, n), w, 1);
    var three := Transposed(two, w, n, size);
    forall i: nat, j: nat, t: nat | i < size && j < Times(n, w) && t < 1
      ensures Moved(s, three, size, Times(n, w), 1, i, j, t)
    {
      WordOfByte(j, n, w);
      HierarchicalAt(s, size, n, w, i, j / w, j % w);
      FromHierarchical(s, three, size, n, w, i, j, t);
    }
    TransposedIs(s, size, Times(n, w), 1, three);
  }

  lemma WordOfByte(j: nat, n: nat, w: nat)
    requires j < Times(n, w) && w > 0
    ensures j / w < n && j % w < w && Times(j / w, w) + j % w == j
  {
  }

  lemma FromHierarchical(s: seq<bv8>, three: seq<bv8>, size: nat, n: nat, w: nat, i: nat, j: nat, t: nat)
    requires t < 1 && w > 0 && j < Times(n, w) && Times(j / w, w) + j % w == j
    requires Times(Times(j / w, w) + j % w, size) + i < |three|
             && Times(i, Times(n, w)) + (Times(j / w, w) + j % w) < |s|
    requires three[Times(Times(j / w, w) + j % w, size) + i] == s[Times(i, Times(n, w)) + (Times(j / w, w) + j % w)]
    ensures Moved(s, three, size, Times(n, w), 1, i, j, t)
  {
  }

  /** Byte `k` of word `c` of element `i`. */
  lemma HierarchicalAt(s: seq<bv8>, size: nat, n: nat, w: nat, i: nat, c: nat, k: nat)
    requires |s| == Times(Times(size, n), w) == Times(Times(Times(size, n), w), 1) == Times(Times(w, n), size)
    requires i < size && c < n && k < w
    ensures Times(Times(c, w) + k, size) + i < |s| && Times(i, Times(n, w)) + (Times(c, w) + k) < |s|
    ensures var one := Transposed(s, size, n, w);
            var two := Transposed(one, Times(size, n), w, 1);
            Transposed(two, w, n, size)[Times(Times(c, w) + k, size) + i]
              == s[Times(i, Times(n, w)) + (Times(c, w) + k)]
  {
    hide *;
    var one := Transposed(s, size, n, w);
    var two := Transposed(one, Times(size, n), w, 1);
    TransposedAt(two, w, n, size, k, c, i);
    WordIndex(size, n, i, c);
    TransposedAt(one, Times(size, n), w, 1, Times(c, size) + i, k, 0);
    TransposedAt(s, size, n, w, i, c, k);
    PlacesAgree(size, n, w, i, c, k);
  }

  lemma WordIndex(size: nat, n: nat, i: nat, c: nat)
    requires i < size && c < n
    ensures Times(c, size) + i < Times(size, n)
  {
    MulLess(c, n, size, i);
  }

  lemma PlacesAgree(size: nat, n: nat, w: nat, i: nat, c: nat, k: nat)
    ensures Place(c, k, i, w, size) == Times(Times(c, w) + k, size) + i
    ensures Place(k, c, i, n, size) == Place(k, Times(c, size) + i, 0, Times(size, n), 1)
    ensures Place(Times(c, size) + i, k, 0, w, 1) == Place(c, i, k, size, w)
    ensures Place(i, c, k, n, w) == Times(i, Times(n, w)) + (Times(c, w) + k)
  {
    MulDistrib(Times(k, n), c, size);
    assert (k * n) * size == k * (size * n);
    MulDistrib(Times(i, n), c, w);
    assert (i * n) * w == i * (n * w);
  }

  /** `bshuf_trans_byte_elem_SSE`. */
  method TransByteElemSse(s: seq<bv8>, out: array<bv8>, size: nat, elem: nat)
    requires |s| == out.Length == Times(Times(size, elem), 1)
    modifies out
    ensures out[..] == Transposed(s, size, elem, 1)
  {
    hide *;
    if elem == 1 {
      forall p | 0 <= p < |s| {
        out[p] := s[p];
      }
      CopyIsTranspose(s, size);
    } else if elem == 2 || elem == 4 || elem == 8 {
      TransByteElemSseN(s, out, size, elem);
    } else if elem % 4 != 0 {
      TransByteElem(s, out, size, elem);
    } else if elem % 8 == 0 {
      TransLong(s, out, size, elem / 8, 8, elem);
    } else {
      TransLong(s, out, size, elem / 4, 4, elem);
    }
  }

  lemma CopyIsTranspose(s: seq<bv8>, size: nat)
    requires |s| == Times(Times(size, 1), 1)
    ensures Transposed(s, size, 1, 1) == s
  {
    hide Transposed;
    forall r: nat, c: nat, t: nat | r < size && c < 1 && t < 1
      ensures Moved(s, s, size, 1, 1, r, c, t)
    {
    }
    TransposedIs(s, size, 1, 1, s);
  }

  /** Elements of `n` words of `w` bytes. */
  method TransLong(s: seq<bv8>, out: array<bv8>, size: nat, n: nat, w: nat, ghost elem: nat)
    requires (w == 4 || w == 8) && elem == n * w && |s| == out.Length == Times(Times(size, elem), 1)
    modifies out
    ensures out[..] == Transposed(s, size, elem, 1)
  {
    assert elem == Times(n, w);
    hide *;
    SplitSizes(size, n, w);
    Hierarchical(s, size, n, w);
    var tmp := new bv8[out.Length];
    TransElemType(s, out, size, n, w);
    TransByteElemSseN(out[..], tmp, Times(size, n), w);
    TransElem(tmp[..], out, w, n, size);
  }
}
