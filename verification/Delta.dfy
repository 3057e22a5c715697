/**
 The delta filter (blosc/delta.c): XOR with the previous element in the first block of a chunk, XOR
 with the first block in the others.  Decoding works in place: the reference is the destination
 itself.
 */
module Delta {
  import opened Arith
  import opened ChunkStream

  function Xor(a: bv8, b: bv8): bv8 { a ^ b }

  lemma XorTwice(a: bv8, b: bv8)
    ensures Xor(Xor(a, b), b) == a
  {
  }

  /** The width of the elements that are combined: the type size, or 8 or 1 for unusual ones. */
  function Width(typesize: nat): (w: nat)
    requires typesize > 0
    ensures w == 1 || w == 2 || w == 4 || w == 8
  {
    if typesize == 1 || typesize == 2 || typesize == 4 || typesize == 8 then typesize
    else if typesize % 8 == 0 then 8 else 1
  }

  /** The bytes that are in whole elements. */
  function Whole(nbytes: nat, w: nat): (n: nat)
    requires w > 0
    ensures n <= nbytes && (nbytes % w == 0 ==> n == nbytes)
  {
    Times(nbytes / w, w)
  }

  // ---- what the filter means

  /** Byte `p` of the encoded block. */
  function Coded(dref: seq<bv8>, first: bool, src: seq<bv8>, w: nat, p: nat): bv8
    requires p < |src| && p < |dref|
  {
    if !first then Xor(src[p], dref[p])
    else if p < w then dref[p] else Xor(src[p], dref[p - w])
  }

  /** `t[at..]` holds the first `n` bytes of the encoded block. */
  ghost predicate Encoded(t: seq<bv8>, at: nat, n: nat, dref: seq<bv8>, first: bool, src: seq<bv8>, w: nat) {
    && at + n <= |t| && n <= |src| && n <= |dref|
    && forall p :: 0 <= p < n ==> t[at + p] == Coded(dref, first, src, w, p)
  }

  /** `t[at..]` is `was[at..]`, decoded in its first `n` bytes. */
  ghost predicate Decoded(t: seq<bv8>, was: seq<bv8>, ref: nat, first: bool, at: nat, n: nat, w: nat) {
    && |t| == |was| && at + n <= |t| && (!first ==> ref + n <= |t|)
    && forall q: nat :: at <= q < at + n ==> DecodedAt(t, was, ref, first, at, w, q)
  }

  ghost predicate DecodedAt(t: seq<bv8>, was: seq<bv8>, ref: nat, first: bool, at: nat, w: nat, q: nat) {
    && at <= q < |t| && |t| == |was| && (!first ==> ref + (q - at) < |t|)
    && t[q] == if !first then Xor(was[q], t[ref + (q - at)]) else if q < at + w then was[q] else Xor(was[q], t[q - w])
  }

  ghost predicate SameElse(t: seq<bv8>, was: seq<bv8>, lo: nat, hi: nat) {
    |t| == |was| && forall i :: 0 <= i < |t| && (i < lo || hi <= i) ==> t[i] == was[i]
  }

  // ---- the encoder

  /** One element of the encoder. */
  method CodeElement(dref: seq<bv8>, first: bool, src: seq<bv8>, w: nat, i: nat, dest: array<bv8>, at: nat)
    requires Times(i, w) + w <= |src| && Times(i, w) + w <= |dref| && at + Times(i, w) + w <= dest.Length
    modifies dest
    ensures forall q :: 0 <= q < dest.Length ==>
      dest[q] == if at + Times(i, w) <= q < at + Times(i, w) + w then Coded(dref, first, src, w, q - at)
        else old(dest[q])
  {
    var lo := at + Times(i, w);
    forall q | lo <= q < lo + w {
      dest[q] := Coded(dref, first, src, w, q - at);
    }
  }

  lemma WholeFits(nbytes: nat, w: nat, i: nat)
    requires w > 0 && i < nbytes / w
    ensures Times(i, w) + w == Times(i + 1, w) <= Whole(nbytes, w)
  {
  }

  /** The loop of the encoder over elements of width `w`. */
  method CodeElements(dref: seq<bv8>, first: bool, nbytes: nat, w: nat, src: seq<bv8>, dest: array<bv8>, at: nat)
    requires w > 0 && nbytes <= |src| && nbytes <= |dref| && at + nbytes <= dest.Length
    modifies dest
    ensures Encoded(dest[..], at, Whole(nbytes, w), dref, first, src, w)
    ensures SameElse(dest[..], old(dest[..]), at, at + Whole(nbytes, w))
  {
    assert Times(0, w) == 0;
    for i := 0 to nbytes / w
      invariant Times(i, w) <= Whole(nbytes, w)
      invariant Encoded(dest[..], at, Times(i, w), dref, first, src, w)
      invariant SameElse(dest[..], old(dest[..]), at, at + Whole(nbytes, w))
    {
      WholeFits(nbytes, w, i);
      hide Times, Whole, Coded;
      CodeElement(dref, first, src, w, i, dest, at);
    }
  }

  /**
   `delta_encoder`.  For the first block an element is copied even if the block is shorter, so the
   block must have one.
   */
  method Encoder(dref: seq<bv8>, offset: nat, nbytes: nat, typesize: nat, src: seq<bv8>, dest: array<bv8>, at: nat)
    requires typesize > 0 && nbytes <= |src| && nbytes <= |dref| && at + nbytes <= dest.Length
    requires offset == 0 ==> Width(typesize) <= nbytes
    modifies dest
    ensures Encoded(dest[..], at, Whole(nbytes, Width(typesize)), dref, offset == 0, src, Width(typesize))
    ensures SameElse(dest[..], old(dest[..]), at, at + Whole(nbytes, Width(typesize)))
    decreases if typesize == 1 || typesize == 2 || typesize == 4 || typesize == 8 then 0 else 1
  {
    if typesize == 1 || typesize == 2 || typesize == 4 || typesize == 8 {
      CodeElements(dref, offset == 0, nbytes, typesize, src, dest, at);
    } else if typesize % 8 == 0 {
      Encoder(dref, offset, nbytes, 8, src, dest, at);
    } else {
      Encoder(dref, offset, nbytes, 1, src, dest, at);
    }
  }

  // ---- the decoder

  /** XOR the `w` bytes at `to` with those at `from`, which do not overlap them. */
  method XorElement(dest: array<bv8>, to: nat, from: nat, w: nat)
    requires from + w <= to && to + w <= dest.Length
    modifies dest
    ensures forall q :: 0 <= q < dest.Length ==>
      dest[q] == if to <= q < to + w then Xor(old(dest[q]), old(dest[from + (q - to)])) else old(dest[q])
  {
    forall q | to <= q < to + w {
      dest[q] := Xor(dest[q], dest[from + (q - to)]);
    }
  }

  lemma DecodeStep(t': seq<bv8>, t: seq<bv8>, was: seq<bv8>, ref: nat, first: bool, at: nat, n: nat, w: nat)
    requires Decoded(t, was, ref, first, at, n, w) && SameElse(t, was, at, at + n) && at + n + w <= |t|
    requires if first then n >= w else ref + n + w <= at
    requires |t'| == |t| && forall q {:trigger t'[q]} :: 0 <= q < |t| ==>
      t'[q] == if at + n <= q < at + n + w then Xor(t[q], t[if first then q - w else ref + (q - at)]) else t[q]
    ensures Decoded(t', was, ref, first, at, n + w, w) && SameElse(t', was, at, at + n + w)
  {
    hide Xor;
    forall q: nat | at <= q < at + n + w
      ensures DecodedAt(t', was, ref, first, at, w, q)
    {
      assert t'[q] == if at + n <= q < at + n + w then Xor(t[q], t[if first then q - w else ref + (q - at)]) else t[q];
      if q < at + n {
        assert DecodedAt(t, was, ref, first, at, w, q);
      }
      if !first {
        assert t'[ref + (q - at)] == t[ref + (q - at)];
      } else if q >= at + w {
        assert t'[q - w] == t[q - w];
      }
    }
  }

  /** The loop of the decoder over elements of width `w`. */
  method DecodeElements(dest: array<bv8>, ref: nat, first: bool, at: nat, nbytes: nat, w: nat)
    requires w > 0 && at + nbytes <= dest.Length && (if first then w <= nbytes else ref + nbytes <= at)
    modifies dest
    ensures Decoded(dest[..], old(dest[..]), ref, first, at, Whole(nbytes, w), w)
    ensures SameElse(dest[..], old(dest[..]), at, at + Whole(nbytes, w))
  {
    ghost var was := dest[..];
    var i := if first then 1 else 0;
    assert Times(0, w) == 0 && Times(1, w) == w;
    AtLeastOne(nbytes, w);
    while i < nbytes / w
      invariant (if first then 1 else 0) <= i && Times(i, w) <= Whole(nbytes, w) && (first ==> Times(i, w) >= w)
      invariant i <= nbytes / w
      invariant Decoded(dest[..], was, ref, first, at, Times(i, w), w) && SameElse(dest[..], was, at, at + Times(i, w))
    {
      WholeFits(nbytes, w, i);
      ghost var t := dest[..];
      hide Times, Whole, Decoded, SameElse;
      XorElement(dest, at + Times(i, w), if first then at + Times(i, w) - w else ref + Times(i, w), w);
      DecodeStep(dest[..], t, was, ref, first, at, Times(i, w), w);
      i := i + 1;
    }
  }

  lemma AtLeastOne(nbytes: nat, w: nat)
    requires w > 0
    ensures w <= nbytes ==> 1 <= nbytes / w && w <= Whole(nbytes, w)
  {
  }

  /** `delta_decoder` with the reference at `ref` of the destination itself. */
  method Decoder(dest: array<bv8>, ref: nat, offset: nat, at: nat, nbytes: nat, typesize: nat)
    requires typesize > 0 && at + nbytes <= dest.Length
    requires if offset == 0 then ref == at && Width(typesize) <= nbytes else ref + nbytes <= at
    modifies dest
    ensures Decoded(dest[..], old(dest[..]), ref, offset == 0, at, Whole(nbytes, Width(typesize)), Width(typesize))
    ensures SameElse(dest[..], old(dest[..]), at, at + Whole(nbytes, Width(typesize)))
    decreases if typesize == 1 || typesize == 2 || typesize == 4 || typesize == 8 then 0 else 1
  {
    if typesize == 1 || typesize == 2 || typesize == 4 || typesize == 8 {
      DecodeElements(dest, ref, offset == 0, at, nbytes, typesize);
    } else if typesize % 8 == 0 {
      Decoder(dest, ref, offset, at, nbytes, 8);
    } else {
      Decoder(dest, ref, offset, at, nbytes, 1);
    }
  }

  // ---- one block and back

  /** The first block: decoding in place undoes the encoding. */
  lemma {:induction false} FirstBack(t: seq<bv8>, was: seq<bv8>, at: nat, n: nat, src: seq<bv8>, w: nat, p: nat)
    requires w > 0 && Encoded(was, at, n, src, true, src, w) && Decoded(t, was, at, true, at, n, w) && p < n
    ensures t[at + p] == src[p]
    decreases p
  {
    assert DecodedAt(t, was, at, true, at, w, at + p);
    assert was[at + p] == Coded(src, true, src, w, p);
    if p >= w {
      FirstBack(t, was, at, n, src, w, p - w);
      XorTwice(src[p], src[p - w]);
    }
  }

  /** The other blocks: the reference is the first block, which is decoded already. */
  lemma OtherBack(t: seq<bv8>, was: seq<bv8>, ref: nat, at: nat, n: nat, dref: seq<bv8>, src: seq<bv8>, w: nat, p: nat)
    requires Encoded(was, at, n, dref, false, src, w) && Decoded(t, was, ref, false, at, n, w) && p < n
    requires t[ref + p] == dref[p]
    ensures t[at + p] == src[p]
  {
    assert DecodedAt(t, was, ref, false, at, w, at + p);
    assert was[at + p] == Coded(dref, false, src, w, p);
    XorTwice(src[p], dref[p]);
  }

  /** Where a block lies in a buffer that holds the reference before it; the first block is its own reference. */
  function Start(first: bool, nbytes: nat): nat {
    if first then 0 else nbytes
  }

  /** A block of `nbytes` bytes comes back, whatever the output buffer held before. */
  ghost predicate ComesBack(first: bool, nbytes: nat, w: nat)
    requires w > 0
  {
    forall dref: seq<bv8>, src: seq<bv8>, stale: seq<bv8>, enc: seq<bv8>, dec: seq<bv8> ::
      |src| == |dref| == nbytes && Through(first, dref, src, stale, enc, dec, nbytes, w) ==>
        dec[Start(first, nbytes)..] == src
  }

  /** Encoded into a buffer with stale bytes, then decoded in place. */
  ghost predicate Through(first: bool, dref: seq<bv8>, src: seq<bv8>, stale: seq<bv8>, enc: seq<bv8>, dec: seq<bv8>,
                          nbytes: nat, w: nat)
    requires w > 0
    ensures Through(first, dref, src, stale, enc, dec, nbytes, w) ==> |dec| == Start(first, nbytes) + nbytes
  {
    var at, n := Start(first, nbytes), Whole(nbytes, w);
    && |stale| == at + nbytes && (first ==> dref == src) && (!first ==> stale[..nbytes] == dref)
    && Encoded(enc, at, n, dref, first, src, w) && SameElse(enc, stale, at, at + n)
    && Decoded(dec, enc, 0, first, at, n, w) && SameElse(dec, enc, at, at + n)
  }

  /** A block can be decoded exactly when it holds whole elements: bytes after the last one are not stored. */
  lemma WholeElementsExact(first: bool, nbytes: nat, w: nat)
    requires w > 0
    ensures ComesBack(first, nbytes, w) <==> nbytes % w == 0
  {
    if nbytes % w == 0 {
      forall dref: seq<bv8>, src: seq<bv8>, stale: seq<bv8>, enc: seq<bv8>, dec: seq<bv8>
        | |src| == |dref| == nbytes && Through(first, dref, src, stale, enc, dec, nbytes, w)
        ensures dec[Start(first, nbytes)..] == src
      {
        forall p | 0 <= p < nbytes
          ensures dec[Start(first, nbytes) + p] == src[p]
        {
          ByteThrough(first, dref, src, stale, enc, dec, nbytes, w, p);
        }
      }
    } else {
      LostTail(first, nbytes, w);
    }
  }

  lemma ByteThrough(first: bool, dref: seq<bv8>, src: seq<bv8>, stale: seq<bv8>, enc: seq<bv8>, dec: seq<bv8>,
                    nbytes: nat, w: nat, p: nat)
    requires w > 0 && Through(first, dref, src, stale, enc, dec, nbytes, w) && p < Whole(nbytes, w)
             && |src| == |dref| == nbytes
    ensures dec[Start(first, nbytes) + p] == src[p]
  {
    if first {
      FirstBack(dec, enc, 0, Whole(nbytes, w), src, w, p);
    } else {
      assert stale[..nbytes][p] == dec[p];
      OtherBack(dec, enc, 0, nbytes, Whole(nbytes, w), dref, src, w, p);
    }
  }

  lemma LostTail(first: bool, nbytes: nat, w: nat)
    requires w > 0 && nbytes % w != 0
    ensures !ComesBack(first, nbytes, w)
  {
    var at, n := Start(first, nbytes), Whole(nbytes, w);
    var src, stale := seq(nbytes, _ => 0), seq(at + nbytes, i => if i < at then 0 else 1);
    var enc := seq(at + nbytes, i => if i < at + n then 0 else 1);
    assert n < nbytes;
    hide Whole;
    assert enc[at..][n] == 1 && src[n] == 0;
    ZeroThrough(first, src, stale, enc, nbytes, w, at, n);
  }

  lemma ZeroThrough(first: bool, src: seq<bv8>, stale: seq<bv8>, enc: seq<bv8>, nbytes: nat, w: nat, at: nat, n: nat)
    requires w > 0 && n == Whole(nbytes, w) && at == Start(first, nbytes) && |src| == nbytes
             && |stale| == |enc| == at + nbytes
    requires forall i :: 0 <= i < nbytes ==> src[i] == 0
    requires forall i ::
             0 <= i < |enc| ==> stale[i] == (if i < at then 0 else 1) && enc[i] == (if i < at + n then 0 else 1)
    ensures Through(first, src, src, stale, enc, enc, nbytes, w)
  {
    assert !first ==> stale[..nbytes] == src;
  }

  // ---- a chunk

  /** The bytes of a block that are in whole elements. */
  function WholeSize(p: Plan, b: nat): (n: nat)
    requires p.Valid()
    ensures n <= p.Size(b)
  {
    Whole(p.Size(b), Width(p.typesize))
  }

  /** Byte `q` of the chunk is in a whole element of its block. */
  predicate Kept(p: Plan, q: nat)
    requires p.Valid()
  {
    q % p.blocksize < WholeSize(p, q / p.blocksize)
  }

  /** The first block has an element. */
  ghost predicate HasElement(p: Plan) {
    p.Valid() && Width(p.typesize) <= p.Size(0)
  }

  /** What comes back of a chunk: the bytes in whole elements; elsewhere the output buffer shows through. */
  function Restored(p: Plan, src: seq<bv8>, stale: seq<bv8>): (r: seq<bv8>)
    requires p.Valid() && |src| == |stale| == p.nbytes
    ensures |r| == p.nbytes
  {
    seq(p.nbytes, q requires 0 <= q < p.nbytes => if Kept(p, q) then src[q] else stale[q])
  }

  lemma KeptAt(p: Plan, b: nat, r: nat)
    requires p.Valid() && b < p.Blocks() && r < p.Size(b)
    ensures Kept(p, Times(b, p.blocksize) + r) <==> r < WholeSize(p, b)
  {
    BlockFits(p, b);
    DivIsUnique(Times(b, p.blocksize) + r, p.blocksize, b, r);
  }

  lemma WholeMono(m: nat, n: nat, w: nat)
    requires w > 0 && m <= n
    ensures Whole(m, w) <= Whole(n, w)
  {
    if n / w < m / w {
      MulMono(n / w + 1, m / w, w);
      MulDistrib(n / w, 1, w);
    } else {
      MulMono(m / w, n / w, w);
    }
  }

  /** The first block is as long as any. */
  lemma FirstIsLongest(p: Plan, b: nat)
    requires p.Valid() && b < p.Blocks()
    ensures p.Size(b) <= p.Size(0) && WholeSize(p, b) <= WholeSize(p, 0)
  {
    BlockFits(p, b);
    BlockFits(p, 0);
    WholeMono(p.Size(b), p.Size(0), Width(p.typesize));
  }

  // ---- encoding a chunk

  ghost predicate BlockEncoded(p: Plan, enc: seq<bv8>, src: seq<bv8>, b: nat)
    requires p.Valid()
  {
    var at := Times(b, p.blocksize);
    at + p.Size(b) <= |src| && Encoded(enc, at, WholeSize(p, b), src, b == 0, src[at..at + p.Size(b)],
      Width(p.typesize))
  }

  /** The blocks before `b` are encoded against the start of the source; no other byte was written. */
  ghost predicate EncodedTo(p: Plan, t: seq<bv8>, src: seq<bv8>, stale: seq<bv8>, b: nat)
    requires p.Valid()
  {
    && |t| == |src| == |stale| == p.nbytes && (forall i :: 0 <= i < b ==> BlockEncoded(p, t, src, i))
    && forall q :: 0 <= q < |t| && (!Kept(p, q) || Times(b, p.blocksize) <= q) ==> t[q] == stale[q]
  }

  lemma BlockAfter(p: Plan, b: nat)
    requires p.Valid()
    ensures (Times(b, p.blocksize) == 0 <==> b == 0) && (b > 0 ==> p.blocksize <= Times(b, p.blocksize))
    ensures Times(b + 1, p.blocksize) == Times(b, p.blocksize) + p.blocksize
  {
  }

  lemma SameEncoded(t: seq<bv8>, enc: seq<bv8>, at: nat, n: nat, dref: seq<bv8>, first: bool, src: seq<bv8>, w: nat)
    requires Encoded(enc, at, n, dref, first, src, w) && |t| == |enc| && forall q :: at <= q < at + n ==> t[q] == enc[q]
    ensures Encoded(t, at, n, dref, first, src, w)
  {
  }

  /** One block of the encoder: the reference is the start of the source. */
  method EncodeBlock(p: Plan, src: seq<bv8>, dest: array<bv8>, b: nat, ghost stale: seq<bv8>)
    requires HasElement(p) && b < p.Blocks() && EncodedTo(p, dest[..], src, stale, b)
    modifies dest
    ensures EncodedTo(p, dest[..], src, stale, b + 1)
  {
    BlockFits(p, b);
    BlockAfter(p, b);
    var at, n := Times(b, p.blocksize), p.Size(b);
    assert |dest[..]| == |src| == p.nbytes;
    hide Times, Plan.Blocks, Plan.Size, Encoded, SameElse, Width, Whole, BlockEncoded, Kept;
    ghost var t := dest[..];
    Encoder(src, at, n, p.typesize, src[at..at + n], dest, at);
    BlockCoded(p, dest[..], t, src, stale, b);
  }

  lemma BlockCoded(p: Plan, t': seq<bv8>, t: seq<bv8>, src: seq<bv8>, stale: seq<bv8>, b: nat)
    requires p.Valid() && b < p.Blocks() && EncodedTo(p, t, src, stale, b)
    requires var at, n := Times(b, p.blocksize), WholeSize(p, b);
             && at + p.Size(b) <= |src| && (at == 0 <==> b == 0)
             && Encoded(t', at, n, src, at == 0, src[at..at + p.Size(b)], Width(p.typesize))
               && SameElse(t', t, at, at + n)
    ensures EncodedTo(p, t', src, stale, b + 1)
  {
    var b' := b + 1;
    hide Plan.Blocks, Plan.Size, Encoded, Width, Kept, WholeSize;
    forall i | 0 <= i < b'
      ensures BlockEncoded(p, t', src, i)
    {
      if i < b {
        assert BlockEncoded(p, t, src, i);
        Before(p, i, b);
        var at, n := Times(i, p.blocksize), WholeSize(p, i);
        hide Times;
        SameEncoded(t', t, at, n, src, i == 0, src[at..at + p.Size(i)], Width(p.typesize));
      }
    }
    BlockRest(p, t', t, stale, b);
  }

  lemma BlockRest(p: Plan, t': seq<bv8>, t: seq<bv8>, stale: seq<bv8>, b: nat)
    requires p.Valid() && b < p.Blocks() && |t| == |stale|
    requires forall q :: 0 <= q < |t| && (!Kept(p, q) || Times(b, p.blocksize) <= q) ==> t[q] == stale[q]
    requires SameElse(t', t, Times(b, p.blocksize), Times(b, p.blocksize) + WholeSize(p, b))
    ensures forall q :: 0 <= q < |t'| && (!Kept(p, q) || Times(b + 1, p.blocksize) <= q) ==> t'[q] == stale[q]
  {
    BlockFits(p, b);
    BlockAfter(p, b);
    var at := Times(b, p.blocksize);
    hide Plan.Blocks, Plan.Size, Times, Kept, WholeSize;
    forall q | 0 <= q < |t'| && (!Kept(p, q) || at + p.blocksize <= q)
      ensures t'[q] == stale[q]
    {
      if at <= q < at + WholeSize(p, b) {
        KeptAt(p, b, q - at);
      }
    }
  }

  lemma Before(p: Plan, i: nat, b: nat)
    requires p.Valid() && i < b < p.Blocks()
    ensures Times(i, p.blocksize) + p.Size(i) <= Times(b, p.blocksize) && WholeSize(p, i) <= p.Size(i)
  {
    BlockFits(p, i);
    MulMono(i + 1, b, p.blocksize);
    MulDistrib(i, 1, p.blocksize);
  }

  // ---- decoding a chunk

  /** The blocks before `b` are decoded, the others are still encoded. */
  ghost predicate DecodedTo(p: Plan, t: seq<bv8>, enc: seq<bv8>, goal: seq<bv8>, b: nat)
    requires p.Valid()
  {
    && |t| == |enc| == |goal| == p.nbytes
    && forall q :: 0 <= q < |t| ==> t[q] == if q < Times(b, p.blocksize) then goal[q] else enc[q]
  }

  /** The chunk as the encoder leaves it. */
  ghost predicate ChunkEncoded(p: Plan, enc: seq<bv8>, src: seq<bv8>, stale: seq<bv8>)
    requires p.Valid()
  {
    EncodedTo(p, enc, src, stale, p.Blocks())
  }

  /** One block of the decoder. */
  method DecodeBlock(p: Plan, dest: array<bv8>, b: nat, ghost enc: seq<bv8>, ghost src: seq<bv8>, ghost stale: seq<bv8>)
    requires HasElement(p) && b < p.Blocks() && ChunkEncoded(p, enc, src, stale)
    requires DecodedTo(p, dest[..], enc, Restored(p, src, stale), b)
    modifies dest
    ensures DecodedTo(p, dest[..], enc, Restored(p, src, stale), b + 1)
  {
    BlockFits(p, b);
    var at := Times(b, p.blocksize);
    BlockAfter(p, b);
    assert BlockEncoded(p, enc, src, b);
    assert |dest[..]| == p.nbytes;
    hide Times, Plan.Blocks, Plan.Size, Encoded, Decoded, SameElse, Width, Whole, Kept, EncodedTo, Restored;
    ghost var t := dest[..];
    Decoder(dest, 0, at, at, p.Size(b), p.typesize);
    BlockBack(p, dest[..], t, enc, src, stale, b);
  }

  lemma BlockBack(p: Plan, t': seq<bv8>, t: seq<bv8>, enc: seq<bv8>, src: seq<bv8>, stale: seq<bv8>, b: nat)
    requires p.Valid() && b < p.Blocks() && ChunkEncoded(p, enc, src, stale)
             && DecodedTo(p, t, enc, Restored(p, src, stale), b)
    requires var at := Times(b, p.blocksize);
             && Decoded(t', t, 0, b == 0, at, WholeSize(p, b), Width(p.typesize))
               && SameElse(t', t, at, at + WholeSize(p, b))
             && (at == 0 <==> b == 0) && (b > 0 ==> p.blocksize <= at) && Times(b + 1, p.blocksize) == at + p.blocksize
    ensures DecodedTo(p, t', enc, Restored(p, src, stale), b + 1)
  {
    BlockFits(p, b);
    var at, n, w := Times(b, p.blocksize), WholeSize(p, b), Width(p.typesize);
    var part := src[at..at + p.Size(b)];
    assert BlockEncoded(p, enc, src, b);
    hide Times, Plan.Blocks, Plan.Size, Width, Decoded, Encoded, WholeSize, Kept, Restored, EncodedTo;
    SameEncoded(t, enc, at, n, src, b == 0, part, w);
    ReferenceBack(p, t, enc, src, stale, b);
    forall q | 0 <= q < |t'|
      ensures t'[q] == if q < at + p.blocksize then Restored(p, src, stale)[q] else enc[q]
    {
      if at <= q < at + p.blocksize {
        InBlock(p, b, q);
        RestoredAt(p, enc, src, stale, b, q);
        if q < at + n {
          ByteBack(t', t, at, n, src, part, w, b == 0, q - at);
        }
      }
    }
  }

  lemma InBlock(p: Plan, b: nat, q: nat)
    requires p.Valid() && b < p.Blocks() && Times(b, p.blocksize) <= q < p.nbytes
             && q < Times(b, p.blocksize) + p.blocksize
    ensures q < Times(b, p.blocksize) + p.Size(b)
  {
    BlockFits(p, b);
  }

  lemma RestoredAt(p: Plan, enc: seq<bv8>, src: seq<bv8>, stale: seq<bv8>, b: nat, q: nat)
    requires p.Valid() && b < p.Blocks() && ChunkEncoded(p, enc, src, stale)
    requires Times(b, p.blocksize) <= q < Times(b, p.blocksize) + p.Size(b) && q < p.nbytes
    ensures Restored(p, src, stale)[q] == if q < Times(b, p.blocksize) + WholeSize(p, b) then src[q] else enc[q]
  {
    hide Times, Plan.Blocks, Plan.Size, BlockEncoded, Kept, WholeSize;
    KeptAt(p, b, q - Times(b, p.blocksize));
  }

  /** The part of the first block that a later block needs is decoded. */
  lemma ReferenceBack(p: Plan, t: seq<bv8>, enc: seq<bv8>, src: seq<bv8>, stale: seq<bv8>, b: nat)
    requires p.Valid() && b < p.Blocks() && |src| == |stale| == p.nbytes
             && DecodedTo(p, t, enc, Restored(p, src, stale), b)
    ensures b > 0 ==> WholeSize(p, b) <= Times(b, p.blocksize) && forall q ::
            0 <= q < WholeSize(p, b) ==> q < |t| && t[q] == src[q]
  {
    BlockFits(p, b);
    BlockFits(p, 0);
    BlockAfter(p, b);
    FirstIsLongest(p, b);
    assert Times(0, p.blocksize) == 0;
    hide Times, Plan.Blocks, Plan.Size, Width, WholeSize, Kept;
    if b > 0 {
      forall q | 0 <= q < WholeSize(p, b)
        ensures q < |t| && t[q] == src[q]
      {
        KeptAt(p, 0, q);
      }
    }
  }

  lemma ByteBack(t': seq<bv8>, t: seq<bv8>, at: nat, n: nat, src: seq<bv8>, part: seq<bv8>, w: nat, first: bool, p: nat)
    requires w > 0 && Encoded(t, at, n, src, first, part, w) && Decoded(t', t, 0, first, at, n, w) && p < n
             && at + |part| <= |src|
    requires part == src[at..at + |part|] && SameElse(t', t, at, at + n) && |t'| == |src|
    requires if first then at == 0 else n <= at && forall q :: 0 <= q < n ==> t[q] == src[q]
    ensures t'[at + p] == src[at + p]
  {
    assert part[p] == src[at + p];
    if first {
      FirstEncoded(t, n, src, part, w);
      FirstBack(t', t, 0, n, src, w, p);
    } else {
      assert t'[p] == t[p];
      OtherBack(t', t, 0, at, n, src, part, w, p);
    }
  }

  lemma FirstEncoded(t: seq<bv8>, n: nat, src: seq<bv8>, part: seq<bv8>, w: nat)
    requires Encoded(t, 0, n, src, true, part, w) && |part| <= |src| && part == src[0..|part|]
    ensures Encoded(t, 0, n, src, true, src, w)
  {
    forall p | 0 <= p < n
      ensures t[0 + p] == Coded(src, true, src, w, p)
    {
      assert t[0 + p] == Coded(src, true, part, w, p);
    }
  }

  /** Decode a chunk in place, the first block first. */
  method DecodeChunk(p: Plan, dest: array<bv8>, ghost src: seq<bv8>, ghost stale: seq<bv8>)
    requires HasElement(p) && |src| == |stale| == p.nbytes && ChunkEncoded(p, dest[..], src, stale)
    modifies dest
    ensures dest[..] == Restored(p, src, stale)
  {
    ghost var enc := dest[..];
    assert p.blocksize > 0;
    StartDecoded(p, enc, src, stale);
    hide *;
    for b := 0 to p.Blocks()
      invariant DecodedTo(p, dest[..], enc, Restored(p, src, stale), b)
    {
      DecodeBlock(p, dest, b, enc, src, stale);
    }
    AllDecoded(p, dest[..], enc, Restored(p, src, stale));
  }

  lemma StartDecoded(p: Plan, enc: seq<bv8>, src: seq<bv8>, stale: seq<bv8>)
    requires p.Valid() && ChunkEncoded(p, enc, src, stale)
    ensures DecodedTo(p, enc, enc, Restored(p, src, stale), 0)
  {
  }

  lemma AllDecoded(p: Plan, t: seq<bv8>, enc: seq<bv8>, goal: seq<bv8>)
    requires p.Valid() && DecodedTo(p, t, enc, goal, p.Blocks())
    ensures t == goal
  {
  }

  // ---- the round trip

  /** Encoding a chunk block by block over stale bytes, and decoding it in place, restores its whole elements. */
  method DeltaRoundTrip(p: Plan, src: seq<bv8>, stale: seq<bv8>) returns (back: seq<bv8>)
    requires HasElement(p) && |src| == |stale| == p.nbytes
    ensures back == Restored(p, src, stale) && (WholeBlocks(p) ==> back == src)
  {
    assert p.blocksize > 0 && p.Valid();
    var dest := new bv8[|stale|](i requires 0 <= i < |stale| => stale[i]);
    assert dest[..] == stale;
    NoneEncoded(p, src, stale);
    hide *;
    for b := 0 to p.Blocks()
      invariant EncodedTo(p, dest[..], src, stale, b)
    {
      EncodeBlock(p, src, dest, b, stale);
    }
    EncodedAll(p, dest[..], src, stale);
    DecodeChunk(p, dest, src, stale);
    back := dest[..];
    ChunkExact(p);
  }

  lemma NoneEncoded(p: Plan, src: seq<bv8>, stale: seq<bv8>)
    requires p.Valid() && |stale| == |src| == p.nbytes
    ensures EncodedTo(p, stale, src, stale, 0)
  {
  }

  lemma EncodedAll(p: Plan, t: seq<bv8>, src: seq<bv8>, stale: seq<bv8>)
    requires p.Valid() && EncodedTo(p, t, src, stale, p.Blocks())
    ensures ChunkEncoded(p, t, src, stale)
  {
  }

  /** Every block of the chunk holds whole elements. */
  predicate WholeBlocks(p: Plan)
    requires p.Valid()
  {
    p.nbytes % Width(p.typesize) == 0 && (p.nbytes <= p.blocksize || p.blocksize % Width(p.typesize) == 0)
  }

  /** A chunk comes back whatever the buffers held exactly when the blocks hold whole elements. */
  lemma ChunkExact(p: Plan)
    requires p.Valid()
    ensures (forall src: seq<bv8>, stale: seq<bv8> :: |src| == |stale| == p.nbytes ==> Restored(p, src, stale) == src)
            <==> WholeBlocks(p)
  {
    hide Kept, Width;
    if WholeBlocks(p) {
      forall q | 0 <= q < p.nbytes
        ensures Kept(p, q)
      {
        AllKept(p, q);
      }
    } else {
      var q := LostByte(p);
      var src, stale := seq(p.nbytes, _ => 0 as bv8), seq(p.nbytes, _ => 1 as bv8);
      assert Restored(p, src, stale)[q] == 1 && src[q] == 0;
    }
  }

  lemma AllKept(p: Plan, q: nat)
    requires p.Valid() && WholeBlocks(p) && q < p.nbytes
    ensures Kept(p, q)
  {
    hide Times, Plan.Blocks, Plan.Size, WholeSize, Width, Kept;
    var b, r := BlockOfByte(p, q);
    BlockWhole(p, b);
    KeptAt(p, b, r);
  }

  lemma BlockOfByte(p: Plan, q: nat) returns (b: nat, r: nat)
    requires p.Valid() && q < p.nbytes
    ensures q == Times(b, p.blocksize) + r && b < p.Blocks() && r < p.Size(b)
  {
    SomeBlocks(p);
    hide Plan.Blocks, Plan.Size;
    b, r := Divided(q, p.blocksize);
    var last := p.Blocks() - 1;
    BlockFits(p, last);
    BlockAfter(p, last);
    if last < b {
      MulMono(last + 1, b, p.blocksize);
    } else {
      BlockFits(p, b);
    }
  }

  lemma Divided(q: nat, v: nat) returns (b: nat, r: nat)
    requires v > 0
    ensures q == Times(b, v) + r && r < v
  {
    b, r := q / v, q % v;
  }

  lemma SizeOf(p: Plan, b: nat)
    requires p.Valid() && (b < p.nbytes / p.blocksize || (b == p.nbytes / p.blocksize && p.nbytes % p.blocksize > 0))
    ensures p.blocksize > 0 && b < p.Blocks() && p.Size(b) == if b < p.nbytes / p.blocksize then p.blocksize
            else p.nbytes % p.blocksize
  {
  }

  lemma BlockWhole(p: Plan, b: nat)
    requires p.Valid() && WholeBlocks(p) && b < p.Blocks()
    ensures p.Size(b) % Width(p.typesize) == 0 && WholeSize(p, b) == p.Size(b)
  {
    if p.nbytes <= p.blocksize {
      OnlyBlock(p, b);
    } else {
      LeftoverWhole(p.nbytes, p.blocksize, Width(p.typesize));
    }
  }

  lemma OnlyBlock(p: Plan, b: nat)
    requires p.Valid() && p.nbytes <= p.blocksize && b < p.Blocks()
    ensures b == 0 && p.Size(b) == p.nbytes && p.Blocks() == 1
  {
    BlockFits(p, b);
    if b + 1 < p.Blocks() {
      BlockFits(p, b + 1);
      BlockAfter(p, b);
    }
    BlockAfter(p, b);
  }

  lemma LostByte(p: Plan) returns (q: nat)
    requires p.Valid() && !WholeBlocks(p)
    ensures q < p.nbytes && !Kept(p, q)
  {
    var b := BrokenBlock(p);
    BlockFits(p, b);
    q := Times(b, p.blocksize) + WholeSize(p, b);
    KeptAt(p, b, WholeSize(p, b));
  }

  /** A block that does not hold whole elements: the only one, the first one or the last one. */
  lemma BrokenBlock(p: Plan) returns (b: nat)
    requires p.Valid() && !WholeBlocks(p)
    ensures b < p.Blocks() && WholeSize(p, b) < p.Size(b)
  {
    var w := Width(p.typesize);
    SomeBlocks(p);
    BlockFits(p, 0);
    if p.nbytes <= p.blocksize {
      OnlyBlock(p, 0);
      b := 0;
    } else if p.blocksize % w != 0 {
      b := 0;
      SizeOf(p, 0);
    } else {
      LeftoverWhole(p.nbytes, p.blocksize, w);
      b := p.nbytes / p.blocksize;
      SizeOf(p, b);
    }
    Broken(p.Size(b), w);
  }

  lemma SomeBlocks(p: Plan)
    requires p.Valid()
    ensures p.Blocks() > 0 && (p.blocksize < p.nbytes ==> 0 < p.nbytes / p.blocksize)
  {
  }

  lemma Broken(n: nat, w: nat)
    requires w > 0 && n % w != 0
    ensures Whole(n, w) < n
  {
  }

  lemma LeftoverWhole(n: nat, v: nat, w: nat)
    requires v > 0 && w > 0 && v % w == 0
    ensures n % v % w == n % w
  {
    var k := v / w;
    assert v == k * w;
    if k == 0 {
      MulMono(k, 0, w);
    } else {
      ModOfMultiple(n, k, w);
    }
  }
}
