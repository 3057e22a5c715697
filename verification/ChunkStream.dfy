/**
 Whole chunks of regular blocks: the block loop of `serial_blosc` and `blosc_compress_context`
 (blosc/blosc2.c), with an abstract codec and an abstract filter pipeline.
 */
module ChunkStream {
  import opened Bytes
  import opened Arith
  import opened Seqs
  import opened BlockStream

  /** A filter pipeline that works on each block by itself. */
  datatype Filters = Filters(forward: seq<Byte> -> seq<Byte>, backward: seq<Byte> -> seq<Byte>) {
    ghost predicate Sound() {
      forall s :: |forward(s)| == |s| && backward(forward(s)) == s
    }

    ghost predicate KeepsLength() {
      forall s :: |forward(s)| == |s|
    }

    ghost predicate KeepsZeros() {
      forall n: nat :: backward(Fill(0, n)) == Fill(0, n)
    }
  }

  /** How a chunk is cut into blocks and the blocks into streams. */
  datatype Plan = Plan(nbytes: nat, blocksize: nat, typesize: nat, split: bool) {
    ghost predicate Valid() {
      && 0 < nbytes && 0 < blocksize < 0x8000_0000 && 0 < typesize
      && (split ==> blocksize % typesize == 0)
    }

    function Leftover(): nat
      requires blocksize > 0
    {
      nbytes % blocksize
    }

    function Blocks(): nat
      requires blocksize > 0
    {
      if Leftover() > 0 then nbytes / blocksize + 1 else nbytes / blocksize
    }

    predicate IsLeftover(b: nat)
      requires blocksize > 0
    {
      b + 1 == Blocks() && Leftover() > 0
    }

    function Size(b: nat): nat
      requires blocksize > 0
    {
      if IsLeftover(b) then Leftover() else blocksize
    }

    function Streams(b: nat): nat
      requires blocksize > 0
    {
      if split && !IsLeftover(b) then typesize else 1
    }

    /** `neblock`: the bytes of one stream. */
    function StreamSize(b: nat): nat
      requires blocksize > 0 && typesize > 0
    {
      Size(b) / Streams(b)
    }

    /** `nstreams` in `blosc_compress_context`: the streams of all blocks. */
    function AllStreams(): nat
      requires blocksize > 0
    {
      if !split then Blocks()
      else if Leftover() > 0 then (if Blocks() == 0 then 0 else (Blocks() - 1) * typesize + 1)
      else Blocks() * typesize
    }
  }

  /** The block fits the chunk, and the blocks together are the chunk. */
  lemma BlockFits(p: Plan, b: nat)
    requires p.Valid() && b < p.Blocks()
    ensures 0 < p.Size(b) <= p.blocksize && Times(b, p.blocksize) + p.Size(b) <= p.nbytes
    ensures b + 1 < p.Blocks() ==> p.Size(b) == p.blocksize
    ensures b + 1 == p.Blocks() ==> Times(b, p.blocksize) + p.Size(b) == p.nbytes
    ensures p.Streams(b) > 0
  {
    var q, r, v := p.nbytes / p.blocksize, p.nbytes % p.blocksize, p.blocksize;
    assert p.nbytes == Times(q, v) + r;
    MulMono(b + 1, q + 1, v);
    MulDistrib(b, 1, v);
    MulDistrib(q, 1, v);
    if b + 1 <= q {
      MulMono(b + 1, q, v);
    }
  }

  function Block(p: Plan, s: seq<Byte>, b: nat): (r: seq<Byte>)
    requires p.blocksize > 0 && Times(b, p.blocksize) + p.Size(b) <= |s|
    ensures |r| == p.Size(b)
  {
    s[Times(b, p.blocksize)..Times(b, p.blocksize) + p.Size(b)]
  }

  /** The parts of a block are equal and cover it. */
  lemma BlockParts(p: Plan, b: nat, s: seq<Byte>)
    requires p.Valid() && b < p.Blocks() && |s| == p.Size(b)
    ensures p.Streams(b) > 0 && Parts(s, |s| / p.Streams(b), p.Streams(b))
  {
  }

  // ---- the number of streams

  function StreamsBefore(p: Plan, b: nat): nat
    requires p.blocksize > 0
  {
    if b == 0 then 0 else StreamsBefore(p, b - 1) + p.Streams(b - 1)
  }

  lemma {:induction false} FullStreams(p: Plan, b: nat)
    requires p.Valid() && b <= p.Blocks() && (p.Leftover() > 0 ==> b < p.Blocks())
    ensures StreamsBefore(p, b) == if p.split then Times(b, p.typesize) else b
  {
    if b > 0 {
      FullStreams(p, b - 1);
      MulDistrib(b - 1, 1, p.typesize);
    }
  }

  /** The formula of the source counts the streams of all blocks. */
  lemma AllStreamsRight(p: Plan)
    requires p.Valid()
    ensures p.AllStreams() == StreamsBefore(p, p.Blocks())
  {
    if p.Leftover() > 0 {
      FullStreams(p, p.Blocks() - 1);
    } else {
      FullStreams(p, p.Blocks());
    }
  }

  // ---- the blocks laid out in the chunk

  /** The streams stand for block `b` of the source, after the filters. */
  ghost predicate BlockStreams(p: Plan, c: Codec, f: Filters, src: seq<Byte>, b: nat, sts: seq<Stream>)
    requires p.Valid()
  {
    && Times(b, p.blocksize) + p.Size(b) <= |src| && p.Streams(b) > 0
    && var s := f.forward(Block(p, src, b));
       |s| == p.Size(b) && StreamsOf(c, sts, s, |s| / p.Streams(b), p.Streams(b)) && |sts| == p.Streams(b) && Fit(sts)
  }

  /** They are found in the chunk where the block starts say. */
  ghost predicate BlockAt(sts: seq<Stream>, dest: seq<Byte>, start: int, end: int) {
    && Fit(sts) && 0 < start && start + |Flat(sts)| <= end <= |dest| && dest[start..start + |Flat(sts)|] == Flat(sts)
  }

  function TotalSize(all: seq<seq<Stream>>): nat
    requires forall b :: 0 <= b < |all| ==> Fit(all[b])
  {
    if all == [] then 0 else TotalSize(all[..|all| - 1]) + |Flat(all[|all| - 1])|
  }

  ghost predicate LaidOut(p: Plan, c: Codec, f: Filters, src: seq<Byte>, all: seq<seq<Stream>>,
                          dest: seq<Byte>, bstarts: seq<int>, first: nat, end: nat)
    requires p.Valid()
  {
    && 0 < first <= end <= |dest| && |bstarts| == p.Blocks() && BlocksOf(p, c, f, src, all)
    && (forall b :: 0 <= b < |all| ==> BlockAt(all[b], dest, bstarts[b], end))
    && end == first + TotalSize(all)
  }

  lemma {:induction false} TotalMore(all: seq<seq<Stream>>, sts: seq<Stream>)
    requires (forall b :: 0 <= b < |all| ==> Fit(all[b])) && Fit(sts)
    ensures (forall b :: 0 <= b < |all + [sts]| ==> Fit((all + [sts])[b]))
            && TotalSize(all + [sts]) == TotalSize(all) + |Flat(sts)|
  {
  }

  lemma BlockAtKept(sts: seq<Stream>, dest: seq<Byte>, dest': seq<Byte>, start: int, end: nat, end': nat, hi: int)
    requires BlockAt(sts, dest, start, end) && SameAround(dest', dest, end, hi) && end <= end' <= |dest'|
    ensures BlockAt(sts, dest', start, end')
  {
  }

  /** One more block. */
  lemma {:induction false} LaidOutMore(p: Plan, c: Codec, f: Filters, src: seq<Byte>, all: seq<seq<Stream>>,
                                       sts: seq<Stream>,
                                       dest: seq<Byte>, dest': seq<Byte>, starts: seq<int>, bstarts: seq<int>,
                                       first: nat, end: nat, destsize: int)
    requires p.Valid() && |all| < p.Blocks() && LaidOut(p, c, f, src, all, dest, starts, first, end)
    requires |starts| == p.Blocks() && bstarts == starts[|all| := end]
    requires BlockStreams(p, c, f, src, |all|, sts) && Fit(sts) && end + |Flat(sts)| <= |dest'|
    requires SameAround(dest', dest, end, destsize) && dest'[end..end + |Flat(sts)|] == Flat(sts)
    ensures LaidOut(p, c, f, src, all + [sts], dest', bstarts, first, end + |Flat(sts)|)
  {
    hide Flat, BlockStreams, TotalSize, Fit, BlockAt, SameAround, Plan.Valid, Plan.Blocks;
    TotalMore(all, sts);
    var t, end' := all + [sts], end + |Flat(sts)|;
    forall b | 0 <= b < |t|
      ensures BlockStreams(p, c, f, src, b, t[b]) && BlockAt(t[b], dest', bstarts[b], end')
    {
      if b < |all| {
        assert starts[b] == bstarts[b];
        BlockAtKept(all[b], dest, dest', bstarts[b], end, end', destsize);
      } else {
        BlockAtNew(sts, dest', end);
      }
    }
  }

  lemma BlockAtNew(sts: seq<Stream>, dest: seq<Byte>, end: nat)
    requires Fit(sts) && 0 < end && end + |Flat(sts)| <= |dest| && dest[end..end + |Flat(sts)|] == Flat(sts)
    ensures BlockAt(sts, dest, end, end + |Flat(sts)|)
  {
  }

  // ---- compression

  /** One turn of the loop of `serial_blosc`: filter and encode one block. */
  method CompressBlock(p: Plan, c: Codec, f: Filters, src: seq<Byte>, b: nat, dest: array<Byte>, ntbytes: nat,
                       destsize: int)
    returns (r: int, ghost sts: seq<Stream>)
    requires p.Valid() && c.Sound() && f.Sound() && |src| == p.nbytes && b < p.Blocks()
    requires ntbytes <= dest.Length && destsize <= dest.Length
    modifies dest
    ensures r > 0 ==> BlockStreams(p, c, f, src, b, sts) && Fit(sts) && r == |Flat(sts)| && ntbytes + r <= destsize &&
                      dest[ntbytes..ntbytes + r] == Flat(sts)
    ensures r == 0 ==> destsize - ntbytes < p.Size(b) + 4 * p.Streams(b)
    ensures r < 0 ==> !c.Obedient()
    ensures SameAround(dest[..], old(dest[..]), ntbytes, destsize)
  {
    BlockFits(p, b);
    var s := f.forward(Block(p, src, b));
    assert |s| == p.Size(b);
    BlockParts(p, b, s);
    hide *;
    r, sts := EncodeBlock(c, s, p.Streams(b), dest, ntbytes, ntbytes, destsize);
    if r > 0 {
      WrittenIs(c, sts, s, |s| / p.Streams(b), p.Streams(b), dest[..], old(dest[..]), ntbytes, r, destsize - ntbytes);
      ThisBlock(p, c, f, src, b, sts);
    }
  }

  lemma {:induction false} WrittenIs(c: Codec, sts: seq<Stream>, s: seq<Byte>, n: nat, nstreams: nat,
                  t: seq<Byte>, was: seq<Byte>, at: nat, r: nat, room: int)
    requires Written(c, sts, s, n, nstreams, t, was, at, r, room) && sts != []
    ensures StreamsOf(c, sts, s, n, nstreams) && Fit(sts) && r == |Flat(sts)| && r <= room && at + r <= |t|
            && t[at..at + r] == Flat(sts)
  {
  }

  lemma ThisBlock(p: Plan, c: Codec, f: Filters, src: seq<Byte>, b: nat, sts: seq<Stream>)
    requires p.Valid() && Times(b, p.blocksize) + p.Size(b) <= |src| && p.Streams(b) > 0 && |sts| == p.Streams(b)
             && Fit(sts)
    requires var s := f.forward(Block(p, src, b));
             |s| == p.Size(b) && StreamsOf(c, sts, s, |s| / p.Streams(b), p.Streams(b))
    ensures BlockStreams(p, c, f, src, b, sts)
  {
  }

  /**
   The call of `blosc_c` in `t_blosc_do_job`: a worker encodes into a buffer of its own of `ebsize`
   bytes, which is always enough.
   */
  method CompressInWorker(p: Plan, c: Codec, f: Filters, src: seq<Byte>, b: nat, tmp: array<Byte>)
    returns (r: int, ghost sts: seq<Stream>)
    requires p.Valid() && c.Sound() && f.Sound() && |src| == p.nbytes && b < p.Blocks()
    requires p.blocksize + 4 * p.typesize <= tmp.Length
    modifies tmp
    ensures c.Obedient() ==> r > 0
    ensures r > 0 ==>
            BlockStreams(p, c, f, src, b, sts) && Fit(sts) && r == |Flat(sts)| <= p.blocksize + 4 * p.typesize
            && tmp[..r] == Flat(sts)
  {
    var ebsize := p.blocksize + 4 * p.typesize;
    BlockFits(p, b);
    StreamsBound(p, b);
    hide *;
    r, sts := CompressBlock(p, c, f, src, b, tmp, 0, ebsize);
    assert r > 0 ==> tmp[0..r] == tmp[..r];
  }

  lemma StreamsBound(p: Plan, b: nat)
    requires p.Valid()
    ensures p.Streams(b) <= p.typesize
  {
  }

  /** The block loop of `serial_blosc`, from the end of the block starts on.  0 means that the data do not fit. */
  method CompressBlocks(p: Plan, c: Codec, f: Filters, src: seq<Byte>, dest: array<Byte>, bstarts: array<int>,
                        first: nat, destsize: int)
    returns (r: int, ghost all: seq<seq<Stream>>)
    requires p.Valid() && c.Sound() && f.Sound() && |src| == p.nbytes && bstarts.Length == p.Blocks()
    requires 0 < first <= dest.Length && destsize <= dest.Length
    modifies dest, bstarts
    ensures r > 0 ==> |all| == p.Blocks() && LaidOut(p, c, f, src, all, dest[..], bstarts[..], first, r)
    ensures r < 0 ==> !c.Obedient()
    ensures r == 0 ==> destsize < first + p.nbytes + 4 * p.AllStreams()
    ensures r > 0 ==> r <= destsize
    ensures SameAround(dest[..], old(dest[..]), first, destsize)
  {
    hide *;
    ghost var was := dest[..];
    SameAroundSelf(was, first, destsize);
    var ntbytes: nat := first;
    all := [];
    LaidOutNone(p, c, f, src, dest[..], bstarts[..], first);
    BlocksExist(p);
    var j := 0;
    while j < p.Blocks()
      invariant 0 <= j <= p.Blocks() && |all| == j && ntbytes <= dest.Length
      invariant LaidOut(p, c, f, src, all, dest[..], bstarts[..], first, ntbytes)
      invariant first <= ntbytes && (j > 0 ==> ntbytes <= destsize) && SameAround(dest[..], was, first, destsize)
    {
      ghost var starts, before := bstarts[..], dest[..];
      bstarts[j] := ntbytes;
      assert bstarts[..] == starts[j := ntbytes];
      var k: int;
      ghost var sts;
      k, sts := CompressBlock(p, c, f, src, j, dest, ntbytes, destsize);
      SameAroundTwice(dest[..], before, was, ntbytes, first, destsize, destsize);
      if k <= 0 {
        TooSmall(p, c, f, src, all, before, starts, first, ntbytes, destsize);
        return k, all;
      }
      LaidOutMore(p, c, f, src, all, sts, before, dest[..], starts, bstarts[..], first, ntbytes, destsize);
      all, ntbytes, j := all + [sts], ntbytes + k, j + 1;
    }
    r := ntbytes;
  }

  /** Two changes, the later one inside the part that the earlier one may have changed. */
  lemma SameAroundTwice(t': seq<Byte>, t: seq<Byte>, was: seq<Byte>, lo': nat, lo: nat, hi': int, hi: int)
    requires SameAround(t', t, lo', hi') && SameAround(t, was, lo, hi) && lo <= lo' && hi' <= hi
    ensures SameAround(t', was, lo, hi)
  {
  }

  lemma SoundKeepsLength(f: Filters)
    requires f.Sound()
    ensures f.KeepsLength()
  {
  }

  lemma BlocksExist(p: Plan)
    requires p.Valid()
    ensures p.blocksize > 0 && p.Blocks() > 0
  {
  }

  lemma {:induction false} LaidOutNone(p: Plan, c: Codec, f: Filters, src: seq<Byte>, dest: seq<Byte>,
                                       bstarts: seq<int>, first: nat)
    requires p.Valid() && 0 < first <= |dest| && |bstarts| == p.Blocks()
    ensures LaidOut(p, c, f, src, [], dest, bstarts, first, first)
  {
  }

  /** Streams for the first blocks of a chunk. */
  ghost predicate BlocksOf(p: Plan, c: Codec, f: Filters, src: seq<Byte>, all: seq<seq<Stream>>)
    requires p.Valid()
  {
    && |all| <= p.Blocks() && (forall b :: 0 <= b < |all| ==> Fit(all[b]))
    && (forall b :: 0 <= b < |all| ==> BlockStreams(p, c, f, src, b, all[b]))
  }

  /** Nothing but size fields in any block. */
  ghost predicate OnlySizes(p: Plan, all: seq<seq<Stream>>)
    requires p.blocksize > 0 && forall b :: 0 <= b < |all| ==> Fit(all[b])
  {
    forall b :: 0 <= b < |all| ==> |Flat(all[b])| == 4 * p.Streams(b)
  }

  lemma {:induction false} LastBlock(p: Plan, c: Codec, f: Filters, src: seq<Byte>, all: seq<seq<Stream>>,
                                     init: seq<seq<Stream>>)
    requires p.Valid() && BlocksOf(p, c, f, src, all) && all != [] && init == all[..|all| - 1]
    ensures BlocksOf(p, c, f, src, init) && BlockStreams(p, c, f, src, |all| - 1, all[|all| - 1])
    ensures (forall b :: 0 <= b < |all| ==> Fit(all[b])) && (forall b :: 0 <= b < |init| ==> Fit(init[b]))
    ensures TotalSize(all) == TotalSize(init) + |Flat(all[|all| - 1])|
    ensures StreamsBefore(p, |all|) == StreamsBefore(p, |all| - 1) + p.Streams(|all| - 1)
    ensures BytesBefore(p, |all|) == BytesBefore(p, |all| - 1) + p.Size(|all| - 1)
    ensures OnlySizes(p, all) <==> OnlySizes(p, init) && |Flat(all[|all| - 1])| == 4 * p.Streams(|all| - 1)
  {
    hide BlockStreams, Flat, Fit, Plan.Blocks, Plan.Streams, Plan.Size;
    assert forall b :: 0 <= b < |init| ==> init[b] == all[b];
  }

  /** The blocks take no more than their bytes and four bytes for each stream; no less than the latter. */
  lemma {:induction false} SizeBound(p: Plan, c: Codec, f: Filters, src: seq<Byte>, all: seq<seq<Stream>>)
    requires p.Valid() && p.blocksize > 0 && BlocksOf(p, c, f, src, all) && (forall b :: 0 <= b < |all| ==> Fit(all[b]))
    ensures 4 * StreamsBefore(p, |all|) <= TotalSize(all) <= BytesBefore(p, |all|) + 4 * StreamsBefore(p, |all|)
    ensures TotalSize(all) == 4 * StreamsBefore(p, |all|) <==> OnlySizes(p, all)
  {
    hide *;
    if all == [] {
      NoBlocks(p);
    } else {
      var init := all[..|all| - 1];
      LastBlock(p, c, f, src, all, init);
      OneBlockBound(p, c, f, src, |all| - 1, all[|all| - 1]);
      SizeBound(p, c, f, src, init);
    }
  }

  lemma NoBlocks(p: Plan)
    requires p.blocksize > 0
    ensures TotalSize([]) == 0 == StreamsBefore(p, 0) == BytesBefore(p, 0) && OnlySizes(p, [])
  {
  }

  function BytesBefore(p: Plan, b: nat): nat
    requires p.blocksize > 0
  {
    if b == 0 then 0 else BytesBefore(p, b - 1) + p.Size(b - 1)
  }

  lemma {:induction false} BytesBeforeIs(p: Plan, b: nat)
    requires p.Valid() && b <= p.Blocks()
    ensures BytesBefore(p, b) <= p.nbytes && (b < p.Blocks() ==> BytesBefore(p, b) == Times(b, p.blocksize))
  {
    if b > 0 {
      BytesBeforeIs(p, b - 1);
      BlockFits(p, b - 1);
      MulDistrib(b - 1, 1, p.blocksize);
    }
  }

  lemma OneBlockBound(p: Plan, c: Codec, f: Filters, src: seq<Byte>, b: nat, sts: seq<Stream>)
    requires p.Valid() && p.blocksize > 0 && BlockStreams(p, c, f, src, b, sts) && Fit(sts)
    ensures 4 * p.Streams(b) <= |Flat(sts)| <= p.Size(b) + 4 * p.Streams(b)
    ensures |Flat(sts)| == 4 * p.Streams(b) <==> Constant(f.forward(Block(p, src, b)), 0)
  {
    hide Flat, Fit, StreamsOf, Plan.Streams, Plan.Size, Block;
    var s := f.forward(Block(p, src, b));
    BlockBound(c, sts, s, |s| / p.Streams(b), p.Streams(b));
    ZeroBlock(c, sts, s, |s| / p.Streams(b), p.Streams(b));
    DivMul(|s|, p.Streams(b));
  }

  lemma DivMul(n: nat, k: nat)
    requires k > 0
    ensures Times(k, n / k) <= n
  {
  }

  lemma {:induction false} StreamsMono(p: Plan, a: nat, b: nat)
    requires p.blocksize > 0 && a <= b
    ensures StreamsBefore(p, a) <= StreamsBefore(p, b)
  {
    if a < b {
      StreamsMono(p, a, b - 1);
    }
  }

  /** With room for all bytes and all size fields, no block is ever refused. */
  lemma TooSmall(p: Plan, c: Codec, f: Filters, src: seq<Byte>, all: seq<seq<Stream>>, dest: seq<Byte>,
                 bstarts: seq<int>, first: nat, end: nat, destsize: int)
    requires p.Valid() && |all| < p.Blocks() && LaidOut(p, c, f, src, all, dest, bstarts, first, end)
    ensures destsize - end < p.Size(|all|) + 4 * p.Streams(|all|) ==> destsize < first + p.nbytes + 4 * p.AllStreams()
  {
    var j := |all|;
    hide Plan.Valid, Plan.Blocks, Plan.Streams, Plan.Size, BlockStreams, Flat, Fit, BlockAt, Plan.AllStreams;
    BlocksExist(p);
    SizeBound(p, c, f, src, all);
    BytesBeforeIs(p, j + 1);
    StreamsMono(p, j + 1, p.Blocks());
    AllStreamsRight(p);
  }

  // ---- chunks of zeros

  ghost predicate AllZero(p: Plan, f: Filters, src: seq<Byte>)
    requires p.Valid() && |src| == p.nbytes
  {
    forall b :: 0 <= b < p.Blocks() ==> ZeroAfter(p, f, src, b)
  }

  /** Block `b` is all zeros after the filters. */
  ghost predicate ZeroAfter(p: Plan, f: Filters, src: seq<Byte>, b: nat)
    requires p.Valid() && |src| == p.nbytes && b < p.Blocks()
  {
    BlockFits(p, b);
    Constant(f.forward(Block(p, src, b)), 0)
  }

  /**
   The chunk has the size of its header, block starts and size fields exactly when every block is
   all zeros after the filters.
   */
  lemma CollapseExact(p: Plan, c: Codec, f: Filters, src: seq<Byte>, all: seq<seq<Stream>>)
    requires p.Valid() && |src| == p.nbytes && BlocksOf(p, c, f, src, all) && |all| == p.Blocks()
    ensures (forall b :: 0 <= b < |all| ==> Fit(all[b]))
            && (TotalSize(all) == 4 * p.AllStreams() <==> AllZero(p, f, src))
  {
    hide *;
    BlocksExist(p);
    AllFit(p, c, f, src, all);
    SizeBound(p, c, f, src, all);
    AllStreamsRight(p);
    OnlySizesIff(p, c, f, src, all);
  }

  lemma {:induction false} AllFit(p: Plan, c: Codec, f: Filters, src: seq<Byte>, all: seq<seq<Stream>>)
    requires p.Valid() && BlocksOf(p, c, f, src, all)
    ensures forall b :: 0 <= b < |all| ==> Fit(all[b])
  {
  }

  lemma {:induction false} OnlySizesIff(p: Plan, c: Codec, f: Filters, src: seq<Byte>, all: seq<seq<Stream>>)
    requires p.Valid() && p.blocksize > 0 && |src| == p.nbytes && BlocksOf(p, c, f, src, all) && |all| == p.Blocks()
    requires forall b :: 0 <= b < |all| ==> Fit(all[b])
    ensures OnlySizes(p, all) <==> AllZero(p, f, src)
  {
    hide Plan.Valid, Plan.Blocks, Plan.Streams, Plan.Size, BlockStreams, Flat, Fit, Block, ZeroAfter;
    forall b | 0 <= b < p.Blocks()
      ensures |Flat(all[b])| == 4 * p.Streams(b) <==> ZeroAfter(p, f, src, b)
    {
      assert BlockStreams(p, c, f, src, b, all[b]);
      ZeroAfterIff(p, c, f, src, b, all[b]);
    }
  }

  lemma ZeroAfterIff(p: Plan, c: Codec, f: Filters, src: seq<Byte>, b: nat, sts: seq<Stream>)
    requires p.Valid() && p.blocksize > 0 && |src| == p.nbytes && b < p.Blocks() && BlockStreams(p, c, f, src, b, sts)
             && Fit(sts)
    ensures |Flat(sts)| == 4 * p.Streams(b) <==> ZeroAfter(p, f, src, b)
  {
    hide Plan.Valid, Plan.Blocks, Plan.Streams, Plan.Size, BlockStreams, Flat, Fit, Block, Constant;
    BlockFits(p, b);
    OneBlockBound(p, c, f, src, b, sts);
  }

  /** Block `b` goes through the filters and back to zeros. */
  ghost predicate ZeroBack(p: Plan, f: Filters, src: seq<Byte>, b: nat)
    requires p.Valid() && |src| == p.nbytes && b < p.Blocks()
  {
    BlockFits(p, b);
    f.backward(f.forward(Block(p, src, b))) == Fill(0, p.Size(b))
  }

  /**
   If the inverse filters keep zeros, every block of such a chunk goes through the filters and back
   to zeros, also when they lose information; if they lose none, the chunk was all zeros.
   */
  lemma ZeroChunk(p: Plan, f: Filters, src: seq<Byte>)
    requires p.Valid() && |src| == p.nbytes && f.KeepsLength() && f.KeepsZeros() && AllZero(p, f, src)
    ensures forall b :: 0 <= b < p.Blocks() ==> ZeroBack(p, f, src, b)
    ensures f.Sound() ==> src == Fill(0, p.nbytes)
  {
    hide Plan.Blocks, Plan.Size, Filters.Sound, Filters.KeepsLength, Filters.KeepsZeros;
    forall b | 0 <= b < p.Blocks()
      ensures ZeroBack(p, f, src, b)
    {
      assert ZeroAfter(p, f, src, b);
      ZeroBefore(p, f, src, b);
    }
    if f.Sound() {
      forall i | 0 <= i < |src|
        ensures src[i] == 0
      {
        var b := BlockOfByte(p, i);
        BlockFits(p, b);
        assert ZeroBack(p, f, src, b);
        BackIs(f, Block(p, src, b));
        assert Block(p, src, b)[i - Times(b, p.blocksize)] == 0;
      }
    }
  }

  lemma BackIs(f: Filters, s: seq<Byte>)
    requires f.Sound()
    ensures f.backward(f.forward(s)) == s
  {
  }

  lemma ZeroBefore(p: Plan, f: Filters, src: seq<Byte>, b: nat)
    requires p.Valid() && |src| == p.nbytes && f.KeepsLength() && f.KeepsZeros() && b < p.Blocks()
             && ZeroAfter(p, f, src, b)
    ensures ZeroBack(p, f, src, b)
  {
    BlockFits(p, b);
    var s := Block(p, src, b);
    assert |f.forward(s)| == |s|;
    assert f.forward(s) == Fill(0, |s|);
    assert f.backward(Fill(0, |s|)) == Fill(0, |s|);
  }

  lemma BlockOfByte(p: Plan, i: nat) returns (b: nat)
    requires p.Valid() && i < p.nbytes
    ensures b < p.Blocks() && Times(b, p.blocksize) <= i < Times(b, p.blocksize) + p.Size(b)
  {
    b := i / p.blocksize;
    var q, r := p.nbytes / p.blocksize, p.nbytes % p.blocksize;
    assert p.nbytes == Times(q, p.blocksize) + r;
    DivBetween(i, p.blocksize, b);
    if b > q {
      MulMono(q + 1, b, p.blocksize);
      MulDistrib(q, 1, p.blocksize);
    }
  }

  // ---- whole chunks

  datatype Kind = Regular | SpecialZero | Memcpyed

  /** What a block of a chunk decompresses to, by the reference decoder. */
  function ReadBlock(p: Plan, c: Codec, f: Filters, kind: Kind, overhead: nat, chunk: seq<Byte>, bstarts: seq<int>,
                     b: nat): Option<seq<Byte>>
    requires p.blocksize > 0 && p.typesize > 0
  {
    match kind
    case SpecialZero => Some(Fill(0, p.Size(b)))
    case Memcpyed =>
      var at := overhead + Times(b, p.blocksize);
      if at + p.Size(b) <= |chunk| then Some(chunk[at..at + p.Size(b)]) else None
    case Regular =>
      if b < |bstarts| && 0 < bstarts[b] < |chunk| then
        var read := ReadStreams(c, chunk, bstarts[b], p.StreamSize(b), p.Streams(b));
        if read.Good? then Some(f.backward(read.bytes)) else None
      else None
  }

  /** The chunk decompresses to the source. */
  ghost predicate Decodes(p: Plan, c: Codec, f: Filters, kind: Kind, overhead: nat, chunk: seq<Byte>,
                          bstarts: seq<int>, src: seq<Byte>)
    requires p.Valid() && |src| == p.nbytes
  {
    forall b :: 0 <= b < p.Blocks() ==> BlockDecodes(p, c, f, kind, overhead, chunk, bstarts, src, b)
  }

  ghost predicate BlockDecodes(p: Plan, c: Codec, f: Filters, kind: Kind, overhead: nat, chunk: seq<Byte>,
                               bstarts: seq<int>, src: seq<Byte>, b: nat)
    requires p.Valid() && |src| == p.nbytes && b < p.Blocks()
  {
    BlockFits(p, b);
    ReadBlock(p, c, f, kind, overhead, chunk, bstarts, b) == Some(Block(p, src, b))
  }

  lemma RegularBlock(p: Plan, c: Codec, f: Filters, src: seq<Byte>, b: nat, sts: seq<Stream>, chunk: seq<Byte>,
                     bstarts: seq<int>, overhead: nat)
    requires p.Valid() && f.Sound() && |src| == p.nbytes && b < p.Blocks() == |bstarts|
             && BlockStreams(p, c, f, src, b, sts)
    requires BlockAt(sts, chunk, bstarts[b], |chunk|)
    ensures BlockDecodes(p, c, f, Regular, overhead, chunk, bstarts, src, b)
  {
    BlockFits(p, b);
    var s, k, at := f.forward(Block(p, src, b)), p.Streams(b), bstarts[b];
    var n := |s| / k;
    assert Times(k, n) == |s| by {
      BlockParts(p, b, s);
    }
    hide Flat, ReadStreams, Times, StreamsOf, Fit, Plan.Size, Plan.Streams;
    NotEmptyFlat(sts);
    BlockRoundTrip(c, sts, s, n, k, chunk, at);
    assert s[..|s|] == s;
  }

  lemma {:induction false} NotEmptyFlat(sts: seq<Stream>)
    requires sts != [] && Fit(sts)
    ensures |Flat(sts)| > 0
  {
  }

  lemma RegularChunk(p: Plan, c: Codec, f: Filters, src: seq<Byte>, all: seq<seq<Stream>>, dest: seq<Byte>,
                     bstarts: seq<int>, first: nat, r: nat, overhead: nat)
    requires p.Valid() && f.Sound() && |src| == p.nbytes && |all| == p.Blocks()
    requires LaidOut(p, c, f, src, all, dest, bstarts, first, r)
    ensures r <= |dest| && Decodes(p, c, f, Regular, overhead, dest[..r], bstarts, src)
  {
    hide Flat, Fit, Plan.Blocks, BlockStreams, BlockAt, BlockDecodes, TotalSize, Filters.Sound;
    forall b | 0 <= b < p.Blocks()
      ensures BlockDecodes(p, c, f, Regular, overhead, dest[..r], bstarts, src, b)
    {
      assert BlockStreams(p, c, f, src, b, all[b]) && BlockAt(all[b], dest, bstarts[b], r);
      BlockAtCut(all[b], dest, bstarts[b], r);
      RegularBlock(p, c, f, src, b, all[b], dest[..r], bstarts, overhead);
    }
  }

  lemma BlockAtCut(sts: seq<Stream>, dest: seq<Byte>, start: int, end: nat)
    requires BlockAt(sts, dest, start, end)
    ensures BlockAt(sts, dest[..end], start, end)
  {
  }

  lemma ZeroDecodes(p: Plan, c: Codec, f: Filters, src: seq<Byte>, overhead: nat, chunk: seq<Byte>, bstarts: seq<int>)
    requires p.Valid() && src == Fill(0, p.nbytes)
    ensures Decodes(p, c, f, SpecialZero, overhead, chunk, bstarts, src)
  {
    hide Plan.Blocks, Plan.Size;
    forall b | 0 <= b < p.Blocks()
      ensures BlockDecodes(p, c, f, SpecialZero, overhead, chunk, bstarts, src, b)
    {
      BlockFits(p, b);
      assert Block(p, src, b) == Fill(0, p.Size(b));
    }
  }

  lemma CopyDecodes(p: Plan, c: Codec, f: Filters, src: seq<Byte>, overhead: nat, chunk: seq<Byte>, bstarts: seq<int>)
    requires p.Valid() && |src| == p.nbytes && |chunk| == overhead + p.nbytes && chunk[overhead..] == src
    ensures Decodes(p, c, f, Memcpyed, overhead, chunk, bstarts, src)
  {
    hide Plan.Blocks, Plan.Size, Times;
    forall b | 0 <= b < p.Blocks()
      ensures BlockDecodes(p, c, f, Memcpyed, overhead, chunk, bstarts, src, b)
    {
      BlockFits(p, b);
      var at := Times(b, p.blocksize);
      SliceOfSlice(chunk, overhead, |chunk|, at, at + p.Size(b));
      assert chunk[overhead..|chunk|] == src;
    }
  }

  /** The loop of `serial_blosc` when the chunk is only copied. */
  method CopyBlocks(p: Plan, src: seq<Byte>, dest: array<Byte>, overhead: nat)
    requires p.Valid() && |src| == p.nbytes && overhead + p.nbytes <= dest.Length
    modifies dest
    ensures dest[overhead..overhead + p.nbytes] == src
    ensures SameAround(dest[..], old(dest[..]), overhead, overhead + p.nbytes)
  {
    hide *;
    BlocksExist(p);
    ghost var was := dest[..];
    SameAroundSelf(was, overhead, overhead + p.nbytes);
    TimesZero(p.blocksize);
    assert dest[overhead..overhead] == src[..0];
    ghost var done: nat := 0;
    for b := 0 to p.Blocks()
      invariant done == (if b == p.Blocks() then p.nbytes else Times(b, p.blocksize)) <= p.nbytes
      invariant dest[overhead..overhead + done] == src[..done]
      invariant SameAround(dest[..], was, overhead, overhead + p.nbytes)
    {
      ghost var before := dest[..];
      done := CopyOne(p, src, dest, overhead, b);
      SameAroundTwice(dest[..], before, was, overhead, overhead, overhead + p.nbytes, overhead + p.nbytes);
    }
  }

  /** One block is copied after those before it. */
  method CopyOne(p: Plan, src: seq<Byte>, dest: array<Byte>, overhead: nat, b: nat) returns (ghost done: nat)
    requires p.Valid() && |src| == p.nbytes && overhead + p.nbytes <= dest.Length && b < p.Blocks()
    requires Times(b, p.blocksize) <= p.nbytes
             && dest[overhead..overhead + Times(b, p.blocksize)] == src[..Times(b, p.blocksize)]
    modifies dest
    ensures done == (if b + 1 == p.Blocks() then p.nbytes else Times(b + 1, p.blocksize)) <= p.nbytes
    ensures dest[overhead..overhead + done] == src[..done]
    ensures SameAround(dest[..], old(dest[..]), overhead, overhead + p.nbytes)
  {
    hide *;
    BlocksExist(p);
    BlockFits(p, b);
    ghost var was := dest[..];
    NextBlock(p, b);
    var at, n := Times(b, p.blocksize), p.Size(b);
    PutAfter(dest, overhead, at, src[at..at + n], src[..at]);
    SameAroundWiden(dest[..], was, overhead + at, overhead + at + n, overhead, overhead + p.nbytes);
    assert src[..at] + src[at..at + n] == src[..at + n];
    done := at + n;
  }

  lemma SameAroundWiden(t: seq<Byte>, was: seq<Byte>, lo': nat, hi': int, lo: nat, hi: int)
    requires SameAround(t, was, lo', hi') && lo <= lo' && hi' <= hi
    ensures SameAround(t, was, lo, hi)
  {
  }

  method PutAfter(dest: array<Byte>, lo: nat, at: nat, part: seq<Byte>, ghost so: seq<Byte>)
    requires lo + at + |part| <= dest.Length && dest[lo..lo + at] == so
    modifies dest
    ensures dest[lo..lo + at + |part|] == so + part
    ensures SameAround(dest[..], old(dest[..]), lo + at, lo + at + |part|)
  {
    ghost var before := dest[..];
    Overwrite(dest, lo + at, part);
    ReplaceMiddle(before, lo + at, part, dest[..]);
    KeepFlat(before, dest[..], lo, at, |part|, dest.Length, so, part);
    assert dest[lo..lo + at + |part|] == dest[..][lo..lo + at + |part|];
  }

  lemma NextBlock(p: Plan, b: nat)
    requires p.Valid() && b < p.Blocks()
    ensures b + 1 < p.Blocks() ==> Times(b, p.blocksize) + p.Size(b) == Times(b + 1, p.blocksize)
    ensures b + 1 == p.Blocks() ==> Times(b, p.blocksize) + p.Size(b) == p.nbytes
  {
  }

  /**
   `blosc_compress_context`: compress the blocks; if they do not fit, copy them; if nothing but zero
   runs came out, keep only the header and mark it.
   */
  method CompressChunk(p: Plan, c: Codec, f: Filters, src: seq<Byte>, memcpyed: bool, dest: array<Byte>,
                       bstarts: array<int>, overhead: nat, destsize: int)
    returns (r: int, kind: Kind)
    requires p.Valid() && c.Sound() && f.Sound() && f.KeepsZeros() && |src| == p.nbytes && bstarts.Length == p.Blocks()
    requires 0 < overhead && overhead + 4 * p.Blocks() <= dest.Length && destsize <= dest.Length
    modifies dest, bstarts
    ensures r > 0 ==> r <= destsize && Decodes(p, c, f, kind, overhead, dest[..r], bstarts[..], src)
    ensures r < 0 ==> !c.Obedient()
    ensures r == 0 ==> destsize < overhead + p.nbytes
    ensures r > 0 && kind == SpecialZero ==> r == overhead && AllZero(p, f, src)
    ensures r > 0 && kind == Regular ==> !AllZero(p, f, src)
    ensures SameAround(dest[..], old(dest[..]), overhead, destsize)
  {
    ghost var was := dest[..];
    var ntbytes, copy := 0, memcpyed;
    ghost var all := [];
    var first := overhead + 4 * p.Blocks();
    hide *;
    SameAroundSelf(was, overhead, destsize);
    if !copy {
      ntbytes, all := CompressBlocks(p, c, f, src, dest, bstarts, first, destsize);
      SameAroundWiden(dest[..], was, first, destsize, overhead, destsize);
      if ntbytes < 0 {
        return ntbytes, Regular;
      }
      copy := ntbytes == 0;
    }
    if copy {
      if p.nbytes + overhead > destsize {
        return 0, Memcpyed;
      }
      ghost var before := dest[..];
      CopyBlocks(p, src, dest, overhead);
      SameAroundTwice(dest[..], before, was, overhead, overhead, overhead + p.nbytes, destsize);
      r := overhead + p.nbytes;
      assert dest[..r][overhead..] == dest[overhead..r];
      CopyDecodes(p, c, f, src, overhead, dest[..r], bstarts[..]);
      return r, Memcpyed;
    }
    LaidOutSize(p, c, f, src, all, dest[..], bstarts[..], first, ntbytes);
    CollapseExact(p, c, f, src, all);
    BlocksExist(p);
    if ntbytes == first + 4 * p.AllStreams() {
      SoundKeepsLength(f);
      ZeroChunk(p, f, src);
      ZeroDecodes(p, c, f, src, overhead, dest[..overhead], bstarts[..]);
      return overhead, SpecialZero;
    }
    RegularChunk(p, c, f, src, all, dest[..], bstarts[..], first, ntbytes, overhead);
    return ntbytes, Regular;
  }

  lemma {:induction false} LaidOutSize(p: Plan, c: Codec, f: Filters, src: seq<Byte>, all: seq<seq<Stream>>,
                                       dest: seq<Byte>, bstarts: seq<int>, first: nat, end: nat)
    requires p.Valid() && LaidOut(p, c, f, src, all, dest, bstarts, first, end)
    ensures BlocksOf(p, c, f, src, all) && (forall b :: 0 <= b < |all| ==> Fit(all[b])) && end == first + TotalSize(all)
  {
  }

  // ---- decompression

  /** One block: the calls of `blosc_d` in `serial_blosc`, and the inverse filters. */
  method DecompressBlock(p: Plan, c: Codec, f: Filters, kind: Kind, overhead: nat, chunk: seq<Byte>,
                         bstarts: seq<int>, b: nat)
    returns (r: Option<seq<Byte>>)
    requires p.Valid() && b < p.Blocks() == |bstarts|
    ensures r == ReadBlock(p, c, f, kind, overhead, chunk, bstarts, b)
  {
    BlockFits(p, b);
    var n := p.Size(b);
    match kind
    case SpecialZero =>
      r := Some(Fill(0, n));
    case Memcpyed =>
      var at := overhead + Times(b, p.blocksize);
      r := if at + n <= |chunk| then Some(chunk[at..at + n]) else None;
    case Regular =>
      r := DecompressRegular(p, c, f, overhead, chunk, bstarts, b);
  }

  method DecompressRegular(p: Plan, c: Codec, f: Filters, ghost overhead: nat, chunk: seq<Byte>, bstarts: seq<int>,
                           b: nat)
    returns (r: Option<seq<Byte>>)
    requires p.Valid() && b < p.Blocks() == |bstarts|
    ensures p.typesize > 0 && r == ReadBlock(p, c, f, Regular, overhead, chunk, bstarts, b)
  {
    hide *;
    BlocksExist(p);
    BlockFits(p, b);
    StreamSizeIs(p, b);
    var n := p.Size(b);
    var tmp := new Byte[n](_ => 0);
    var k := DecodeBlock(c, chunk, bstarts[b], n, p.Streams(b), tmp, 0);
    assert tmp[..][0..] == tmp[..];
    DecodedIs(p, c, f, overhead, chunk, bstarts, b, k, tmp[..]);
    r := if k < 0 then None else Some(f.backward(tmp[..k]));
  }

  lemma StreamSizeIs(p: Plan, b: nat)
    requires p.Valid() && b < p.Blocks()
    ensures p.typesize > 0 && p.Streams(b) > 0 && p.StreamSize(b) == p.Size(b) / p.Streams(b) > 0
  {
  }

  lemma DecodedIs(p: Plan, c: Codec, f: Filters, overhead: nat, chunk: seq<Byte>, bstarts: seq<int>, b: nat, k: int,
                  tmp: seq<Byte>)
    requires p.Valid() && b < |bstarts| && p.StreamSize(b) > 0
    requires bstarts[b] <= 0 || bstarts[b] >= |chunk| ==> k == DATA
    requires 0 < bstarts[b] < |chunk| ==>
      match ReadStreams(c, chunk, bstarts[b], p.StreamSize(b), p.Streams(b))
      case Bad(code) => k == code
      case Good(bytes, _) => k == |bytes| <= |tmp| && tmp[0..k] == bytes
    ensures k <= |tmp| && ReadBlock(p, c, f, Regular, overhead, chunk, bstarts, b) == if k < 0 then None
            else Some(f.backward(tmp[..k]))
  {
    hide ReadStreams, Plan.StreamSize, Plan.Streams;
    if 0 < bstarts[b] < |chunk| {
      BadIsNegative(c, chunk, bstarts[b], p.StreamSize(b), p.Streams(b));
    }
  }

  lemma {:induction false} BadIsNegative(c: Codec, src: seq<Byte>, p: nat, n: nat, k: nat)
    requires p <= |src|
    ensures ReadStreams(c, src, p, n, k).Bad? ==> ReadStreams(c, src, p, n, k).code < 0
  {
    if k > 0 {
      BadIsNegative(c, src, p, n, k - 1);
    }
  }

  /** The block loop of `serial_blosc` for decompression. */
  method DecompressChunk(p: Plan, c: Codec, f: Filters, kind: Kind, overhead: nat, chunk: seq<Byte>,
                         bstarts: seq<int>, ghost src: seq<Byte>)
    returns (ok: bool, out: seq<Byte>)
    requires p.Valid() && |bstarts| == p.Blocks() && |src| == p.nbytes
    ensures Decodes(p, c, f, kind, overhead, chunk, bstarts, src) ==> ok && out == src
    ensures ok <==> forall b :: 0 <= b < p.Blocks() ==> ReadBlock(p, c, f, kind, overhead, chunk, bstarts, b).Some?
  {
    BlocksExist(p);
    hide ReadBlock, Plan.Blocks, Plan.Size, Times, Block, BlockDecodes;
    TimesZero(p.blocksize);
    out := [];
    for b := 0 to p.Blocks()
      invariant forall i :: 0 <= i < b ==> ReadBlock(p, c, f, kind, overhead, chunk, bstarts, i).Some?
      invariant Decodes(p, c, f, kind, overhead, chunk, bstarts, src) ==>
        |out| <= |src| && out == src[..|out|] && |out| == if b == p.Blocks() then p.nbytes else Times(b, p.blocksize)
    {
      var block := DecompressBlock(p, c, f, kind, overhead, chunk, bstarts, b);
      if Decodes(p, c, f, kind, overhead, chunk, bstarts, src) {
        BlockAppends(p, c, f, kind, overhead, chunk, bstarts, src, b);
      }
      if block.None? {
        return false, out;
      }
      out := out + block.value;
    }
    ok := true;
  }

  lemma BlockAppends(p: Plan, c: Codec, f: Filters, kind: Kind, overhead: nat, chunk: seq<Byte>, bstarts: seq<int>,
                     src: seq<Byte>, b: nat)
    requires p.Valid() && |src| == p.nbytes && b < p.Blocks() && Decodes(p, c, f, kind, overhead, chunk, bstarts, src)
    ensures var at := Times(b, p.blocksize);
            var block := ReadBlock(p, c, f, kind, overhead, chunk, bstarts, b);
            && block.Some? && at <= |src| && at + |block.value| <= |src|
              && src[..at] + block.value == src[..at + |block.value|]
            && at + |block.value| == if b + 1 == p.Blocks() then p.nbytes else Times(b + 1, p.blocksize)
  {
    hide ReadBlock, Plan.Blocks, Plan.Size, Times;
    BlockFits(p, b);
    NextBlock(p, b);
    assert BlockDecodes(p, c, f, kind, overhead, chunk, bstarts, src, b);
  }

  /** Compressing a chunk and decompressing it gives it back, for every codec and filter pipeline that is sound. */
  method ChunkRoundTrip(p: Plan, c: Codec, f: Filters, src: seq<Byte>, memcpyed: bool, overhead: nat, destsize: nat)
    returns (r: int, ok: bool, back: seq<Byte>)
    requires p.Valid() && c.Sound() && f.Sound() && f.KeepsZeros() && |src| == p.nbytes && 0 < overhead
    ensures r > 0 ==> r <= destsize && ok && back == src
    ensures r < 0 ==> !c.Obedient()
    ensures r == 0 ==> destsize < overhead + p.nbytes
  {
    BlocksExist(p);
    hide *;
    var room := if destsize < overhead + 4 * p.Blocks() then overhead + 4 * p.Blocks() else destsize;
    var dest := new Byte[room](_ => 0);
    var bstarts := new int[p.Blocks()](_ => 0);
    var kind;
    r, kind := CompressChunk(p, c, f, src, memcpyed, dest, bstarts, overhead, destsize);
    if r <= 0 {
      return r, false, [];
    }
    ok, back := DecompressChunk(p, c, f, kind, overhead, dest[..r], bstarts[..], src);
  }
}
