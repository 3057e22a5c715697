/**
 Reading a range of items out of a regular chunk: the block loop of `_blosc_getitem`
 (blosc/blosc2.c), including its shortcut for a request that is one whole block.
 */
module GetItem {
  import opened Bytes
  import opened Arith
  import opened Seqs
  import opened BlockStream
  import opened ChunkStream

  const INVALID_PARAM := -12

  /** A request that passed the checks: bytes `start` to `stop` of the chunk. */
  ghost predicate Request(p: Plan, start: nat, stop: nat) {
    p.Valid() && start < stop <= p.nbytes
  }

  /** `get_single_block` as the loop tests it in block `b`: after `startb` was cut to 0. */
  predicate Single(p: Plan, start: nat, stop: nat, b: nat)
    requires p.blocksize > 0 && start <= stop
  {
    start <= Times(b, p.blocksize) && p.Size(b) == stop - start
  }

  /** The request reaches into block `b`. */
  predicate Touches(p: Plan, start: nat, stop: nat, b: nat) {
    Times(b, p.blocksize) < stop && start < Times(b, p.blocksize) + p.blocksize
  }

  /**
   The block after the one where the request starts is decompressed over the start of the
   destination: the request does not start on a block boundary, goes on into the next block, and
   asks for as many bytes as that block has.
   */
  predicate Clobbered(p: Plan, start: nat, stop: nat)
    requires p.blocksize > 0 && start <= stop
  {
    var b := start / p.blocksize + 1;
    start % p.blocksize != 0 && Times(b, p.blocksize) < stop && p.Size(b) == stop - start
  }

  /** What the destination holds after the read. */
  function Fetched(p: Plan, data: seq<Byte>, start: nat, stop: nat): seq<Byte>
    requires p.blocksize > 0 && start <= stop <= |data|
  {
    var b := start / p.blocksize + 1;
    if Clobbered(p, start, stop) && Times(b, p.blocksize) + p.Size(b) <= |data| then Block(p, data, b)
      else data[start..stop]
  }

  // ---- where the shortcut is taken

  /** The shortcut is taken for the block where the request starts exactly when it is that whole block. */
  lemma SingleFirst(p: Plan, start: nat, stop: nat, b: nat)
    requires Request(p, start, stop) && b < p.Blocks() && b == start / p.blocksize
    ensures Single(p, start, stop, b) ==> start == Times(b, p.blocksize) && stop == Times(b, p.blocksize) + p.Size(b)
  {
  }

  /** It is taken for a later block exactly when that block is the next one and the request is clobbered. */
  lemma SingleLater(p: Plan, start: nat, stop: nat, b: nat)
    requires Request(p, start, stop) && b < p.Blocks() && b > start / p.blocksize && Touches(p, start, stop, b)
    ensures Single(p, start, stop, b) <==> Clobbered(p, start, stop) && b == start / p.blocksize + 1
  {
    var q, r, v := start / p.blocksize, start % p.blocksize, p.blocksize;
    assert start == Times(q, v) + r;
    BlockFits(p, b);
    MulMono(q + 1, b, v);
    MulDistrib(q, 1, v);
    if b > q + 1 {
      MulMono(q + 2, b, v);
      MulDistrib(q, 2, v);
    }
  }

  /** A clobbered request ends in the next block. */
  lemma ClobberedEnds(p: Plan, start: nat, stop: nat)
    requires Request(p, start, stop) && Clobbered(p, start, stop)
    ensures var b := start / p.blocksize + 1;
            b < p.Blocks() && Times(b, p.blocksize) + p.Size(b) <= p.nbytes
              && stop < Times(b, p.blocksize) + p.blocksize
  {
    var b, q, v := start / p.blocksize + 1, start / p.blocksize, p.blocksize;
    hide Plan.Size;
    NextBlockExists(p, b, stop);
    BlockFits(p, b);
    assert start == Times(q, v) + start % v;
    MulDistrib(q, 1, v);
  }

  /** A block that starts before the end of the chunk is one of its blocks. */
  lemma NextBlockExists(p: Plan, b: nat, stop: nat)
    requires p.Valid() && Times(b, p.blocksize) < stop <= p.nbytes
    ensures b < p.Blocks()
  {
  }

  // ---- the loop

  /** How many bytes have been fetched when the loop comes to block `b`. */
  function Progress(p: Plan, start: nat, stop: nat, b: nat): nat
    requires start <= stop
  {
    var at := Times(b, p.blocksize);
    if at <= start then 0 else if at < stop then at - start else stop - start
  }

  /** The destination when the loop comes to block `b`. */
  ghost predicate Fetching(p: Plan, data: seq<Byte>, start: nat, stop: nat, b: nat, dest: seq<Byte>, was: seq<Byte>)
    requires Request(p, start, stop) && |data| == p.nbytes
  {
    var n := Progress(p, start, stop, b);
    && |dest| == |was| && stop - start <= |dest| && n <= stop - start
    && dest[..n] == (if n == stop - start then Fetched(p, data, start, stop) else data[start..start + n])
    && dest[stop - start..] == was[stop - start..]
  }

  lemma FetchingStart(p: Plan, data: seq<Byte>, start: nat, stop: nat, dest: seq<Byte>)
    requires Request(p, start, stop) && |data| == p.nbytes && stop - start <= |dest|
    ensures Fetching(p, data, start, stop, 0, dest, dest)
  {
  }

  /** A block before or after the request changes nothing. */
  lemma FetchingSkip(p: Plan, data: seq<Byte>, start: nat, stop: nat, b: nat, dest: seq<Byte>, was: seq<Byte>)
    requires Request(p, start, stop) && |data| == p.nbytes && Fetching(p, data, start, stop, b, dest, was)
    requires !Touches(p, start, stop, b)
    ensures Fetching(p, data, start, stop, b + 1, dest, was)
  {
  }

  /** When the next block starts at or past the end, all bytes have been fetched. */
  lemma FetchingDone(p: Plan, data: seq<Byte>, start: nat, stop: nat, b: nat, dest: seq<Byte>, was: seq<Byte>)
    requires Request(p, start, stop) && |data| == p.nbytes && Fetching(p, data, start, stop, b, dest, was)
    requires Times(b, p.blocksize) >= stop
    ensures |Fetched(p, data, start, stop)| == stop - start && dest[..stop - start] == Fetched(p, data, start, stop)
    ensures |dest| == |was| && dest[stop - start..] == was[stop - start..]
  {
  }

  lemma FetchedSize(p: Plan, data: seq<Byte>, start: nat, stop: nat)
    requires Request(p, start, stop) && |data| == p.nbytes
    ensures |Fetched(p, data, start, stop)| == stop - start
  {
  }

  /** What one block adds, on the normal path. */
  lemma FetchingCopy(p: Plan, data: seq<Byte>, start: nat, stop: nat, b: nat, dest: seq<Byte>, dest': seq<Byte>,
                     was: seq<Byte>, lo: nat, hi: nat, n: nat)
    requires Request(p, start, stop) && |data| == p.nbytes && b < p.Blocks()
             && Fetching(p, data, start, stop, b, dest, was)
    requires Touches(p, start, stop, b) && !Single(p, start, stop, b)
    requires n == Progress(p, start, stop, b) && Range(p, start, stop, b, lo, hi)
    requires n + (hi - lo) <= stop - start && dest' == dest[..n] + data[lo..hi] + dest[n + (hi - lo)..]
    ensures Fetching(p, data, start, stop, b + 1, dest', was)
  {
    hide Times, Plan.Blocks, Plan.Size, Single, Clobbered;
    ProgressNext(p, start, stop, b, lo, hi);
    NotClobbered(p, start, stop, b);
    var n' := Progress(p, start, stop, b + 1);
    assert dest'[..n'] == dest[..n] + data[lo..hi];
    assert data[start..lo] + data[lo..hi] == data[start..hi];
    assert dest'[stop - start..] == dest[stop - start..];
  }

  /** `startb` and `stopb` of block `b`, seen from the chunk. */
  predicate Range(p: Plan, start: nat, stop: nat, b: nat, lo: nat, hi: nat) {
    var at := Times(b, p.blocksize);
    && lo == (if start < at then at else start)
    && hi == (if stop > at + p.blocksize then at + p.blocksize else stop)
  }

  lemma ProgressNext(p: Plan, start: nat, stop: nat, b: nat, lo: nat, hi: nat)
    requires Request(p, start, stop) && Touches(p, start, stop, b) && Range(p, start, stop, b, lo, hi)
    ensures lo == start + Progress(p, start, stop, b) && hi == start + Progress(p, start, stop, b + 1)
            && lo <= hi <= stop
    ensures Progress(p, start, stop, b) < stop - start
  {
  }

  /** On the normal path, either more is to come or the request was never clobbered. */
  lemma NotClobbered(p: Plan, start: nat, stop: nat, b: nat)
    requires Request(p, start, stop) && b < p.Blocks() && Touches(p, start, stop, b) && !Single(p, start, stop, b)
    ensures Progress(p, start, stop, b + 1) == stop - start ==> !Clobbered(p, start, stop)
  {
    var q, v := start / p.blocksize, p.blocksize;
    if Clobbered(p, start, stop) {
      ClobberedEnds(p, start, stop);
      TouchedFrom(p, start, stop, b);
      MulDistrib(b, 1, v);
      if b > q {
        SingleLater(p, start, stop, b);
        MulMono(q + 2, b, v);
        MulDistrib(q + 1, 1, v);
      }
    }
  }

  lemma TouchedFrom(p: Plan, start: nat, stop: nat, b: nat)
    requires p.blocksize > 0 && Touches(p, start, stop, b)
    ensures b >= start / p.blocksize
  {
    var q, v := start / p.blocksize, p.blocksize;
    if b < q {
      MulMono(b + 1, q, v);
      MulDistrib(b, 1, v);
    }
  }

  /** What one block does when it is decompressed straight into the destination. */
  lemma FetchingSingle(p: Plan, data: seq<Byte>, start: nat, stop: nat, b: nat, dest: seq<Byte>, dest': seq<Byte>,
                       was: seq<Byte>)
    requires Request(p, start, stop) && |data| == p.nbytes && b < p.Blocks()
             && Fetching(p, data, start, stop, b, dest, was)
    requires Touches(p, start, stop, b) && Single(p, start, stop, b) && Times(b, p.blocksize) + p.Size(b) <= |data|
    requires dest' == Block(p, data, b) + dest[stop - start..]
    ensures Fetching(p, data, start, stop, b + 1, dest', was)
  {
    SingleFetches(p, data, start, stop, b);
    FetchedSize(p, data, start, stop);
    hide Times, Plan.Blocks, Plan.Size, Single, Clobbered, Fetched, Block, Touches;
    assert dest'[stop - start..] == dest[stop - start..];
    assert dest'[..stop - start] == Block(p, data, b);
  }

  lemma SingleFetches(p: Plan, data: seq<Byte>, start: nat, stop: nat, b: nat)
    requires Request(p, start, stop) && |data| == p.nbytes && b < p.Blocks()
    requires Touches(p, start, stop, b) && Single(p, start, stop, b) && Times(b, p.blocksize) + p.Size(b) <= |data|
    ensures Fetched(p, data, start, stop) == Block(p, data, b) && Progress(p, start, stop, b + 1) == stop - start
  {
    var q := start / p.blocksize;
    TouchedFrom(p, start, stop, b);
    BlockFits(p, b);
    MulDistrib(b, 1, p.blocksize);
    if b == q {
      SingleFirst(p, start, stop, b);
      assert start % p.blocksize == 0;
    } else {
      SingleLater(p, start, stop, b);
      ClobberedEnds(p, start, stop);
    }
  }

  /** One turn of the loop: decompress block `b`, straight into the destination or through a buffer. */
  method GetBlock(p: Plan, c: Codec, f: Filters, overhead: nat, chunk: seq<Byte>, bstarts: seq<int>,
                  ghost data: seq<Byte>,
                  start: nat, stop: nat, b: nat, ntbytes: nat, dest: array<Byte>, ghost was: seq<Byte>)
                    returns (more: nat)
    requires Request(p, start, stop) && |data| == p.nbytes && b < p.Blocks() == |bstarts|
    requires Decodes(p, c, f, Regular, overhead, chunk, bstarts, data)
    requires Touches(p, start, stop, b) && ntbytes == Progress(p, start, stop, b)
    requires Fetching(p, data, start, stop, b, dest[..], was)
    modifies dest
    ensures Fetching(p, data, start, stop, b + 1, dest[..], was) && ntbytes + more == Progress(p, start, stop, b + 1)
  {
    hide *;
    GetBounds(p, data, start, stop, b, dest[..], was);
    var at := Times(b, p.blocksize);
    var startb: nat := if start < at then 0 else start - at;
    var stopb: nat := if stop > at + p.blocksize then p.blocksize else stop - at;
    BlockRange(p, start, stop, b, at + startb, at + stopb);
    ProgressNext(p, start, stop, b, at + startb, at + stopb);
    more := stopb - startb;
    var block := DecompressBlock(p, c, f, Regular, overhead, chunk, bstarts, b);
    ReadBlockIs(p, c, f, overhead, chunk, bstarts, data, b);
    SingleIs(p, start, stop, b);
    if startb == 0 && p.Size(b) == stop - start {
      StoreWhole(p, data, start, stop, b, block.value, dest, was);
    } else {
      StorePart(p, data, start, stop, b, block.value, startb, stopb, ntbytes, dest, was);
    }
  }

  /** The block is the request, or so the test says. */
  method StoreWhole(ghost p: Plan, ghost data: seq<Byte>, ghost start: nat, ghost stop: nat, ghost b: nat,
                    block: seq<Byte>, dest: array<Byte>, ghost was: seq<Byte>)
    requires Request(p, start, stop) && |data| == p.nbytes && b < p.Blocks()
             && Fetching(p, data, start, stop, b, dest[..], was)
    requires Touches(p, start, stop, b) && Single(p, start, stop, b) && Times(b, p.blocksize) + p.Size(b) <= |data|
    requires block == Block(p, data, b) && |block| == stop - start <= dest.Length
    modifies dest
    ensures Fetching(p, data, start, stop, b + 1, dest[..], was)
  {
    hide *;
    ghost var before := dest[..];
    Overwrite(dest, 0, block);
    assert dest[..] == block + before[stop - start..];
    FetchingSingle(p, data, start, stop, b, before, dest[..], was);
  }

  /** The block is only a part of the request, or the request a part of the block. */
  method StorePart(ghost p: Plan, ghost data: seq<Byte>, ghost start: nat, ghost stop: nat, ghost b: nat,
                   block: seq<Byte>, startb: nat, stopb: nat, ntbytes: nat, dest: array<Byte>, ghost was: seq<Byte>)
    requires Request(p, start, stop) && |data| == p.nbytes && b < p.Blocks()
             && Fetching(p, data, start, stop, b, dest[..], was)
    requires Touches(p, start, stop, b) && !Single(p, start, stop, b) && Times(b, p.blocksize) + p.Size(b) <= |data|
    requires block == Block(p, data, b) && startb <= stopb <= |block| && ntbytes == Progress(p, start, stop, b)
    requires Range(p, start, stop, b, Times(b, p.blocksize) + startb, Times(b, p.blocksize) + stopb)
    requires p.blocksize > 0 && ntbytes + (stopb - startb) <= stop - start <= dest.Length
    modifies dest
    ensures Fetching(p, data, start, stop, b + 1, dest[..], was)
  {
    hide *;
    ghost var before := dest[..];
    ghost var at := Times(b, p.blocksize);
    BlockPart(p, data, b, startb, stopb);
    Overwrite(dest, ntbytes, block[startb..stopb]);
    FetchingCopy(p, data, start, stop, b, before, dest[..], was, at + startb, at + stopb, ntbytes);
  }

  lemma GetBounds(p: Plan, data: seq<Byte>, start: nat, stop: nat, b: nat, dest: seq<Byte>, was: seq<Byte>)
    requires Request(p, start, stop) && |data| == p.nbytes && b < p.Blocks() && Touches(p, start, stop, b)
    requires Fetching(p, data, start, stop, b, dest, was)
    ensures p.Valid() && p.blocksize > 0 && start < stop <= p.nbytes && stop - start <= |dest|
    ensures Times(b, p.blocksize) < stop && start < Times(b, p.blocksize) + p.blocksize
    ensures Times(b, p.blocksize) + p.Size(b) <= p.nbytes
    ensures stop <= Times(b, p.blocksize) + p.blocksize ==> stop <= Times(b, p.blocksize) + p.Size(b)
    ensures stop > Times(b, p.blocksize) + p.blocksize ==> p.Size(b) == p.blocksize
  {
    BlockFits(p, b);
  }

  lemma BlockRange(p: Plan, start: nat, stop: nat, b: nat, lo: nat, hi: nat)
    requires var at := Times(b, p.blocksize);
             lo == at + (if start < at then 0 else start - at)
               && hi == (if stop > at + p.blocksize then at + p.blocksize else stop)
    ensures Range(p, start, stop, b, lo, hi)
  {
  }

  lemma SingleIs(p: Plan, start: nat, stop: nat, b: nat)
    requires p.blocksize > 0 && start <= stop
    ensures Single(p, start, stop, b) <==> start <= Times(b, p.blocksize) && p.Size(b) == stop - start
  {
  }

  lemma BlockPart(p: Plan, data: seq<Byte>, b: nat, lo: nat, hi: nat)
    requires p.blocksize > 0 && Times(b, p.blocksize) + p.Size(b) <= |data| && lo <= hi <= p.Size(b)
    ensures Block(p, data, b)[lo..hi] == data[Times(b, p.blocksize) + lo..Times(b, p.blocksize) + hi]
  {
    SliceOfSlice(data, Times(b, p.blocksize), Times(b, p.blocksize) + p.Size(b), lo, hi);
  }

  lemma ReadBlockIs(p: Plan, c: Codec, f: Filters, overhead: nat, chunk: seq<Byte>, bstarts: seq<int>,
                    data: seq<Byte>, b: nat)
    requires p.Valid() && |data| == p.nbytes && b < p.Blocks()
             && Decodes(p, c, f, Regular, overhead, chunk, bstarts, data)
    ensures p.typesize > 0 && Times(b, p.blocksize) + p.Size(b) <= |data|
    ensures ReadBlock(p, c, f, Regular, overhead, chunk, bstarts, b) == Some(Block(p, data, b))
  {
    hide ReadBlock;
    BlockFits(p, b);
    assert BlockDecodes(p, c, f, Regular, overhead, chunk, bstarts, data, b);
  }

  /** The block loop of `_blosc_getitem`. */
  method GetBytes(p: Plan, c: Codec, f: Filters, overhead: nat, chunk: seq<Byte>, bstarts: seq<int>,
                  ghost data: seq<Byte>, start: nat, stop: nat, dest: array<Byte>) returns (r: nat)
    requires Request(p, start, stop) && |data| == p.nbytes && |bstarts| == p.Blocks() && stop - start <= dest.Length
    requires Decodes(p, c, f, Regular, overhead, chunk, bstarts, data)
    modifies dest
    ensures r == stop - start == |Fetched(p, data, start, stop)|
    ensures dest[..r] == Fetched(p, data, start, stop) && dest[r..] == old(dest[r..])
  {
    assert p.Valid() && p.blocksize > 0 && start < stop <= p.nbytes;
    hide *;
    ghost var was := dest[..];
    FetchingStart(p, data, start, stop, dest[..]);
    r := 0;
    ProgressZero(p, start, stop);
    var j := 0;
    while j < p.Blocks()
      invariant 0 <= j <= p.Blocks() && r == Progress(p, start, stop, j)
      invariant Fetching(p, data, start, stop, j, dest[..], was)
    {
      if stop <= Times(j, p.blocksize) {
        break;
      }
      if start < Times(j, p.blocksize) + p.blocksize {
        Touching(p, start, stop, j);
        var more := GetBlock(p, c, f, overhead, chunk, bstarts, data, start, stop, j, r, dest, was);
        r := r + more;
      } else {
        Touching(p, start, stop, j);
        FetchingSkip(p, data, start, stop, j, dest[..], was);
        ProgressSkip(p, start, stop, j);
      }
      j := j + 1;
    }
    LastBlockEnds(p);
    FetchingDone(p, data, start, stop, j, dest[..], was);
    ProgressDone(p, start, stop, j);
    assert was[stop - start..] == old(dest[stop - start..]);
  }

  lemma ProgressZero(p: Plan, start: nat, stop: nat)
    requires start <= stop
    ensures Progress(p, start, stop, 0) == 0
  {
  }

  lemma ProgressSkip(p: Plan, start: nat, stop: nat, b: nat)
    requires start <= stop && start >= Times(b, p.blocksize) + p.blocksize
    ensures Progress(p, start, stop, b) == Progress(p, start, stop, b + 1)
  {
  }

  lemma ProgressDone(p: Plan, start: nat, stop: nat, b: nat)
    requires start < stop <= Times(b, p.blocksize)
    ensures Progress(p, start, stop, b) == stop - start
  {
  }

  lemma Touching(p: Plan, start: nat, stop: nat, b: nat)
    ensures Touches(p, start, stop, b) <==> Times(b, p.blocksize) < stop && start < Times(b, p.blocksize) + p.blocksize
  {
  }

  lemma LastBlockEnds(p: Plan)
    requires p.Valid()
    ensures p.nbytes <= Times(p.Blocks(), p.blocksize)
  {
  }

  /** `_blosc_getitem`: the checks of the request, then the loop. */
  method GetItems(p: Plan, c: Codec, f: Filters, overhead: nat, chunk: seq<Byte>, bstarts: seq<int>,
                  ghost data: seq<Byte>, start: int, nitems: int, dest: array<Byte>, destsize: nat) returns (r: int)
    requires p.Valid() && |data| == p.nbytes && |bstarts| == p.Blocks() && destsize <= dest.Length
    requires Decodes(p, c, f, Regular, overhead, chunk, bstarts, data)
    modifies dest
    ensures nitems == 0 ==> r == 0
    ensures nitems < 0 ==> r == INVALID_PARAM
    ensures nitems > 0 && nitems * p.typesize > destsize ==> r == WRITE_BUFFER
    ensures nitems > 0 && nitems * p.typesize <= destsize &&
            (start < 0 || (start + nitems) * p.typesize > p.nbytes) ==>
              r == INVALID_PARAM
    ensures nitems > 0 && nitems * p.typesize <= destsize && start >= 0 && (start + nitems) * p.typesize <= p.nbytes ==>
              var lo, hi := start * p.typesize, (start + nitems) * p.typesize;
              && 0 <= lo < hi && r == hi - lo <= destsize
              && dest[..r] == Fetched(p, data, lo, hi) && dest[r..] == old(dest[r..])
    ensures r <= 0 ==> dest[..] == old(dest[..])
  {
    if nitems == 0 {
      return 0;
    }
    if nitems < 0 {
      return INVALID_PARAM;
    }
    if nitems * p.typesize > destsize {
      return WRITE_BUFFER;
    }
    MulDistrib(start, nitems, p.typesize);
    if start < 0 || start * p.typesize > p.nbytes {
      return INVALID_PARAM;
    }
    if (start + nitems) * p.typesize > p.nbytes {
      return INVALID_PARAM;
    }
    MulPositive(nitems, p.typesize);
    var lo, hi := start * p.typesize, (start + nitems) * p.typesize;
    assert 0 <= lo < hi;
    r := GetBytes(p, c, f, overhead, chunk, bstarts, data, lo, hi, dest);
  }

  // ---- when the read is right

  /** Data that tell the block boundary at `cut`. */
  function Marked(n: nat, cut: nat): (r: seq<Byte>)
    ensures |r| == n && forall i :: 0 <= i < n ==> r[i] == if i < cut then 1 else 0
  {
    seq(n, i => if i < cut then 1 else 0)
  }

  ghost predicate ReadsRight(p: Plan, start: nat, stop: nat)
    requires Request(p, start, stop)
  {
    forall data: seq<Byte> :: |data| == p.nbytes ==> Fetched(p, data, start, stop) == data[start..stop]
  }

  /** A partial read agrees with full decompression, whatever the data, exactly when it is not clobbered. */
  lemma PartialReadExact(p: Plan, start: nat, stop: nat)
    requires Request(p, start, stop)
    ensures ReadsRight(p, start, stop) <==> !Clobbered(p, start, stop)
  {
    if Clobbered(p, start, stop) {
      ClobberedEnds(p, start, stop);
      var b := start / p.blocksize + 1;
      var data := Marked(p.nbytes, Times(b, p.blocksize));
      assert start < Times(b, p.blocksize) by {
        MulDistrib(start / p.blocksize, 1, p.blocksize);
      }
      BlockFits(p, b);
      assert Fetched(p, data, start, stop)[0] == 0;
      assert data[start..stop][0] == 1;
    }
  }

  /**
   Requests that start on a block boundary, lie in one block, or ask for neither a block nor the
   leftover are right.
   */
  lemma SafeRequests(p: Plan, start: nat, stop: nat)
    requires Request(p, start, stop)
    requires || start % p.blocksize == 0
             || stop <= Times(start / p.blocksize + 1, p.blocksize)
             || (stop - start != p.blocksize && stop - start != p.Leftover())
    ensures !Clobbered(p, start, stop)
  {
  }

  /** A concrete request that is read wrongly: 32 bytes from the middle of the first of two blocks of 32. */
  lemma ClobberedExample()
    ensures Clobbered(Plan(64, 32, 1, false), 16, 48)
    ensures var data := Marked(64, 32); Fetched(Plan(64, 32, 1, false), data, 16, 48) == data[32..64] != data[16..48]
  {
    var data := Marked(64, 32);
    assert data[32..64][0] == 0 && data[16..48][0] == 1;
  }
}
