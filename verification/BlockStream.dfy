/**
 The compressed data streams of one block: the stream loops of `blosc_c` and `blosc_d`
 (blosc/blosc2.c) for regular blocks, with an abstract codec.  The format is the part "Compressed
 Data Streams" of the section "Blocks" of the Blosc2 Chunk Format.
 */
module BlockStream {
  import opened Bytes
  import opened Arith
  import opened Seqs

  // ---- codecs

  /** What a codec returns: a number of bytes, and the bytes it wrote. */
  datatype Reply = Reply(r: int, bytes: seq<Byte>)

  /** A codec: compress into at most so many bytes; decompress to so many bytes. */
  datatype Codec = Codec(encode: (seq<Byte>, nat) -> Reply, decode: (seq<Byte>, nat) -> Option<seq<Byte>>) {
    /** What was compressed decompresses to what it was. */
    ghost predicate Sound() {
      forall s, m :: 0 < encode(s, m).r <= m ==>
        |encode(s, m).bytes| == encode(s, m).r && decode(encode(s, m).bytes, |s|) == Some(s)
    }

    /** The codec keeps to the space it is given and reports no error. */
    ghost predicate Obedient() {
      forall s, m :: 0 <= encode(s, m).r <= m
    }
  }

  // ---- one stream

  datatype Stream = Zeros | Run(value: Byte) | Raw(bytes: seq<Byte>) | Coded(bytes: seq<Byte>)

  function Constant(s: seq<Byte>, v: Byte): (r: bool)
    ensures r <==> forall i :: 0 <= i < |s| ==> s[i] == v
  {
    forall i :: 0 <= i < |s| ==> s[i] == v
  }

  /** The stream stands for these bytes.  A run is always stored as a run. */
  ghost predicate Represents(c: Codec, st: Stream, s: seq<Byte>) {
    && 0 < |s| < 0x8000_0000
    && match st
       case Zeros => Constant(s, 0)
       case Run(v) => v > 0 && Constant(s, v)
       case Raw(b) => b == s && !Constant(s, s[0])
       case Coded(b) => 0 < |b| < |s| && c.decode(b, |s|) == Some(s) && !Constant(s, s[0])
  }

  /** The size field and what follows it. */
  function StreamBytes(st: Stream): (r: seq<Byte>)
    requires st.Raw? || st.Coded? ==> |st.bytes| < 0x8000_0000
    ensures |r| == 4 + PayloadSize(st)
  {
    match st
    case Zeros => I32Bytes(0)
    case Run(v) => I32Bytes(0 - (v as int)) + [1]
    case Raw(b) => I32Bytes(|b|) + b
    case Coded(b) => I32Bytes(|b|) + b
  }

  function PayloadSize(st: Stream): nat {
    match st
    case Zeros => 0
    case Run(_) => 1
    case Raw(b) => |b|
    case Coded(b) => |b|
  }

  // ---- detecting a run

  /** `get_run` (blosc/blosc2.c): words of eight bytes first, then single bytes. */
  method GetRun(s: seq<Byte>, ip: nat, bound: nat) returns (r: bool)
    requires ip < bound <= |s|
    ensures r == Constant(s[ip..bound], s[ip])
  {
    var x, p := s[ip], ip;
    while p + 8 < bound
      invariant ip <= p <= bound && forall i :: ip <= i < p ==> s[i] == x
    {
      if s[p..p + 8] != [x, x, x, x, x, x, x, x] {
        NotRun(s, ip, bound, p);
        return false;
      }
      assert forall i :: p <= i < p + 8 ==> s[i] == s[p..p + 8][i - p];
      p := p + 8;
    }
    while p < bound && s[p] == x
      invariant ip <= p <= bound && forall i :: ip <= i < p ==> s[i] == x
    {
      p := p + 1;
    }
    var t := s[ip..bound];
    assert forall i :: 0 <= i < |t| ==> t[i] == s[ip + i];
    r := p == bound;
    assert !r ==> t[p - ip] != x;
  }

  lemma NotRun(s: seq<Byte>, ip: nat, bound: nat, p: nat)
    requires ip <= p && p + 8 < bound <= |s|
    requires var x := s[ip]; s[p..p + 8] != [x, x, x, x, x, x, x, x]
    ensures !Constant(s[ip..bound], s[ip])
  {
    var x, w, t := s[ip], s[p..p + 8], s[ip..bound];
    if Constant(t, x) {
      forall i | 0 <= i < 8
        ensures w[i] == x
      {
        assert t[p - ip + i] == x;
      }
      EightTimes(w, x);
    }
  }

  lemma EightTimes(w: seq<Byte>, x: Byte)
    requires |w| == 8 && forall i :: 0 <= i < 8 ==> w[i] == x
    ensures w == [x, x, x, x, x, x, x, x]
  {
  }

  // ---- all streams of a block

  /** Part `j` of a block that is cut into parts of `n` bytes. */
  function Part(s: seq<Byte>, n: nat, j: nat): (r: seq<Byte>)
    requires Times(j, n) + n <= |s|
    ensures |r| == n
  {
    s[Times(j, n)..Times(j, n) + n]
  }

  ghost predicate Parts(s: seq<Byte>, n: nat, nstreams: nat) {
    |s| == Times(nstreams, n) && 0 < n < 0x8000_0000
  }

  lemma PartFits(s: seq<Byte>, n: nat, nstreams: nat, j: nat)
    requires Parts(s, n, nstreams) && j < nstreams
    ensures Times(j, n) + n <= |s|
  {
    MulMono(j + 1, nstreams, n);
    MulDistrib(j, 1, n);
  }

  ghost predicate Fit(sts: seq<Stream>) {
    forall j :: 0 <= j < |sts| && (sts[j].Raw? || sts[j].Coded?) ==> |sts[j].bytes| < 0x8000_0000
  }

  /** The streams stand for the first parts of the block. */
  ghost predicate StreamsOf(c: Codec, sts: seq<Stream>, s: seq<Byte>, n: nat, nstreams: nat) {
    && Parts(s, n, nstreams) && |sts| <= nstreams
    && forall j :: 0 <= j < |sts| ==> Times(j, n) + n <= |s| && Represents(c, sts[j], Part(s, n, j))
  }

  /** The bytes of the streams, one after the other. */
  function Flat(sts: seq<Stream>): seq<Byte>
    requires Fit(sts)
  {
    if sts == [] then [] else Flat(sts[..|sts| - 1]) + StreamBytes(sts[|sts| - 1])
  }

  // ---- the size of a block

  /** A block takes at most four bytes for each stream more than it has. */
  lemma {:induction false} BlockBound(c: Codec, sts: seq<Stream>, s: seq<Byte>, n: nat, nstreams: nat)
    requires StreamsOf(c, sts, s, n, nstreams) && Fit(sts)
    ensures 4 * |sts| <= |Flat(sts)| <= Times(|sts|, n) + 4 * |sts|
    ensures |Flat(sts)| == 4 * |sts| <==> forall j :: 0 <= j < |sts| ==> sts[j].Zeros?
  {
    hide *;
    if sts == [] {
      NoFlat(n);
    } else {
      var k := |sts| - 1;
      var init := sts[..k];
      LastStream(c, sts, s, n, nstreams);
      BlockBound(c, init, s, n, nstreams);
      FlatSize(sts);
      PayloadBound(c, sts[k], Part(s, n, k));
      TimesNext(k, |sts|, n);
      assert forall j :: 0 <= j < k ==> init[j] == sts[j];
    }
  }

  lemma NoFlat(n: nat)
    ensures Flat([]) == [] && Times(0, n) == 0
  {
  }

  lemma PayloadBound(c: Codec, st: Stream, part: seq<Byte>)
    requires Represents(c, st, part)
    ensures PayloadSize(st) <= |part| && (PayloadSize(st) == 0 <==> st.Zeros?)
  {
  }

  lemma {:induction false} FlatSize(sts: seq<Stream>)
    requires Fit(sts) && sts != []
    ensures |Flat(sts)| == |Flat(sts[..|sts| - 1])| + 4 + PayloadSize(sts[|sts| - 1])
  {
  }

  /** The size is that of the size fields alone exactly when the block is all zeros. */
  lemma {:induction false} ZeroBlock(c: Codec, sts: seq<Stream>, s: seq<Byte>, n: nat, nstreams: nat)
    requires StreamsOf(c, sts, s, n, nstreams) && Fit(sts) && |sts| == nstreams
    ensures |Flat(sts)| == 4 * nstreams <==> Constant(s, 0)
  {
    hide *;
    BlockBound(c, sts, s, n, nstreams);
    if Constant(s, 0) {
      ZeroStreams(c, sts, s, n, nstreams);
    } else if forall j :: 0 <= j < |sts| ==> sts[j].Zeros? {
      StreamsZero(c, sts, s, n, nstreams);
    }
  }

  lemma ZeroStreams(c: Codec, sts: seq<Stream>, s: seq<Byte>, n: nat, nstreams: nat)
    requires StreamsOf(c, sts, s, n, nstreams) && Constant(s, 0)
    ensures forall j :: 0 <= j < |sts| ==> sts[j].Zeros?
  {
  }

  lemma StreamsZero(c: Codec, sts: seq<Stream>, s: seq<Byte>, n: nat, nstreams: nat)
    requires StreamsOf(c, sts, s, n, nstreams) && |sts| == nstreams && forall j :: 0 <= j < |sts| ==> sts[j].Zeros?
    ensures Constant(s, 0)
  {
    hide Times, Represents, Parts, Part;
    forall i | 0 <= i < |s|
      ensures s[i] == 0
    {
      PartOfByte(s, n, nstreams, i);
      var j := i / n;
      assert Represents(c, sts[j], Part(s, n, j));
      ZeroPart(c, sts[j], Part(s, n, j));
    }
  }

  lemma ZeroPart(c: Codec, st: Stream, part: seq<Byte>)
    requires Represents(c, st, part)
    ensures st.Zeros? <==> Constant(part, 0)
  {
    assert Constant(part, 0) ==> part[0] == 0;
    assert st.Run? ==> part[0] == st.value;
  }

  lemma PartOfByte(s: seq<Byte>, n: nat, nstreams: nat, i: nat)
    requires Parts(s, n, nstreams) && i < |s|
    ensures n > 0 && i / n < nstreams && Times(i / n, n) + n <= |s| && Part(s, n, i / n)[i % n] == s[i]
  {
    var q, r := i / n, i % n;
    DivBelow(i, nstreams, n);
    PartFits(s, n, nstreams, q);
    assert Times(q, n) + r == i;
    PartIndex(s, n, q, r);
  }

  lemma PartIndex(s: seq<Byte>, n: nat, j: nat, r: nat)
    requires Times(j, n) + n <= |s| && r < n
    ensures Part(s, n, j)[r] == s[Times(j, n) + r]
  {
  }

  // ---- encoding

  /** Nothing outside a range of the buffer changed. */
  ghost predicate SameAround(t: seq<Byte>, was: seq<Byte>, lo: nat, hi: int) {
    |t| == |was| && forall i :: 0 <= i < |t| && (i < lo || hi <= i) ==> t[i] == was[i]
  }

  /** Write one stream. */
  method PutStream(st: Stream, dest: array<Byte>, at: nat, room: int)
    requires (st.Raw? || st.Coded? ==> |st.bytes| < 0x8000_0000) && |StreamBytes(st)| <= room
             && at + room <= dest.Length
    modifies dest
    ensures dest[at..at + |StreamBytes(st)|] == StreamBytes(st)
    ensures SameAround(dest[..], old(dest[..]), at, at + room)
  {
    var b := StreamBytes(st);
    hide StreamBytes;
    ghost var was := dest[..];
    Overwrite(dest, at, b);
    ReplaceMiddle(was, at, b, dest[..]);
    assert dest[at..at + |b|] == dest[..][at..at + |b|];
  }

  // error codes
  const DATA := -3
  const READ_BUFFER := -5
  const WRITE_BUFFER := -6
  const RUN_LENGTH := -17

  /**
   How `blosc_c` stores one part of a block in `room` bytes.  Returns 1 and the stream, 0 if there is
   no room, a negative code if the codec misbehaves.
   */
  method ChooseStream(c: Codec, src: seq<Byte>, ip: nat, bound: nat, room: int) returns (r: int, st: Stream)
    requires c.Sound() && ip < bound <= |src| && bound - ip < 0x8000_0000
    ensures r > 0 ==> Represents(c, st, src[ip..bound]) && 4 + PayloadSize(st) <= room
    ensures r == 0 ==> room < 4 + (bound - ip)
    ensures r < 0 ==> !c.Obedient()
  {
    var s := src[ip..bound];
    var run := GetRun(src, ip, bound);
    if run {
      if room < 4 || (s[0] > 0 && room < 5) {
        return 0, Zeros;
      }
      return 1, if s[0] == 0 then Zeros else Run(s[0]);
    }
    var maxout := |s|;
    if 4 + maxout > room {
      maxout := room - 4;
      if maxout <= 0 {
        return 0, Zeros;
      }
    }
    var reply := c.encode(s, maxout);
    if reply.r > maxout {
      return WRITE_BUFFER, Zeros;
    }
    if reply.r < 0 {
      return DATA, Zeros;
    }
    var cbytes := if reply.r == 0 then |s| else reply.r;
    if cbytes == |s| {
      if 4 + |s| > room {
        return 0, Zeros;
      }
      return 1, Raw(s);
    }
    return 1, Coded(reply.bytes);
  }

  /** The streams written so far, and what is left of the buffer. */
  ghost predicate Written(c: Codec, sts: seq<Stream>, s: seq<Byte>, n: nat, nstreams: nat,
                          t: seq<Byte>, was: seq<Byte>, at: nat, r: nat, room: int) {
    && StreamsOf(c, sts, s, n, nstreams) && Fit(sts) && r == |Flat(sts)| && (sts != [] ==> r <= room)
    && at + r <= |t| && t[at..at + r] == Flat(sts) && SameAround(t, was, at, at + room)
  }

  lemma {:induction false} WrittenNone(c: Codec, s: seq<Byte>, n: nat, nstreams: nat, t: seq<Byte>, at: nat, room: int)
    requires Parts(s, n, nstreams) && at <= |t|
    ensures Written(c, [], s, n, nstreams, t, t, at, 0, room)
  {
  }

  lemma {:induction false} WrittenMore(c: Codec, sts: seq<Stream>, st: Stream, s: seq<Byte>, n: nat, nstreams: nat,
                    t': seq<Byte>, t: seq<Byte>, was: seq<Byte>, at: nat, r: nat, room: int)
    requires Written(c, sts, s, n, nstreams, t, was, at, r, room) && |sts| < nstreams && Times(|sts|, n) + n <= |s|
    requires Represents(c, st, s[Times(|sts|, n)..Times(|sts|, n) + n])
             && (st.Raw? || st.Coded? ==> |st.bytes| < 0x8000_0000)
    requires r + |StreamBytes(st)| <= room && at + room <= |t'|
    requires SameAround(t', t, at + r, at + room) && t'[at + r..at + r + |StreamBytes(st)|] == StreamBytes(st)
    ensures Written(c, sts + [st], s, n, nstreams, t', was, at, r + |StreamBytes(st)|, room)
  {
    MoreStreams(c, sts, st, s, n, nstreams);
    assert SameAround(t', was, at, at + room);
    hide Flat, StreamBytes, Times, Represents, StreamsOf, Fit;
    KeepFlat(t, t', at, r, |StreamBytes(st)|, room, Flat(sts), StreamBytes(st));
  }

  /** One turn of the loop of `blosc_c`. */
  method EncodeNext(c: Codec, s: seq<Byte>, n: nat, ghost nstreams: nat, j: nat, dest: array<Byte>, at: nat, r: nat,
                    room: int, ghost sts: seq<Stream>, ghost was: seq<Byte>)
    returns (k: int, ghost more: seq<Stream>)
    requires c.Sound() && j == |sts| < nstreams && at <= dest.Length && at + room <= dest.Length
    requires Written(c, sts, s, n, nstreams, dest[..], was, at, r, room)
    modifies dest
    ensures k > 0 ==> |more| == j + 1 && Written(c, more, s, n, nstreams, dest[..], was, at, r + k, room)
    ensures k == 0 ==> room < |s| + 4 * nstreams
    ensures k < 0 ==> !c.Obedient()
    ensures k <= 0 ==> dest[..] == old(dest[..])
  {
    hide *;
    WrittenParts(c, sts, s, n, nstreams, dest[..], was, at, r, room);
    var code: int, st := ChooseStream(c, s, Times(j, n), Times(j, n) + n, room - r);
    if code <= 0 {
      NoRoom(c, sts, s, n, nstreams, room);
      return code, sts;
    }
    RepresentsFits(c, st, s[Times(j, n)..Times(j, n) + n]);
    ghost var before := dest[..];
    PutStream(st, dest, at + r, room - r);
    WrittenMore(c, sts, st, s, n, nstreams, dest[..], before, was, at, r, room);
    k, more := |StreamBytes(st)|, sts + [st];
  }

  lemma RepresentsFits(c: Codec, st: Stream, part: seq<Byte>)
    requires Represents(c, st, part)
    ensures st.Raw? || st.Coded? ==> |st.bytes| < 0x8000_0000
    ensures |StreamBytes(st)| == 4 + PayloadSize(st)
  {
  }

  lemma {:induction false} WrittenParts(c: Codec, sts: seq<Stream>, s: seq<Byte>, n: nat, nstreams: nat,
                     t: seq<Byte>, was: seq<Byte>, at: nat, r: nat, room: int)
    requires Written(c, sts, s, n, nstreams, t, was, at, r, room) && |sts| < nstreams
    ensures StreamsOf(c, sts, s, n, nstreams) && Fit(sts) && r == |Flat(sts)|
    ensures 0 < n < 0x8000_0000 && Times(|sts|, n) + n <= |s|
  {
    PartFits(s, n, nstreams, |sts|);
  }

  /** The stream loop of `blosc_c`.  `ntbytes` of the `destsize` bytes of the output are used already. */
  method EncodeBlock(c: Codec, s: seq<Byte>, nstreams: nat, dest: array<Byte>, at: nat, ntbytes: int, destsize: int)
    returns (r: int, ghost sts: seq<Stream>)
    requires c.Sound() && nstreams > 0 && Parts(s, |s| / nstreams, nstreams)
    requires at <= dest.Length && at + (destsize - ntbytes) <= dest.Length
    modifies dest
    ensures r > 0 ==>
            |sts| == nstreams && Written(c, sts, s, |s| / nstreams, nstreams, dest[..], old(dest[..]), at, r,
            destsize - ntbytes)
    ensures r == 0 ==> destsize - ntbytes < |s| + 4 * nstreams
    ensures r < 0 ==> !c.Obedient()
    ensures SameAround(dest[..], old(dest[..]), at, at + (destsize - ntbytes))
  {
    hide *;
    var n, room := |s| / nstreams, destsize - ntbytes;
    var ctbytes: nat := 0;
    sts := [];
    WrittenNone(c, s, n, nstreams, dest[..], at, room);
    var j := 0;
    while j < nstreams
      invariant 0 <= j <= nstreams && |sts| == j && (j > 0 ==> ctbytes > 0)
      invariant Written(c, sts, s, n, nstreams, dest[..], old(dest[..]), at, ctbytes, room)
    {
      var k: int;
      ghost var more;
      k, more := EncodeNext(c, s, n, nstreams, j, dest, at, ctbytes, room, sts, old(dest[..]));
      if k <= 0 {
        WrittenAround(c, sts, s, n, nstreams, dest[..], old(dest[..]), at, ctbytes, room);
        return k, sts;
      }
      sts, ctbytes, j := more, ctbytes + k, j + 1;
    }
    WrittenAround(c, sts, s, n, nstreams, dest[..], old(dest[..]), at, ctbytes, room);
    r := ctbytes;
  }

  lemma {:induction false} WrittenAround(c: Codec, sts: seq<Stream>, s: seq<Byte>, n: nat, nstreams: nat,
                      t: seq<Byte>, was: seq<Byte>, at: nat, r: nat, room: int)
    requires Written(c, sts, s, n, nstreams, t, was, at, r, room)
    ensures SameAround(t, was, at, at + room)
  {
  }

  lemma {:induction false} NoRoom(c: Codec, sts: seq<Stream>, s: seq<Byte>, n: nat, nstreams: nat, room: int)
    requires StreamsOf(c, sts, s, n, nstreams) && Fit(sts) && |sts| < nstreams
    ensures room - |Flat(sts)| < 4 + n ==> room < |s| + 4 * nstreams
  {
    BlockBound(c, sts, s, n, nstreams);
    PartFits(s, n, nstreams, |sts|);
  }

  lemma {:induction false} MoreStreams(c: Codec, sts: seq<Stream>, st: Stream, s: seq<Byte>, n: nat, nstreams: nat)
    requires StreamsOf(c, sts, s, n, nstreams) && Fit(sts) && |sts| < nstreams && Times(|sts|, n) + n <= |s|
    requires Represents(c, st, s[Times(|sts|, n)..Times(|sts|, n) + n])
    ensures st.Raw? || st.Coded? ==> |st.bytes| < 0x8000_0000
    ensures StreamsOf(c, sts + [st], s, n, nstreams) && Fit(sts + [st])
            && Flat(sts + [st]) == Flat(sts) + StreamBytes(st)
  {
  }

  /** Writing the next stream after those that are there. */
  lemma KeepFlat(was: seq<Byte>, t: seq<Byte>, at: nat, r: nat, k: nat, room: int, flat: seq<Byte>, more: seq<Byte>)
    requires |t| == |was| && at + r + k <= |t| && was[at..at + r] == flat && t[at + r..at + r + k] == more
    requires SameAround(t, was, at + r, at + room)
    ensures t[at..at + r + k] == flat + more
  {
  }

  // ---- decoding

  /** A stream that was read and the position after it, or an error code. */
  datatype Read = Bad(code: int) | Good(bytes: seq<Byte>, next: nat)

  function Fill(v: Byte, n: nat): (r: seq<Byte>)
    ensures |r| == n && forall i :: 0 <= i < n ==> r[i] == v
  {
    seq(n, _ => v)
  }

  /** One stream of `n` bytes, read at position `p`. */
  function ReadStream(c: Codec, src: seq<Byte>, p: nat, n: nat): (r: Read)
    requires p <= |src|
    ensures r.Good? ==> |r.bytes| == n && p < r.next <= |src|
  {
    if |src| - p < 4 then Bad(READ_BUFFER)
    else ReadBody(c, src, p + 4, ReadI32(src, p), n)
  }

  function ReadBody(c: Codec, src: seq<Byte>, p: nat, size: int, n: nat): (r: Read)
    requires p <= |src|
    ensures r.Good? ==> |r.bytes| == n && p <= r.next <= |src|
  {
    if size > |src| - p then Bad(READ_BUFFER)
    else if size == 0 then Good(Fill(0, n), p)
    else if size < 0 then
      if |src| - p < 1 then Bad(READ_BUFFER)
      else if src[p] % 2 == 1 && size >= -255 then Good(Fill(-size, n), p + 1)
      else Bad(RUN_LENGTH)
    else if size == n then Good(src[p..p + n], p + n)
    else match c.decode(src[p..p + size], n)
      case Some(x) => if |x| == n then Good(x, p + size) else Bad(DATA)
      case None => Bad(DATA)
  }

  /** The first `k` streams, read at position `p`: the reference decoder of a block. */
  function ReadStreams(c: Codec, src: seq<Byte>, p: nat, n: nat, k: nat): (r: Read)
    requires p <= |src|
    ensures r.Good? ==> |r.bytes| == Times(k, n) && p <= r.next <= |src|
  {
    if k == 0 then Good([], p)
    else
      var init := ReadStreams(c, src, p, n, k - 1);
      if init.Bad? then init
      else
        var last := ReadStream(c, src, init.next, n);
        MulDistrib(k - 1, 1, n);
        if last.Bad? then last else Good(init.bytes + last.bytes, last.next)
  }

  lemma {:induction false} BadStays(c: Codec, src: seq<Byte>, p: nat, n: nat, j: nat, k: nat)
    requires p <= |src| && j <= k && ReadStreams(c, src, p, n, j).Bad?
    ensures ReadStreams(c, src, p, n, k) == ReadStreams(c, src, p, n, j)
  {
    if j < k {
      BadStays(c, src, p, n, j, k - 1);
    }
  }

  /** Reading a stream gives back the part of the block that it stands for. */
  lemma ReadBack(c: Codec, st: Stream, part: seq<Byte>, src: seq<Byte>, p: nat)
    requires Represents(c, st, part) && (st.Raw? || st.Coded? ==> |st.bytes| < 0x8000_0000)
    requires p + |StreamBytes(st)| <= |src| && src[p..p + |StreamBytes(st)|] == StreamBytes(st)
    ensures ReadStream(c, src, p, |part|) == Good(part, p + |StreamBytes(st)|)
  {
    hide *;
    var b, size := StreamBytes(st), SizeField(st);
    StreamLayout(st);
    SliceOfSlice(src, p, p + |b|, 0, 4);
    SliceOfSlice(src, p, p + |b|, 4, |b|);
    I32RoundTrip(size, src, p);
    BodyBack(c, st, part, src, p + 4);
    SizeThenBody(c, src, p, |part|);
  }

  lemma StreamLayout(st: Stream)
    requires st.Raw? || st.Coded? ==> |st.bytes| < 0x8000_0000
    ensures |StreamBytes(st)| == 4 + PayloadSize(st)
    ensures StreamBytes(st)[0..4] == I32Bytes(SizeField(st)) && StreamBytes(st)[4..|StreamBytes(st)|] == Payload(st)
  {
  }

  lemma SizeThenBody(c: Codec, src: seq<Byte>, p: nat, n: nat)
    requires p + 4 <= |src|
    ensures ReadStream(c, src, p, n) == ReadBody(c, src, p + 4, ReadI32(src, p), n)
  {
  }

  function SizeField(st: Stream): (r: int)
    requires st.Raw? || st.Coded? ==> |st.bytes| < 0x8000_0000
    ensures -0x8000_0000 <= r < 0x8000_0000
  {
    match st
    case Zeros => 0
    case Run(v) => 0 - (v as int)
    case Raw(b) => |b|
    case Coded(b) => |b|
  }

  function Payload(st: Stream): (r: seq<Byte>)
    ensures |r| == PayloadSize(st)
  {
    match st
    case Zeros => []
    case Run(_) => [1]
    case Raw(b) => b
    case Coded(b) => b
  }

  lemma BodyBack(c: Codec, st: Stream, part: seq<Byte>, src: seq<Byte>, p: nat)
    requires Represents(c, st, part) && (st.Raw? || st.Coded? ==> |st.bytes| < 0x8000_0000)
    requires p + PayloadSize(st) <= |src| && src[p..p + PayloadSize(st)] == Payload(st)
    ensures ReadBody(c, src, p, SizeField(st), |part|) == Good(part, p + PayloadSize(st))
  {
  }

  /** Reading the streams of a block gives back the block. */
  lemma {:induction false} BlockRoundTrip(c: Codec, sts: seq<Stream>, s: seq<Byte>, n: nat, nstreams: nat,
                                          src: seq<Byte>, p: nat)
    requires StreamsOf(c, sts, s, n, nstreams) && Fit(sts)
    requires p + |Flat(sts)| <= |src| && src[p..p + |Flat(sts)|] == Flat(sts)
    ensures Times(|sts|, n) <= |s| && ReadStreams(c, src, p, n, |sts|) == Good(s[..Times(|sts|, n)], p + |Flat(sts)|)
  {
    hide *;
    if sts == [] {
      EmptyFlat(c, src, p, n);
    } else {
      var k := |sts| - 1;
      var init, st := sts[..k], sts[k];
      LastStream(c, sts, s, n, nstreams);
      FlatTail(sts, init, st, src, p);
      BlockRoundTrip(c, init, s, n, nstreams, src, p);
      ReadBack(c, st, Part(s, n, k), src, p + |Flat(init)|);
      NextStream(c, src, p, n, k, s[..Times(k, n)], p + |Flat(init)|);
      NextPart(s, n, k);
    }
  }

  lemma EmptyFlat(c: Codec, src: seq<Byte>, p: nat, n: nat)
    requires p <= |src|
    ensures Flat([]) == [] && Times(0, n) == 0 && ReadStreams(c, src, p, n, 0) == Good([], p)
  {
  }

  lemma {:induction false} LastStream(c: Codec, sts: seq<Stream>, s: seq<Byte>, n: nat, nstreams: nat)
    requires sts != [] && StreamsOf(c, sts, s, n, nstreams) && Fit(sts)
    ensures var k := |sts| - 1;
            && StreamsOf(c, sts[..k], s, n, nstreams) && Fit(sts[..k])
            && (sts[k].Raw? || sts[k].Coded? ==> |sts[k].bytes| < 0x8000_0000)
            && Times(k, n) + n <= |s| && Represents(c, sts[k], Part(s, n, k))
  {
  }

  lemma NextPart(s: seq<Byte>, n: nat, k: nat)
    requires Times(k, n) + n <= |s|
    ensures Times(k + 1, n) == Times(k, n) + n && s[..Times(k, n)] + Part(s, n, k) == s[..Times(k + 1, n)]
  {
  }

  lemma {:induction false} FlatTail(sts: seq<Stream>, init: seq<Stream>, st: Stream, src: seq<Byte>, p: nat)
    requires sts != [] && init == sts[..|sts| - 1] && st == sts[|sts| - 1] && Fit(sts) && Fit(init)
    requires st.Raw? || st.Coded? ==> |st.bytes| < 0x8000_0000
    requires p + |Flat(sts)| <= |src| && src[p..p + |Flat(sts)|] == Flat(sts)
    ensures |Flat(sts)| == |Flat(init)| + |StreamBytes(st)| && src[p..p + |Flat(init)|] == Flat(init)
    ensures src[p + |Flat(init)|..p + |Flat(init)| + |StreamBytes(st)|] == StreamBytes(st)
  {
    hide *;
    FlatSplit(sts, init, st);
    SliceAppend(src, p, Flat(init), StreamBytes(st));
  }

  lemma {:induction false} FlatSplit(sts: seq<Stream>, init: seq<Stream>, st: Stream)
    requires sts != [] && init == sts[..|sts| - 1] && st == sts[|sts| - 1] && Fit(sts) && Fit(init)
    requires st.Raw? || st.Coded? ==> |st.bytes| < 0x8000_0000
    ensures Flat(sts) == Flat(init) + StreamBytes(st)
  {
  }

  lemma SliceAppend(src: seq<Byte>, p: nat, a: seq<Byte>, b: seq<Byte>)
    requires p + |a| + |b| <= |src| && src[p..p + |a + b|] == a + b
    ensures src[p..p + |a|] == a && src[p + |a|..p + |a| + |b|] == b
  {
    var ab := a + b;
    assert ab[0..|a|] == a && ab[|a|..|ab|] == b;
    SliceOfSlice(src, p, p + |ab|, 0, |a|);
    SliceOfSlice(src, p, p + |ab|, |a|, |ab|);
  }

  /** The sizes of the size field never overlap: equal bytes stand for equal parts. */
  lemma StreamsUnambiguous(c: Codec, a: Stream, b: Stream, s: seq<Byte>, t: seq<Byte>)
    requires Represents(c, a, s) && Represents(c, b, t) && |s| == |t|
    requires a.Raw? || a.Coded? ==> |a.bytes| < 0x8000_0000
    requires b.Raw? || b.Coded? ==> |b.bytes| < 0x8000_0000
    requires StreamBytes(a) == StreamBytes(b)
    ensures s == t
  {
    var x := StreamBytes(a);
    hide StreamBytes;
    assert x[0..|x|] == x;
    ReadBack(c, a, s, x, 0);
    ReadBack(c, b, t, x, 0);
  }

  /** The stream loop of `blosc_d`, from position `offset` of the chunk, into `dest` at `at`. */
  method DecodeBlock(c: Codec, src: seq<Byte>, offset: int, bsize: nat, nstreams: nat, dest: array<Byte>, at: nat)
    returns (r: int)
    requires nstreams > 0 && at + bsize <= dest.Length
    modifies dest
    ensures offset <= 0 || offset >= |src| ==> r == DATA
    ensures 0 < offset < |src| && bsize / nstreams == 0 ==> r == WRITE_BUFFER
    ensures 0 < offset < |src| && bsize / nstreams > 0 ==>
      match ReadStreams(c, src, offset, bsize / nstreams, nstreams)
      case Bad(code) => r == code
      case Good(bytes, _) => r == |bytes| <= bsize && dest[at..at + r] == bytes
    ensures SameAround(dest[..], old(dest[..]), at, at + bsize)
  {
    if offset <= 0 || offset >= |src| {
      return DATA;
    }
    var n := bsize / nstreams;
    if n == 0 {
      return WRITE_BUFFER;
    }
    assert Times(nstreams, n) <= bsize;
    r := DecodeLoop(c, src, offset, n, nstreams, dest, at, bsize);
  }

  method DecodeLoop(c: Codec, src: seq<Byte>, offset: nat, n: nat, nstreams: nat, dest: array<Byte>, at: nat,
                    ghost bsize: nat)
    returns (r: int)
    requires at + bsize <= dest.Length && Times(nstreams, n) <= bsize && offset <= |src|
    modifies dest
    ensures match ReadStreams(c, src, offset, n, nstreams)
      case Bad(code) => r == code
      case Good(bytes, _) => r == |bytes| <= bsize && dest[at..at + r] == bytes
    ensures SameAround(dest[..], old(dest[..]), at, at + bsize)
  {
    hide *;
    NoStreams(c, src, offset, n);
    TimesZero(n);
    SameAroundSelf(dest[..], at, at + bsize);
    var p: nat, done: nat := offset, 0;
    for j := 0 to nstreams
      invariant offset <= p <= |src| && done == Times(j, n) <= bsize
      invariant ReadStreams(c, src, offset, n, j) == Good(dest[at..at + done], p)
      invariant SameAround(dest[..], old(dest[..]), at, at + bsize)
    {
      TimesNext(j, nstreams, n);
      NextStream(c, src, offset, n, j, dest[at..at + done], p);
      var read := ReadStream(c, src, p, n);
      if read.Bad? {
        BadStays(c, src, offset, n, j + 1, nstreams);
        return read.code;
      }
      Append(dest, at, done, read.bytes, bsize, old(dest[..]));
      p, done := read.next, done + n;
    }
    r := done;
  }

  lemma SameAroundSelf(t: seq<Byte>, lo: nat, hi: int)
    ensures SameAround(t, t, lo, hi)
  {
  }

  /** Put bytes after those that are there. */
  method Append(dest: array<Byte>, at: nat, done: nat, more: seq<Byte>, ghost bsize: nat, ghost was: seq<Byte>)
    requires at + bsize <= dest.Length && done + |more| <= bsize && SameAround(dest[..], was, at, at + bsize)
    modifies dest
    ensures dest[at..at + done + |more|] == old(dest[at..at + done]) + more
    ensures SameAround(dest[..], was, at, at + bsize)
  {
    ghost var before := dest[..];
    Overwrite(dest, at + done, more);
    ReplaceMiddle(before, at + done, more, dest[..]);
    KeepFlat(before, dest[..], at, done, |more|, bsize, before[at..at + done], more);
    assert dest[at..at + done + |more|] == dest[..][at..at + done + |more|];
    assert before[at..at + done] == old(dest[at..at + done]);
  }

  lemma NoStreams(c: Codec, src: seq<Byte>, p: nat, n: nat)
    requires p <= |src|
    ensures ReadStreams(c, src, p, n, 0) == Good([], p)
  {
  }

  lemma NextStream(c: Codec, src: seq<Byte>, p: nat, n: nat, j: nat, done: seq<Byte>, next: nat)
    requires p <= |src| && next <= |src| && ReadStreams(c, src, p, n, j) == Good(done, next)
    ensures ReadStreams(c, src, p, n, j + 1) ==
            match ReadStream(c, src, next, n) case Bad(e) => Bad(e) case Good(b, q) => Good(done + b, q)
  {
  }

  lemma TimesZero(n: nat)
    ensures Times(0, n) == 0
  {
  }

  lemma TimesNext(j: nat, k: nat, n: nat)
    requires j < k
    ensures Times(j + 1, n) == Times(j, n) + n <= Times(k, n)
  {
  }
}
