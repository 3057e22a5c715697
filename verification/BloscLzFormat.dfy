/**
 The BloscLZ stream: what a sequence of tokens means, how it is laid out in bytes, and the
 reference decoder that reads the bytes back (blosc/blosclz.c).
 */
module BloscLzFormat {
  import opened Bytes
  import opened FastCopy

  const MAX_COPY: nat := 32
  const MAX_DISTANCE: nat := 8191
  const MAX_FARDISTANCE: nat := 65535 + MAX_DISTANCE - 1

  /** A literal run, or a copy of `len` bytes from `distance` bytes back. */
  datatype Token = Literals(bytes: seq<Byte>) | Match(len: nat, distance: nat)

  predicate ValidToken(t: Token) {
    match t
    case Literals(bytes) => 1 <= |bytes| <= MAX_COPY
    case Match(len, distance) => 3 <= len && 1 <= distance <= MAX_DISTANCE + 65536
  }

  ghost predicate ValidTokens(ts: seq<Token>) {
    forall i :: 0 <= i < |ts| ==> ValidToken(ts[i])
  }

  // ---- meaning

  /** What one token appends; nothing if it reaches before the start of the output. */
  function Apply(out: seq<Byte>, t: Token): Option<seq<Byte>> {
    match t
    case Literals(bytes) => Some(out + bytes)
    case Match(len, distance) =>
      if 1 <= distance <= |out| then Some(LzCopy(out, distance, len)) else None
  }

  function Expand(out: seq<Byte>, ts: seq<Token>): Option<seq<Byte>>
    decreases |ts|
  {
    if ts == [] then Some(out)
    else match Apply(out, ts[0])
      case None => None
      case Some(next) => Expand(next, ts[1..])
  }

  lemma {:induction false} ExpandAppend(out: seq<Byte>, ts: seq<Token>, t: Token)
    ensures Expand(out, ts + [t]) ==
            match Expand(out, ts) case None => None case Some(mid) => Apply(mid, t)
    decreases |ts|
  {
    if ts == [] {
      assert (ts + [t])[1..] == [];
    } else {
      assert (ts + [t])[1..] == ts[1..] + [t];
      match Apply(out, ts[0])
      case None =>
      case Some(next) => ExpandAppend(next, ts[1..], t);
    }
  }

  lemma {:induction false} ExpandGrows(out: seq<Byte>, ts: seq<Token>)
    requires Expand(out, ts).Some?
    ensures |out| <= |Expand(out, ts).value|
    decreases |ts|
  {
    if ts != [] {
      ExpandGrows(Apply(out, ts[0]).value, ts[1..]);
    }
  }

  // ---- layout

  /** A length beyond the three bits of the control byte: a chain of 255s closed by a smaller byte. */
  function LenChain(n: nat): seq<Byte> {
    if n < 255 then [n] else [255] + LenChain(n - 255)
  }

  /** A match with its biased length (`len - 2`) and biased distance (`distance - 1`). */
  function MatchBytes(len: nat, distance: nat): seq<Byte>
    requires ValidToken(Match(len, distance))
  {
    var l, d := len - 2, distance - 1;
    var head := if l < 7 then l else 7;
    var chain := if l < 7 then [] else LenChain(l - 7);
    if d < MAX_DISTANCE then
      [head * 32 + d / 256] + chain + [d % 256]
    else
      var far := d - MAX_DISTANCE;
      [head * 32 + 31] + chain + [255, far / 256, far % 256]
  }

  function TokenBytes(t: Token): (r: seq<Byte>)
    requires ValidToken(t)
    ensures r != [] && (r[0] < 32 <==> t.Literals?)
  {
    match t
    case Literals(bytes) => [|bytes| - 1] + bytes
    case Match(len, distance) => MatchBytes(len, distance)
  }

  function Serialize(ts: seq<Token>): seq<Byte>
    requires ValidTokens(ts)
  {
    if ts == [] then [] else TokenBytes(ts[0]) + Serialize(ts[1..])
  }

  lemma {:induction false} SerializeAppend(ts: seq<Token>, t: Token)
    requires ValidTokens(ts) && ValidToken(t)
    ensures ValidTokens(ts + [t])
    ensures Serialize(ts + [t]) == Serialize(ts) + TokenBytes(t)
    decreases |ts|
  {
    if ts == [] {
      assert (ts + [t])[1..] == [];
    } else {
      assert (ts + [t])[1..] == ts[1..] + [t];
      SerializeAppend(ts[1..], t);
      assert Serialize(ts + [t]) == TokenBytes(ts[0]) + (Serialize(ts[1..]) + TokenBytes(t));
    }
  }

  /** The first byte of a stream carries the marker bit 5, which the decoder masks off. */
  function Mark(b: Byte): (r: Byte)
    ensures b < 32 ==> r % 32 == b
  {
    if b / 32 % 2 == 1 then b else b + 32
  }

  // ---- reference decoder

  datatype LenCode = LenCode(sum: nat, rest: seq<Byte>)
  datatype MatchCode = MatchCode(len: nat, distance: nat, rest: seq<Byte>)

  /** The chain of length bytes; a byte must remain after it. */
  function ParseLen(rest: seq<Byte>): (r: Option<LenCode>)
    ensures r.Some? ==> 1 <= |r.value.rest| < |rest|
    ensures r.Some? ==> r.value.sum <= 255 * (|rest| - |r.value.rest|)
  {
    if |rest| < 2 then None
    else if rest[0] == 255 then
      match ParseLen(rest[1..])
      case None => None
      case Some(c) => Some(LenCode(255 + c.sum, c.rest))
    else Some(LenCode(rest[0], rest[1..]))
  }

  function ParseMatch(rest: seq<Byte>, ctrl: Byte): (r: Option<MatchCode>)
    requires 32 <= ctrl
    ensures r.Some? ==> |r.value.rest| < |rest|
    ensures r.Some? ==> 1 <= r.value.distance && 3 <= r.value.len <= 9 + 255 * |rest|
  {
    var code := if ctrl / 32 == 7 then ParseLen(rest) else if |rest| < 2 then None else Some(LenCode(0, rest));
    match code
    case None => None
    case Some(LenCode(sum, tail)) =>
      var len, ofs := ctrl / 32 - 1 + sum + 3, ctrl % 32 * 256;
      if tail[0] == 255 && ofs == 31 * 256 then
        if |tail| < 3 then None
        else Some(MatchCode(len, tail[1] * 256 + tail[2] + MAX_DISTANCE + 1, tail[3..]))
      else
        Some(MatchCode(len, ofs + tail[0] + 1, tail[1..]))
  }

  /**
   Decode what follows a control byte.  A stream that ends right after a match drops that
   match, as the decoder does.
   */
  function DecodeFrom(rest: seq<Byte>, ctrl: Byte, out: seq<Byte>, maxout: nat): (r: Option<seq<Byte>>)
    requires |out| <= maxout
    ensures r.Some? ==> |out| <= |r.value| <= maxout && r.value[..|out|] == out
    decreases |rest|, 0
  {
    if ctrl >= 32 then
      match ParseMatch(rest, ctrl)
      case None => None
      case Some(m) => DecodeAfter(m, out, maxout)
    else
      var n := ctrl + 1;
      if |out| + n > maxout || n > |rest| then None
      else if n == |rest| then Some(out + rest)
      else DecodeFrom(rest[n + 1..], rest[n], out + rest[..n], maxout)
  }

  /** Copy a match whose code has been read, then decode what follows it. */
  function DecodeAfter(m: MatchCode, out: seq<Byte>, maxout: nat): (r: Option<seq<Byte>>)
    requires |out| <= maxout && 1 <= m.distance
    ensures r.Some? ==> |out| <= |r.value| <= maxout && r.value[..|out|] == out
    decreases |m.rest|, 1
  {
    if |out| + m.len > maxout || m.distance > |out| then None
    else if m.rest == [] then Some(out)
    else DecodeFrom(m.rest[1..], m.rest[0], LzCopy(out, m.distance, m.len), maxout)
  }

  function Decode(src: seq<Byte>, maxout: nat): (r: Option<seq<Byte>>)
    ensures r.Some? ==> |r.value| <= maxout
  {
    if src == [] then Some([]) else DecodeFrom(src[1..], src[0] % 32, [], maxout)
  }

  // ---- the decoder reads back every well-formed stream

  lemma {:induction false} ParseLenChain(n: nat, tail: seq<Byte>)
    requires tail != []
    ensures ParseLen(LenChain(n) + tail) == Some(LenCode(n, tail))
    decreases n
  {
    if n < 255 {
      assert ([n] + tail)[1..] == tail;
    } else {
      assert (LenChain(n) + tail)[1..] == LenChain(n - 255) + tail;
      ParseLenChain(n - 255, tail);
    }
  }

  lemma ParseNear(l: nat, d: nat, tail: seq<Byte>)
    requires 1 <= l && d < MAX_DISTANCE && tail != []
    ensures var head := if l < 7 then l else 7;
            var chain := if l < 7 then [] else LenChain(l - 7);
            ParseMatch(chain + [d % 256] + tail, head * 32 + d / 256) == Some(MatchCode(l + 2, d + 1, tail))
  {
    var head := if l < 7 then l else 7;
    var chain := if l < 7 then [] else LenChain(l - 7);
    var ctrl := head * 32 + d / 256;
    assert ctrl / 32 == head && ctrl % 32 == d / 256;
    var t := [d % 256] + tail;
    assert chain + [d % 256] + tail == chain + t;
    if l >= 7 { ParseLenChain(l - 7, t); } else { assert chain + t == t; }
    assert t[1..] == tail;
  }

  lemma ParseFar(l: nat, far: nat, tail: seq<Byte>)
    requires 1 <= l && far < 65536 && tail != []
    ensures var head := if l < 7 then l else 7;
            var chain := if l < 7 then [] else LenChain(l - 7);
            ParseMatch(chain + [255, far / 256, far % 256] + tail, head * 32 + 31) ==
            Some(MatchCode(l + 2, far + MAX_DISTANCE + 1, tail))
  {
    var head := if l < 7 then l else 7;
    var chain := if l < 7 then [] else LenChain(l - 7);
    var ctrl, hi, lo := head * 32 + 31, far / 256, far % 256;
    assert ctrl / 32 == head && ctrl % 32 == 31 && hi * 256 + lo == far;
    var t := [255, hi, lo] + tail;
    assert chain + [255, hi, lo] + tail == chain + t;
    if l >= 7 { ParseLenChain(l - 7, t); } else { assert chain + t == t; }
    assert t[3..] == tail;
  }

  /** Near and far distances, short and long lengths: each match code is read back as itself. */
  lemma ParseMatchBytes(len: nat, distance: nat, tail: seq<Byte>)
    requires ValidToken(Match(len, distance)) && tail != []
    ensures var bs := MatchBytes(len, distance);
            bs[0] >= 32 && ParseMatch(bs[1..] + tail, bs[0]) == Some(MatchCode(len, distance, tail))
  {
    hide ParseMatch, LenChain;
    var l, d, bs := len - 2, distance - 1, MatchBytes(len, distance);
    var chain := if l < 7 then [] else LenChain(l - 7);
    if d < MAX_DISTANCE {
      ParseNear(l, d, tail);
      assert bs[1..] == chain + [d % 256];
    } else {
      var far := d - MAX_DISTANCE;
      ParseFar(l, far, tail);
      assert bs[1..] == chain + [255, far / 256, far % 256];
    }
  }

  lemma DecodeLiterals(bytes: seq<Byte>, more: seq<Byte>, out: seq<Byte>, maxout: nat)
    requires 1 <= |bytes| <= MAX_COPY && |out| + |bytes| <= maxout
    ensures DecodeFrom(bytes + more, |bytes| - 1, out, maxout) ==
            if more == [] then Some(out + bytes) else DecodeFrom(more[1..], more[0], out + bytes, maxout)
  {
    var rest, n := bytes + more, |bytes|;
    assert rest[..n] == bytes;
    if more == [] {
      assert rest == bytes;
    } else {
      assert rest[n] == more[0] && rest[n + 1..] == more[1..];
    }
  }

  lemma DecodeMatch(len: nat, distance: nat, more: seq<Byte>, out: seq<Byte>, maxout: nat)
    requires ValidToken(Match(len, distance)) && more != []
    requires distance <= |out| && |out| + len <= maxout
    ensures var bs := MatchBytes(len, distance);
            bs[0] >= 32 &&
            DecodeFrom(bs[1..] + more, bs[0], out, maxout) ==
            DecodeFrom(more[1..], more[0], LzCopy(out, distance, len), maxout)
  {
    ParseMatchBytes(len, distance, more);
  }

  lemma SerializeSplit(ts: seq<Token>, ctrl: Byte, rest: seq<Byte>)
    requires ts != [] && ValidTokens(ts) && [ctrl] + rest == Serialize(ts)
    ensures ValidTokens(ts[1..])
    ensures var first := TokenBytes(ts[0]);
            ctrl == first[0] && rest == first[1..] + Serialize(ts[1..])
  {
    SplitHead(ctrl, rest, TokenBytes(ts[0]), Serialize(ts[1..]));
  }

  lemma SplitHead(ctrl: Byte, rest: seq<Byte>, first: seq<Byte>, more: seq<Byte>)
    requires first != [] && [ctrl] + rest == first + more
    ensures ctrl == first[0] && rest == first[1..] + more
  {
    var all := [ctrl] + rest;
    assert all[0] == ctrl && all[1..] == rest;
  }

  /** A stream that ends in literals decodes to the expansion of its tokens. */
  lemma {:induction false} DecodeTokens(ts: seq<Token>, rest: seq<Byte>, ctrl: Byte, out: seq<Byte>, maxout: nat)
    requires ts != [] && ValidTokens(ts) && ts[|ts| - 1].Literals?
    requires [ctrl] + rest == Serialize(ts)
    requires Expand(out, ts).Some? && |out| <= |Expand(out, ts).value| <= maxout
    ensures DecodeFrom(rest, ctrl, out, maxout) == Expand(out, ts)
    decreases |ts|
  {
    SerializeSplit(ts, ctrl, rest);
    var more, next := Serialize(ts[1..]), Apply(out, ts[0]).value;
    ExpandGrows(next, ts[1..]);
    if |ts| > 1 {
      assert more == [more[0]] + more[1..];
      DecodeTokens(ts[1..], more[1..], more[0], next, maxout);
    }
    match ts[0]
    case Literals(bytes) => DecodeLiterals(bytes, more, out, maxout);
    case Match(len, distance) => DecodeMatch(len, distance, more, out, maxout);
  }

  /** The layout with its marker is decoded exactly: the format round trip. */
  lemma DecodeStream(ts: seq<Token>, plain: seq<Byte>, src: seq<Byte>, data: seq<Byte>)
    requires ts != [] && ValidTokens(ts) && ts[0].Literals? && ts[|ts| - 1].Literals?
    requires plain == Serialize(ts) && plain != []
    requires src == [Mark(plain[0])] + plain[1..]
    requires Expand([], ts) == Some(data)
    ensures Decode(src, |data|) == Some(data)
  {
    hide Expand, MatchBytes, DecodeFrom, Serialize;
    assert [plain[0]] + plain[1..] == plain;
    SerializeSplit(ts, plain[0], plain[1..]);
    assert src[0] % 32 == plain[0] && src[1..] == plain[1..];
    DecodeTokens(ts, src[1..], plain[0], [], |data|);
  }
}
