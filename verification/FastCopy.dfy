/**
 The overlapping copies of blosc/fastcopy.c and `wild_copy` of blosc/blosclz.c.

 The reference is `LzCopy`: append bytes one at a time, each equal to the byte
 `distance` positions back.  Every fast copy works with whole machine words of
 `sz` bytes (8 without vector instructions, 16 with SSE2, 32 with AVX2), some of
 them written twice, and must still leave exactly the bytes of `LzCopy`.
 */
module FastCopy {
  import opened Bytes

  /** Byte-by-byte LZ copy of `len` bytes at `distance`. */
  function LzCopy(out: seq<Byte>, distance: nat, len: nat): (r: seq<Byte>)
    requires 1 <= distance <= |out|
    ensures |r| == |out| + len
    ensures r[..|out|] == out
    ensures forall i :: |out| <= i < |r| ==> r[i] == r[i - distance]
    decreases len
  {
    if len == 0 then out else LzCopy(out + [out[|out| - distance]], distance, len - 1)
  }

  /** The three clauses of `LzCopy` leave one possible result. */
  lemma {:induction false} LzCopyUnique(out: seq<Byte>, distance: nat, len: nat, s: seq<Byte>)
    requires 1 <= distance <= |out|
    requires |s| == |out| + len && s[..|out|] == out
    requires forall i :: |out| <= i < |s| ==> s[i] == s[i - distance]
    ensures s == LzCopy(out, distance, len)
    decreases len
  {
    if len != 0 {
      var next := out + [out[|out| - distance]];
      assert s[|out|] == s[|out| - distance] == out[|out| - distance];
      assert s[..|next|] == next;
      LzCopyUnique(next, distance, len - 1, s);
    }
  }

  /**
   `s` is `orig` after copying at distance `d` from position `o` up to `w`:
   what precedes `o` and what follows `w` is as it was.
   */
  ghost predicate Copied(s: seq<Byte>, orig: seq<Byte>, o: nat, w: nat, d: nat) {
    && |s| == |orig|
    && 1 <= d <= o <= w <= |s|
    && (forall i :: 0 <= i < o ==> s[i] == orig[i])
    && (forall i :: w <= i < |s| ==> s[i] == orig[i])
    && (forall i :: o <= i < w ==> s[i] == s[i - d])
  }

  lemma CopiedIsLzCopy(s: seq<Byte>, orig: seq<Byte>, o: nat, w: nat, d: nat)
    requires Copied(s, orig, o, w, d)
    ensures s[..w] == LzCopy(orig[..o], d, w - o)
  {
    LzCopyUnique(orig[..o], d, w - o, s[..w]);
  }

  /** Within a copied region, equal positions modulo the distance hold equal bytes. */
  lemma {:induction false} CopiedPeriod(s: seq<Byte>, orig: seq<Byte>, o: nat, w: nat, d: nat, x: nat, k: nat)
    requires Copied(s, orig, o, w, d)
    requires o - d <= x && x + k * d < w
    ensures s[x] == s[x + k * d]
    decreases k
  {
    if k > 0 {
      assert x + k * d == x + (k - 1) * d + d;
      CopiedPeriod(s, orig, o, w, d, x, k - 1);
    }
  }

  /** The word that starts `k + 1` periods before `p` holds what the copy wants at `p`. */
  lemma CopiedSource(s: seq<Byte>, orig: seq<Byte>, o: nat, w: nat, d: nat, p: nat, src: nat, n: nat, k: nat)
    requires Copied(s, orig, o, w, d)
    requires o <= p <= w && n <= d && o - d <= src && src + k * d == p - d
    ensures src + n <= p && s[src..src + n] == s[p - d..p - d + n]
  {
    assert k * d >= 0;
    var a, b := s[src..src + n], s[p - d..p - d + n];
    forall j | 0 <= j < n
      ensures a[j] == b[j]
    {
      CopiedPeriod(s, orig, o, w, d, src + j, k);
    }
  }

  /** Storing such a word at `p`, perhaps over bytes already copied, extends the copy. */
  lemma CopiedExtend(s: seq<Byte>, t: seq<Byte>, orig: seq<Byte>, o: nat, w: nat, d: nat, p: nat, n: nat)
    requires Copied(s, orig, o, w, d)
    requires o <= p <= w && p + n <= |s| && n <= d
    requires t == s[..p] + s[p - d..p - d + n] + s[p + n..]
    ensures Copied(t, orig, o, Max(w, p + n), d)
  {
    assert forall i :: 0 <= i < |t| && !(p <= i < p + n) ==> t[i] == s[i];
    forall i | p <= i < p + n
      ensures t[i] == t[i - d]
    {
      assert t[i] == s[p - d..p - d + n][i - p] == s[i - d];
    }
    assert forall i :: p <= i < w ==> t[i] == s[i];
  }

  function Max(a: nat, b: nat): nat {
    if a >= b then a else b
  }

  /** Load `n` bytes at `from`, then store them at `out`: one register copy. */
  method CopyWord(buf: array<Byte>, out: nat, from: nat, n: nat)
    requires from + n <= buf.Length && out + n <= buf.Length
    modifies buf
    ensures buf[..] == old(buf[..out]) + old(buf[from..from + n]) + old(buf[out + n..])
  {
    forall i | out <= i < out + n {
      buf[i] := buf[from + (i - out)];
    }
  }

  /** `copy_1_bytes` .. `copy_32_bytes`: `n` bytes in registers of at most `sz` bytes. */
  method CopyBytes(buf: array<Byte>, out: nat, from: nat, n: nat, sz: nat,
                   ghost orig: seq<Byte>, ghost o: nat, ghost w: nat, ghost d: nat, ghost k: nat)
    requires n in {1, 2, 4, 8, 16, 32} && sz in {8, 16, 32}
    requires Copied(buf[..], orig, o, w, d)
    requires o <= out <= w && out + n <= buf.Length
    requires n <= d || sz <= d
    requires o - d <= from && from + k * d == out - d
    modifies buf
    ensures Copied(buf[..], orig, o, Max(w, out + n), d)
    decreases n
  {
    if n <= sz {
      ghost var before := buf[..];
      CopiedSource(before, orig, o, w, d, out, from, n, k);
      CopyWord(buf, out, from, n);
      CopiedExtend(before, buf[..], orig, o, w, d, out, n);
    } else {
      CopyBytes(buf, out, from, n / 2, sz, orig, o, w, d, k);
      CopyBytes(buf, out + n / 2, from + n / 2, n / 2, sz, orig, o, Max(w, out + n / 2), d, k);
    }
  }

  /** The register copies of `copy_bytes` for fewer than eight bytes. */
  function SmallPieces(len: nat): (r: seq<nat>)
    requires len < 8
    ensures Sum(r) == len && forall i :: 0 <= i < |r| ==> r[i] in {1, 2, 4}
  {
    match len
    case 7 => [1, 2, 4]
    case 6 => [2, 4]
    case 5 => [1, 4]
    case 4 => [4]
    case 3 => [1, 2]
    case 2 => [2]
    case 1 => [1]
    case _ => []
  }

  /** The register copies that `copy_match` unrolls for one period of `d` bytes; none: byte by byte. */
  function PeriodPieces(d: nat): (r: seq<nat>)
    ensures forall i :: 0 <= i < |r| ==> r[i] in {2, 4, 8, 16, 32} && r[i] <= d
    ensures r != [] ==> Sum(r) == d
  {
    match d
    case 32 => [32]
    case 30 => [16, 8, 4, 2]
    case 28 => [16, 8, 4]
    case 26 => [16, 8, 2]
    case 24 => [16, 8]
    case 22 => [16, 4, 2]
    case 20 => [16, 4]
    case 18 => [16, 2]
    case 16 => [16]
    case 8 => [8]
    case 4 => [4]
    case 2 => [2]
    case _ => []
  }

  function Sum(r: seq<nat>): nat {
    if r == [] then 0 else r[0] + Sum(r[1..])
  }

  /** A run of register copies, source and destination advancing together. */
  method CopyPieces(buf: array<Byte>, out: nat, from: nat, pieces: seq<nat>, sz: nat,
                    ghost orig: seq<Byte>, ghost o: nat, ghost d: nat, ghost k: nat)
    requires sz in {8, 16, 32}
    requires forall i :: 0 <= i < |pieces| ==> pieces[i] in {1, 2, 4, 8, 16, 32} && (pieces[i] <= d || sz <= d)
    requires out + Sum(pieces) <= buf.Length
    requires Copied(buf[..], orig, o, out, d)
    requires o - d <= from && from + k * d == out - d
    modifies buf
    ensures Copied(buf[..], orig, o, out + Sum(pieces), d)
    decreases |pieces|
  {
    if pieces != [] {
      CopyBytes(buf, out, from, pieces[0], sz, orig, o, out, d, k);
      CopyPieces(buf, out + pieces[0], from + pieces[0], pieces[1..], sz, orig, o, d, k);
    }
  }

  /**
   `chunk_memcpy`, `chunk_memcpy_16` and `chunk_memcpy_unaligned`: one word of `sz` bytes at
   the start, then whole words from `len % sz` on, so that some bytes are written twice.
   */
  method ChunkMemcpy(buf: array<Byte>, out: nat, from: nat, len: nat, sz: nat)
    requires sz in {8, 16, 32} && sz <= len
    requires from < out && sz <= out - from && out + len <= buf.Length
    modifies buf
    ensures Copied(buf[..], old(buf[..]), out, out + len, out - from)
  {
    ghost var orig, d := buf[..], out - from;
    CopyBytes(buf, out, from, sz, sz, orig, out, out, d, 0);
    var p, q, words := out + len % sz, from + len % sz, len / sz;
    ghost var w := out + sz;
    while words > 0
      invariant 0 <= words && p + words * sz == out + len && q == p - d && out <= p <= w <= p + sz
      invariant words == 0 ==> w == p
      invariant Copied(buf[..], orig, out, w, d)
    {
      CopyBytes(buf, p, q, sz, sz, orig, out, w, d, 0);
      p, q, words := p + sz, q + sz, words - 1;
      w := p;
    }
  }

  /** `fastcopy`, for a distance larger than the register width. */
  method Fastcopy(buf: array<Byte>, out: nat, from: nat, len: nat, sz: nat)
    requires sz in {8, 16, 32}
    requires from < out && sz < out - from && out + len <= buf.Length
    modifies buf
    ensures Copied(buf[..], old(buf[..]), out, out + len, out - from)
  {
    ghost var orig, d := buf[..], out - from;
    if len == 32 || len == 16 || len == 8 {
      CopyBytes(buf, out, from, len, sz, orig, out, out, d, 0);
    } else if len < 8 {
      CopyPieces(buf, out, from, SmallPieces(len), sz, orig, out, d, 0);
    } else if sz == 8 || len < 16 {
      ChunkMemcpy(buf, out, from, len, 8);
    } else if sz == 16 || len < 32 {
      ChunkMemcpy(buf, out, from, len, 16);
    } else {
      ChunkMemcpy(buf, out, from, len, 32);
    }
  }

  /** The byte-by-byte loops of `copy_match`. */
  method CopySlowly(buf: array<Byte>, out: nat, from: nat, len: nat,
                    ghost orig: seq<Byte>, ghost o: nat, ghost d: nat, ghost k: nat)
    requires out + len <= buf.Length
    requires Copied(buf[..], orig, o, out, d)
    requires o - d <= from && from + k * d == out - d
    modifies buf
    ensures Copied(buf[..], orig, o, out + len, d)
  {
    var i := 0;
    while i < len
      invariant 0 <= i <= len
      invariant Copied(buf[..], orig, o, out + i, d)
    {
      CopyBytes(buf, out + i, from + i, 1, 8, orig, o, out + i, d, k);
      i := i + 1;
    }
  }

  /** Whole periods of `d` bytes, each from the same source; returns what is left to copy. */
  method CopyPeriods(buf: array<Byte>, out: nat, from: nat, len: nat, d: nat, sz: nat, ghost orig: seq<Byte>)
    returns (p: nat, rest: nat, ghost k: nat)
    requires sz in {8, 16, 32} && d == out - from
    requires out + len <= buf.Length
    requires Copied(buf[..], orig, out, out, d)
    modifies buf
    ensures p + rest == out + len && from + k * d == p - d
    ensures Copied(buf[..], orig, out, p, d)
  {
    var pieces := PeriodPieces(d);
    p, rest, k := out, len, 0;
    while pieces != [] && rest >= d
      invariant p + rest == out + len && out <= p && from + k * d == p - d
      invariant Copied(buf[..], orig, out, p, d)
    {
      CopyPieces(buf, p, from, pieces, sz, orig, out, d, k);
      assert from + (k + 1) * d == from + k * d + d;
      p, rest, k := p + d, rest - d, k + 1;
    }
  }

  /**
   `copy_match`: any distance, any length.  A distance within the register width is copied
   period by period from a source that does not move, then the leftovers byte by byte.
   */
  method CopyMatch(buf: array<Byte>, out: nat, from: nat, len: nat, sz: nat) returns (end: nat)
    requires sz in {8, 16, 32}
    requires from < out && out + len <= buf.Length
    modifies buf
    ensures end == out + len
    ensures buf[..end] == LzCopy(old(buf[..out]), out - from, len)
    ensures forall i :: end <= i < buf.Length ==> buf[i] == old(buf[i])
  {
    ghost var orig := buf[..];
    var d := out - from;
    end := out + len;
    if d > sz {
      Fastcopy(buf, out, from, len, sz);
    } else {
      var p, rest; ghost var k;
      p, rest, k := CopyPeriods(buf, out, from, len, d, sz, orig);
      CopySlowly(buf, p, from, rest, orig, out, d, k);
    }
    CopiedIsLzCopy(buf[..], orig, out, end, d);
    assert orig[..out] == old(buf[..out]);
  }

  /**
   `wild_copy`: eight bytes at a time while the end is not reached, so that up to seven
   bytes beyond it are overwritten.
   */
  method WildCopy(buf: array<Byte>, out: nat, from: nat, end: nat)
    requires from + 8 <= out < end && end + 7 <= buf.Length
    modifies buf
    ensures buf[..end] == LzCopy(old(buf[..out]), out - from, end - out)
    ensures forall i :: end + 7 <= i < buf.Length ==> buf[i] == old(buf[i])
  {
    ghost var orig, dist := buf[..], out - from;
    var d, s := out, from;
    while d < end
      invariant out <= d <= end + 7 && s == d - dist
      invariant Copied(buf[..], orig, out, d, dist)
    {
      CopyBytes(buf, d, s, 8, 8, orig, out, d, dist, 0);
      d, s := d + 8, s + 8;
    }
    assert Copied(buf[..end] + orig[end..], orig, out, end, dist);
    CopiedIsLzCopy(buf[..end] + orig[end..], orig, out, end, dist);
    assert orig[..out] == old(buf[..out]);
  }
}
