/** `blosclz_compress` (blosc/blosclz.c) and its round trip with the decoder. */
module BloscLzEncoder {
  import opened Bytes
  import opened FastCopy
  import opened BloscLzFormat
  import opened BloscLzDecoder

  const IPSHIFT: nat := 4
  const MINLEN: nat := 4

  // ---- hashing: any guess of the table is checked before it is used

  /** `hashlog_[clevel]`. */
  function HashLog(clevel: nat): nat {
    if clevel == 1 then 12 else if clevel == 2 then 13 else 14
  }

  function Pow2(n: nat): (r: nat)
    ensures r > 0
  {
    if n == 0 then 1 else 2 * Pow2(n - 1)
  }

  /** `HASH_FUNCTION`: a 32-bit multiplicative hash, its top `hashlog` bits. */
  function Hash(s: nat, clevel: nat): nat {
    s * 2654435761 % Pow2(32) / Pow2(32 - HashLog(clevel))
  }

  lemma HashInTable(s: nat, clevel: nat)
    ensures Hash(s, clevel) < Pow2(HashLog(clevel))
  {
    hide Pow2;
    var h := s * 2654435761 % Pow2(32);
    if clevel == 1 {
      Pow2Split(12, 20); DivBelow(h, Pow2(12), Pow2(20));
    } else if clevel == 2 {
      Pow2Split(13, 19); DivBelow(h, Pow2(13), Pow2(19));
    } else {
      Pow2Split(14, 18); DivBelow(h, Pow2(14), Pow2(18));
    }
  }

  lemma {:induction false} Pow2Split(m: nat, n: nat)
    ensures Pow2(m + n) == Pow2(m) * Pow2(n)
  {
    if m > 0 { Pow2Split(m - 1, n); }
  }

  lemma DivBelow(h: nat, a: nat, b: nat)
    requires b > 0 && h < a * b
    ensures h / b < a
  {
  }

  // ---- how far a match extends

  /** Positions `from` up to `to` repeat what lies `d` before. */
  ghost predicate Repeats(s: seq<Byte>, from: nat, to: nat, d: nat) {
    && d <= from && to <= |s|
    && forall k :: from <= k < to ==> s[k] == s[k - d]
  }

  /** Where the search stops: at the bound, or one past the first position that differs. */
  ghost predicate StopsAt(s: seq<Byte>, from: nat, bound: nat, d: nat, ip: nat) {
    && from < ip <= bound <= |s|
    && Repeats(s, from, ip - 1, d)
    && (ip == bound || s[ip - 1] != s[ip - 1 - d])
  }

  lemma RepeatsWord(s: seq<Byte>, from: nat, ip: nat, d: nat, width: nat)
    requires Repeats(s, from, ip, d) && from <= ip && ip + width <= |s|
    requires s[ip - d..ip - d + width] == s[ip..ip + width]
    ensures Repeats(s, from, ip + width, d)
  {
  }

  lemma Difference(s: seq<Byte>, p: nat, q: nat, width: nat) returns (j: nat)
    requires p + width <= |s| && q + width <= |s| && s[p..p + width] != s[q..q + width]
    ensures j < width && s[p + j] != s[q + j]
  {
    var a, b := s[p..p + width], s[q..q + width];
    j :| 0 <= j < width && a[j] != b[j];
  }

  /** `while (*ref++ == *ip++)` in two words known to differ. */
  method ScanWord(input: seq<Byte>, start: nat, ref0: nat, width: nat) returns (ip: nat)
    requires ref0 < start && start + width <= |input|
    requires input[ref0..ref0 + width] != input[start..start + width]
    ensures start < ip <= start + width && StopsAt(input, start, start + width, start - ref0, ip)
    ensures input[ip - 1] != input[ip - 1 - (start - ref0)]
  {
    var ref, d := ref0, start - ref0;
    ghost var j := Difference(input, ref0, start, width);
    ip := start;
    while input[ref] == input[ip]
      invariant start <= ip <= start + j && ref == ip - d
      invariant Repeats(input, start, ip, d)
      decreases start + j - ip
    {
      ip, ref := ip + 1, ref + 1;
    }
    ip := ip + 1;
  }

  /** The loop over the remainder, byte by byte up to the bound. */
  method ScanRest(input: seq<Byte>, start: nat, bound: nat, ref0: nat) returns (ip: nat)
    requires ref0 < start < bound <= |input|
    ensures StopsAt(input, start, bound, start - ref0, ip)
  {
    var ref, d, same := ref0, start - ref0, true;
    ip := start;
    while ip < bound && same
      invariant start <= ip <= bound && ref == ip - d
      invariant same ==> Repeats(input, start, ip, d)
      invariant !same ==> StopsAt(input, start, bound, d, ip)
      decreases bound - ip, same
    {
      same := input[ref] == input[ip];
      ip, ref := ip + 1, ref + 1;
    }
  }

  lemma StopsLater(s: seq<Byte>, from: nat, mid: nat, near: nat, bound: nat, d: nat, ip: nat)
    requires Repeats(s, from, mid, d) && StopsAt(s, mid, near, d, ip)
    requires from <= mid && near <= bound <= |s|
    requires near == bound || s[ip - 1] != s[ip - 1 - d]
    ensures StopsAt(s, from, bound, d, ip)
  {
  }

  /** `get_match` (width 8) and `get_match_16` (width 16). */
  method GetMatch(input: seq<Byte>, start: nat, bound: nat, ref0: nat, width: nat) returns (ip: nat)
    requires width > 0 && ref0 < start < bound <= |input|
    ensures StopsAt(input, start, bound, start - ref0, ip)
  {
    var ref, d := ref0, start - ref0;
    ip := start;
    assert Repeats(input, start, ip, d);
    hide Repeats, StopsAt;
    while ip < bound - width
      invariant start <= ip < bound && ref == ip - d
      invariant Repeats(input, start, ip, d)
      decreases bound - ip
    {
      if input[ref..ref + width] != input[ip..ip + width] {
        var stop := ScanWord(input, ip, ref, width);
        StopsLater(input, start, ip, ip + width, bound, d, stop);
        return stop;
      } else {
        RepeatsWord(input, start, ip, d, width);
        ip, ref := ip + width, ref + width;
      }
    }
    var stop := ScanRest(input, ip, bound, ref);
    StopsLater(input, start, ip, bound, bound, d, stop);
    ip := stop;
  }

  /** `get_run`: the repeated byte is the one before `start`, and the reference lies one back. */
  method GetRun(input: seq<Byte>, start: nat, bound: nat) returns (ip: nat)
    requires 0 < start < bound <= |input|
    ensures StopsAt(input, start, bound, 1, ip)
  {
    var ref, x := start - 1, input[start - 1];
    ip := start;
    while ip < bound - 8
      invariant start <= ip < bound && ref == ip - 1
      invariant AllEqual(input, start - 1, ref, x)
      decreases bound - ip
    {
      if input[ref..ref + 8] != seq(8, _ => x) {
        ghost var a, word := input[ref..ref + 8], ref;
        ghost var j :| 0 <= j < 8 && a[j] != x;
        assert a[j] == input[word + j];
        while input[ref] == x
          invariant word <= ref <= word + j && ref == ip - 1
          invariant AllEqual(input, start - 1, ref, x)
          decreases word + j - ref
        {
          ip, ref := ip + 1, ref + 1;
        }
        RunRepeats(input, start, ip, x);
        return;
      } else {
        AllEqualWord(input, start - 1, ref, x);
        ip, ref := ip + 8, ref + 8;
      }
    }
    while ip < bound && input[ref] == x
      invariant start <= ip <= bound && ref == ip - 1
      invariant AllEqual(input, start - 1, ref, x)
    {
      ip, ref := ip + 1, ref + 1;
    }
    RunRepeats(input, start, ip, x);
  }

  ghost predicate AllEqual(s: seq<Byte>, from: nat, to: nat, x: Byte) {
    from <= to <= |s| && forall k :: from <= k < to ==> s[k] == x
  }

  lemma AllEqualWord(s: seq<Byte>, from: nat, ref: nat, x: Byte)
    requires AllEqual(s, from, ref, x) && ref + 8 <= |s| && s[ref..ref + 8] == seq(8, _ => x)
    ensures AllEqual(s, from, ref + 8, x)
  {
  }

  lemma RunRepeats(s: seq<Byte>, start: nat, ip: nat, x: Byte)
    requires 0 < start <= ip && AllEqual(s, start - 1, ip - 1, x)
    ensures Repeats(s, start, ip - 1, 1)
  {
  }

  // ---- what the output holds between two turns of the loop

  /**
   After `ip` input bytes the output is the layout of `ts`, a placeholder count of 31, and the
   `copy` literals that follow it; `ts` stands for the input before those literals.
   */
  ghost predicate Pending(out: seq<Byte>, input: seq<Byte>, ip: nat, copy: nat, ts: seq<Token>) {
    && copy < MAX_COPY && copy <= ip <= |input|
    && ValidTokens(ts)
    && (ts == [] || ts[0].Literals?)
    && out == Serialize(ts) + [31] + input[ip - copy..ip]
    && Expand([], ts) == Some(input[..ip - copy])
  }

  /** The output is the layout of `ts`, and `ts` stands for the input up to `ip`. */
  ghost predicate Closed(out: seq<Byte>, input: seq<Byte>, ip: nat, ts: seq<Token>) {
    && ip <= |input|
    && ValidTokens(ts)
    && ts != [] && ts[0].Literals?
    && out == Serialize(ts)
    && Expand([], ts) == Some(input[..ip])
  }

  lemma AppendToken(input: seq<Byte>, from: nat, to: nat, ts: seq<Token>, t: Token)
    requires from <= to <= |input| && ValidTokens(ts) && ValidToken(t)
    requires ts == [] ==> t.Literals?
    requires ts == [] || ts[0].Literals?
    requires Expand([], ts) == Some(input[..from]) && Apply(input[..from], t) == Some(input[..to])
    ensures Closed(Serialize(ts) + TokenBytes(t), input, to, ts + [t])
  {
    ExpandAppend([], ts, t);
    SerializeAppend(ts, t);
    assert (ts + [t])[0] == if ts == [] then t else ts[0];
  }

  /** Closing a literal run: its token is the placeholder, patched, and the bytes after it. */
  lemma CloseLiterals(patched: seq<Byte>, input: seq<Byte>, ip: nat, copy: nat, ts: seq<Token>)
    requires copy <= ip <= |input| && 1 <= copy <= MAX_COPY && ValidTokens(ts)
    requires ts == [] || ts[0].Literals?
    requires patched == Serialize(ts) + [copy - 1] + input[ip - copy..ip]
    requires Expand([], ts) == Some(input[..ip - copy])
    ensures Closed(patched, input, ip, ts + [Literals(input[ip - copy..ip])])
  {
    hide Serialize, Expand, MatchBytes;
    var t := Literals(input[ip - copy..ip]);
    assert input[..ip - copy] + t.bytes == input[..ip];
    AppendToken(input, ip - copy, ip, ts, t);
    assert patched == Serialize(ts) + TokenBytes(t);
  }

  /** A repetition in the input is what the match token stands for. */
  lemma CloseMatch(out: seq<Byte>, input: seq<Byte>, ip: nat, len: nat, d: nat, ts: seq<Token>)
    requires Closed(out, input, ip, ts)
    requires ValidToken(Match(len, d)) && ip + len <= |input|
    requires Repeats(input, ip, ip + len, d)
    ensures Closed(out + MatchBytes(len, d), input, ip + len, ts + [Match(len, d)])
  {
    var whole := input[..ip + len];
    assert whole[..ip] == input[..ip];
    LzCopyUnique(input[..ip], d, len, whole);
    AppendToken(input, ip, ip + len, ts, Match(len, d));
  }

  lemma OpenRun(out: seq<Byte>, input: seq<Byte>, ip: nat, ts: seq<Token>)
    requires Closed(out, input, ip, ts)
    ensures Pending(out + [31], input, ip, 0, ts)
  {
  }

  /** One more literal joins the run. */
  lemma PushLiteral(out: seq<Byte>, input: seq<Byte>, ip: nat, copy: nat, ts: seq<Token>)
    requires ip < |input| && Pending(out, input, ip, copy, ts)
    ensures out + [input[ip]] == Serialize(ts) + [31] + input[ip - copy..ip + 1]
    ensures copy + 1 < MAX_COPY ==> Pending(out + [input[ip]], input, ip + 1, copy + 1, ts)
  {
    assert input[ip - copy..ip + 1] == input[ip - copy..ip] + [input[ip]];
    AppendAssoc(Serialize(ts) + [31], input[ip - copy..ip], input[ip]);
  }

  lemma AppendAssoc(a: seq<Byte>, b: seq<Byte>, x: Byte)
    ensures (a + b) + [x] == a + (b + [x])
  {
  }

  /** The thirty-second literal closes the run as it stands and opens another. */
  lemma PushLastLiteral(out: seq<Byte>, input: seq<Byte>, ip: nat, ts: seq<Token>)
    requires ip < |input| && Pending(out, input, ip, MAX_COPY - 1, ts)
    ensures Pending(out + [input[ip]] + [31], input, ip + 1, 0, ts + [Literals(input[ip + 1 - MAX_COPY..ip + 1])])
  {
    hide Serialize, Expand, MatchBytes, Closed;
    PushLiteral(out, input, ip, MAX_COPY - 1, ts);
    CloseLiterals(out + [input[ip]], input, ip + 1, MAX_COPY, ts);
    OpenRun(out + [input[ip]], input, ip + 1, ts + [Literals(input[ip + 1 - MAX_COPY..ip + 1])]);
  }

  // ---- writing the output

  method Put(output: array<Byte>, op: nat, b: Byte)
    requires op < output.Length
    modifies output
    ensures output[..op + 1] == old(output[..op]) + [b]
    ensures forall i :: op + 1 <= i < output.Length ==> output[i] == old(output[i])
  {
    output[op] := b;
  }

  /** Output room that is always enough: one count byte for every 32 literals, and two to spare. */
  function RoomFor(n: nat): nat {
    n + n / 32 + 2
  }

  /** `Pending`, with the size of the output against the input consumed: `groups` full literal runs were closed. */
  ghost predicate Encoding(out: seq<Byte>, input: seq<Byte>, ip: nat, copy: nat, ts: seq<Token>, groups: nat) {
    && Pending(out, input, ip, copy, ts)
    && |out| <= ip + groups + 1 && 32 * groups + copy <= ip
  }

  /** `LITERAL`, and the body of the loop over the leftover bytes. */
  method EmitLiteral(input: seq<Byte>, ip: nat, output: array<Byte>, op0: nat, limit: nat, copy0: nat,
                     ghost ts0: seq<Token>, ghost groups0: nat)
    returns (ok: bool, op: nat, copy: nat, ghost ts: seq<Token>, ghost groups: nat)
    requires ip < |input| && op0 <= limit <= output.Length
    requires Encoding(output[..op0], input, ip, copy0, ts0, groups0)
    modifies output
    ensures RoomFor(|input|) <= limit ==> ok
    ensures forall i :: limit <= i < output.Length ==> output[i] == old(output[i])
    ensures ok ==> op <= limit && Encoding(output[..op], input, ip + 1, copy, ts, groups)
    ensures ok ==> copy > 0 || (ts != [] && ts[|ts| - 1].Literals?)
  {
    hide Pending, Encoding, Serialize, Expand, RoomFor, Closed, MatchBytes;
    EncodingParts(output[..op0], input, ip, copy0, ts0, groups0);
    op, copy, ts, groups := op0, copy0, ts0, groups0;
    if op + 2 > limit {
      EncodingFits(output[..op], input, ip, copy, ts, groups);
      return false, op, copy, ts, groups;
    }
    ok := true;
    ghost var before := output[..op];
    Put(output, op, input[ip]);
    op, copy := op + 1, copy + 1;
    if copy == MAX_COPY {
      PushLastLiteral(before, input, ip, ts);
      EncodingFrom(before + [input[ip]] + [31], input, ip + 1, 0, ts + [Literals(input[ip + 1 - MAX_COPY..ip + 1])],
        groups + 1);
      copy, groups := 0, groups + 1;
      Put(output, op, 31);
      op := op + 1;
      ts := ts + [Literals(input[ip + 1 - MAX_COPY..ip + 1])];
    } else {
      PushLiteral(before, input, ip, copy0, ts);
      EncodingFrom(before + [input[ip]], input, ip + 1, copy, ts, groups);
    }
  }

  lemma {:induction false} EncodingParts(out: seq<Byte>, input: seq<Byte>, ip: nat, copy: nat, ts: seq<Token>,
                                         groups: nat)
    requires Encoding(out, input, ip, copy, ts, groups)
    ensures Pending(out, input, ip, copy, ts) && copy < MAX_COPY && |out| <= ip + groups + 1 && 32 * groups + copy <= ip
  {
  }

  lemma {:induction false} EncodingFrom(out: seq<Byte>, input: seq<Byte>, ip: nat, copy: nat, ts: seq<Token>,
                                        groups: nat)
    requires Pending(out, input, ip, copy, ts) && |out| <= ip + groups + 1 && 32 * groups + copy <= ip
    ensures Encoding(out, input, ip, copy, ts, groups)
  {
  }

  lemma EncodingFits(out: seq<Byte>, input: seq<Byte>, ip: nat, copy: nat, ts: seq<Token>, groups: nat)
    requires Encoding(out, input, ip, copy, ts, groups) && ip < |input|
    ensures |out| + 2 <= RoomFor(|input|)
  {
  }

  /** Adjust the count of the literals copied, or step back over an unused placeholder. */
  method CloseRun(input: seq<Byte>, ip: nat, output: array<Byte>, op0: nat, limit: nat, copy: nat,
                  ghost ts0: seq<Token>)
    returns (op: nat, ghost ts: seq<Token>)
    requires op0 <= limit <= output.Length && 0 < ip
    requires Pending(output[..op0], input, ip, copy, ts0)
    modifies output
    ensures forall i :: limit <= i < output.Length ==> output[i] == old(output[i])
    ensures op <= limit && Closed(output[..op], input, ip, ts)
    ensures if copy > 0 then op == op0 && |ts| == |ts0| + 1 && ts[|ts0|].Literals? else op == op0 - 1 && ts == ts0
  {
    hide Pending, Closed;
    op, ts := op0, ts0;
    ghost var before := output[..op];
    if copy > 0 {
      ClosePatched(before, input, ip, copy, ts);
      output[op - copy - 1] := copy - 1;
      assert output[..op] == before[..op - copy - 1] + [copy - 1] + before[op - copy..];
      ts := ts + [Literals(input[ip - copy..ip])];
    } else {
      CloseUnused(before, input, ip, ts);
      op := op - 1;
      assert output[..op] == before[..op];
    }
  }

  lemma ClosePatched(out: seq<Byte>, input: seq<Byte>, ip: nat, copy: nat, ts: seq<Token>)
    requires Pending(out, input, ip, copy, ts) && copy > 0
    ensures copy < MAX_COPY && copy < |out| && copy <= ip <= |input|
    ensures var n := |out| - copy;
            Closed(out[..n - 1] + [copy - 1] + out[n..], input, ip, ts + [Literals(input[ip - copy..ip])])
  {
    hide Serialize, Expand, MatchBytes, Closed;
    var n, plain := |out| - copy, Serialize(ts);
    assert out[..n - 1] == plain && out[n..] == input[ip - copy..ip];
    CloseLiterals(plain + [copy - 1] + input[ip - copy..ip], input, ip, copy, ts);
  }

  lemma CloseUnused(out: seq<Byte>, input: seq<Byte>, ip: nat, ts: seq<Token>)
    requires Pending(out, input, ip, 0, ts) && 0 < ip
    ensures out != [] && Closed(out[..|out| - 1], input, ip, ts)
  {
  }

  method PutAll(output: array<Byte>, op: nat, bytes: seq<Byte>)
    requires op + |bytes| <= output.Length
    modifies output
    ensures output[..op + |bytes|] == old(output[..op]) + bytes
    ensures forall i :: op + |bytes| <= i < output.Length ==> output[i] == old(output[i])
  {
    forall i | op <= i < op + |bytes| {
      output[i] := bytes[i - op];
    }
  }

  lemma {:induction false} ChainLength(n: nat)
    ensures 1 <= |LenChain(n)| <= n / 255 + 1
  {
    if n >= 255 { ChainLength(n - 255); }
  }

  /** Every match the compressor emits is shorter than what it stands for, even with one more count byte. */
  lemma MatchShrinks(l: nat, d: nat)
    requires Worthwhile(l, d) && ValidToken(Match(l + 2, d + 1))
    ensures 2 <= |MatchBytes(l + 2, d + 1)| <= l + 1
  {
    if l >= 7 { ChainLength(l - 7); }
  }

  /** Short matches are left alone, and those of five or fewer when they lie far away. */
  predicate Worthwhile(l: nat, d: nat) {
    l >= MINLEN && !(l <= 5 && d >= MAX_DISTANCE)
  }

  /** The loop that writes a long length; `rest` is the byte that closes the chain. */
  method PutChain(output: array<Byte>, op0: nat, limit: nat, n: nat) returns (ok: bool, op: nat, rest: Byte)
    requires op0 <= limit <= output.Length
    modifies output
    ensures forall i :: limit <= i < output.Length ==> output[i] == old(output[i])
    ensures ok ==> op <= limit && output[..op] + [rest] == old(output[..op0]) + LenChain(n)
    ensures op0 + |LenChain(n)| <= limit + 1 ==> ok
  {
    var len := n;
    op := op0;
    ghost var base := output[..op0];
    assert base + LenChain(n) == output[..op] + LenChain(len);
    while len >= 255
      invariant op0 <= op <= limit && 0 <= len
      invariant forall i :: limit <= i < output.Length ==> output[i] == old(output[i])
      invariant base + LenChain(n) == output[..op] + LenChain(len)
    {
      ghost var before := output[..op];
      if op + 1 > limit {
        assert |base + LenChain(n)| == |before + LenChain(len)|;
        ChainLength(len - 255);
        return false, op, 0;
      }
      Put(output, op, 255);
      assert before + LenChain(len) == before + [255] + LenChain(len - 255);
      op, len := op + 1, len - 255;
    }
    ok, rest := true, len;
  }

  /** `MATCH_LONG` and `MATCH_LONG_FAR`: control byte, length chain, distance bytes. */
  method EmitLong(output: array<Byte>, op0: nat, limit: nat, head: Byte, n: nat, tail: seq<Byte>)
    returns (ok: bool, op: nat)
    requires op0 <= limit <= output.Length
    modifies output
    ensures forall i :: limit <= i < output.Length ==> output[i] == old(output[i])
    ensures ok ==> op <= limit && output[..op] == old(output[..op0]) + ([head] + LenChain(n) + tail)
    ensures op0 + 1 + |LenChain(n)| + |tail| <= limit ==> ok
  {
    op := op0;
    ghost var base, chain := output[..op], LenChain(n);
    ChainLength(n);
    if op + 1 > limit {
      return false, op;
    }
    Put(output, op, head);
    var rest;
    ok, op, rest := PutChain(output, op + 1, limit, n);
    if !ok {
      return;
    }
    ghost var mid := output[..op];
    assert |mid + [rest]| == |base + [head] + chain|;
    if op + 1 + |tail| > limit {
      return false, op;
    }
    PutAll(output, op, [rest] + tail);
    op := op + 1 + |tail|;
    assert mid + ([rest] + tail) == (mid + [rest]) + tail;
    assert (base + [head] + chain) + tail == base + ([head] + chain + tail);
  }

  /** `MATCH_SHORT`, `MATCH_LONG` and their far forms, for a biased length and distance. */
  method EmitMatch(output: array<Byte>, op0: nat, limit: nat, len: nat, distance: nat) returns (ok: bool, op: nat)
    requires op0 <= limit <= output.Length
    requires 1 <= len && ValidToken(Match(len + 2, distance + 1))
    modifies output
    ensures forall i :: limit <= i < output.Length ==> output[i] == old(output[i])
    ensures ok ==> op <= limit && output[..op] == old(output[..op0]) + MatchBytes(len + 2, distance + 1)
    ensures op0 + |MatchBytes(len + 2, distance + 1)| <= limit ==> ok
  {
    op := op0;
    var near := distance < MAX_DISTANCE;
    var d := if near then distance else distance - MAX_DISTANCE;
    var tail: seq<Byte> := if near then [d % 256] else [255, d / 256, d % 256];
    var high := if near then d / 256 else 31;
    if len < 7 {
      if op + 1 + |tail| > limit {
        return false, op;
      }
      PutAll(output, op, [len * 32 + high] + tail);
      assert [len * 32 + high] + [] + tail == [len * 32 + high] + tail;
      ok, op := true, op + 1 + |tail|;
    } else {
      ok, op := EmitLong(output, op, limit, 7 * 32 + high, len - 7, tail);
    }
  }

  // ---- the search

  /** Both searches look at the same stop. */
  lemma StopsOnce(s: seq<Byte>, from: nat, bound: nat, d: nat, p: nat, q: nat)
    requires StopsAt(s, from, bound, d, p) && StopsAt(s, from, bound, d, q)
    ensures p == q
  {
  }

  /** The candidate at `ref` is worth a match of biased length `len`. */
  ghost predicate Candidate(input: seq<Byte>, anchor: nat, ref: nat, len: nat)
    requires anchor + 4 <= |input| && ref <= anchor
  {
    && 0 < anchor - ref < MAX_FARDISTANCE
    && ReadU32(input, ref) == ReadU32(input, anchor)
    && StopsAt(input, anchor + 4, |input| - 1, anchor - ref, anchor + len + IPSHIFT)
    && Worthwhile(len, anchor - ref - 1)
  }

  /**
   One look into the hash table: the entry is replaced by the current position, and a match is
   reported exactly when the old entry holds one that is worth it.
   */
  method Search(input: seq<Byte>, ip: nat, htab: array<nat>, clevel: nat, width: nat)
    returns (found: bool, len: nat, distance: nat)
    requires width > 0 && ip + 12 < |input|
    requires htab.Length == Pow2(HashLog(clevel))
    requires forall i :: 0 <= i < htab.Length ==> htab[i] < ip
    modifies htab
    ensures Hash(ReadU32(input, ip), clevel) < htab.Length
    ensures var h := Hash(ReadU32(input, ip), clevel);
            htab[..] == old(htab[..])[h := ip] &&
            if found then distance == ip - old(htab[h]) - 1 && Candidate(input, ip, old(htab[h]), len)
            else forall l: nat :: !Candidate(input, ip, old(htab[h]), l)
  {
    hide Repeats, ReadU32, Hash, Pow2, HashLog;
    len := 0;
    HashInTable(ReadU32(input, ip), clevel);
    var hval := Hash(ReadU32(input, ip), clevel);
    var ref := htab[hval];
    distance := ip - ref;
    htab[hval] := ip;
    if distance == 0 || distance >= MAX_FARDISTANCE {
      return false, 0, distance;
    }
    if ReadU32(input, ref) != ReadU32(input, ip) {
      return false, 0, distance;
    }
    distance := distance - 1;
    var stop;
    if distance == 0 {
      stop := GetRun(input, ip + 4, |input| - 1);
    } else {
      stop := GetMatch(input, ip + 4, |input| - 1, ref + 4, width);
    }
    len := stop - IPSHIFT - ip;
    found := Worthwhile(len, distance);
    forall l: nat | Candidate(input, ip, ref, l)
      ensures l == len
    {
      StopsOnce(input, ip + 4, |input| - 1, ip - ref, stop, ip + l + IPSHIFT);
    }
  }

  lemma CandidateRepeats(input: seq<Byte>, anchor: nat, ref: nat, len: nat)
    requires ref < anchor && anchor + 12 < |input| && Candidate(input, anchor, ref, len)
    ensures anchor + len + 2 <= |input| - 3
    ensures Repeats(input, anchor, anchor + len + 2, anchor - ref)
    ensures ValidToken(Match(len + 2, anchor - ref))
  {
  }

  // ---- the compressor

  /** Close the literal run, write the match, and open a new run after it. */
  method EncodeMatch(input: seq<Byte>, ip: nat, output: array<Byte>, op0: nat, limit: nat, copy: nat,
                     len: nat, distance: nat, ghost ts0: seq<Token>, ghost groups: nat)
    returns (ok: bool, op: nat, ghost ts: seq<Token>)
    requires 0 < ip && op0 <= limit <= output.Length
    requires Encoding(output[..op0], input, ip, copy, ts0, groups)
    requires ip + len + 2 <= |input| - 3 && Repeats(input, ip, ip + len + 2, distance + 1)
    requires Worthwhile(len, distance) && ValidToken(Match(len + 2, distance + 1))
    modifies output
    ensures forall i :: limit <= i < output.Length ==> output[i] == old(output[i])
    ensures ok ==> op <= limit && Encoding(output[..op], input, ip + len + 2, 0, ts, groups)
    ensures RoomFor(|input|) <= limit ==> ok
  {
    hide Pending, Closed, Serialize, Expand, MatchBytes, Repeats;
    op, ts := CloseRun(input, ip, output, op0, limit, copy, ts0);
    CloseMatch(output[..op], input, ip, len + 2, distance + 1, ts);
    MatchShrinks(len, distance);
    ok, op := EmitMatch(output, op, limit, len, distance);
    if !ok {
      return;
    }
    ts := ts + [Match(len + 2, distance + 1)];
    if op + 1 > limit {
      return false, op, ts;
    }
    OpenRun(output[..op], input, ip + len + 2, ts);
    Put(output, op, 31);
    op := op + 1;
  }

  /** The hash entries written at the end of a match; at level 9 the next position too. */
  method UpdateHash(input: seq<Byte>, ip: nat, htab: array<nat>, clevel: nat)
    requires ip + 4 <= |input|
    requires htab.Length == Pow2(HashLog(clevel))
    requires forall i :: 0 <= i < htab.Length ==> htab[i] < ip + 2
    modifies htab
    ensures forall i :: 0 <= i < htab.Length ==> htab[i] < ip + 2
  {
    var word := ReadU32(input, ip);
    HashInTable(word, clevel);
    htab[Hash(word, clevel)] := ip;
    if clevel == 9 {
      HashInTable(word / 256, clevel);
      htab[Hash(word / 256, clevel)] := ip + 1;
    }
  }

  /** One turn of the main loop: search, then a literal or a match. */
  method EncodeTurn(input: seq<Byte>, ip0: nat, output: array<Byte>, op0: nat, limit: nat, copy0: nat,
                    htab: array<nat>, clevel: nat, width: nat, ghost ts0: seq<Token>, ghost groups0: nat)
    returns (ok: bool, ip: nat, op: nat, copy: nat, ghost ts: seq<Token>, ghost groups: nat)
    requires width > 0 && 0 < ip0 && ip0 + 12 < |input| && op0 <= limit <= output.Length
    requires Encoding(output[..op0], input, ip0, copy0, ts0, groups0)
    requires htab.Length == Pow2(HashLog(clevel))
    requires forall i :: 0 <= i < htab.Length ==> htab[i] < ip0
    modifies output, htab
    ensures forall i :: limit <= i < output.Length ==> output[i] == old(output[i])
    ensures ok ==> ip0 < ip <= |input| - 3 && op <= limit && Encoding(output[..op], input, ip, copy, ts, groups)
    ensures ok ==> forall i :: 0 <= i < htab.Length ==> htab[i] < ip
    ensures RoomFor(|input|) <= limit ==> ok
  {
    hide Encoding, Repeats, StopsAt, ReadU32, Hash, HashLog, Pow2, RoomFor;
    ip, op, copy, ts, groups := ip0, op0, copy0, ts0, groups0;
    var found, len, distance := Search(input, ip, htab, clevel, width);
    if !found {
      ok, op, copy, ts, groups := EmitLiteral(input, ip, output, op, limit, copy, ts, groups);
      ip := ip + 1;
    } else {
      CandidateRepeats(input, ip, ip - distance - 1, len);
      ok, op, ts := EncodeMatch(input, ip, output, op, limit, copy, len, distance, ts, groups);
      copy := 0;
      UpdateHash(input, ip + len, htab, clevel);
      ip := ip + len + 2;
    }
  }

  /** The bytes left over at the end, all as literals. */
  method EncodeTail(input: seq<Byte>, ip0: nat, output: array<Byte>, op0: nat, limit: nat, copy0: nat,
                    ghost ts0: seq<Token>, ghost groups0: nat)
    returns (ok: bool, op: nat, copy: nat, ghost ts: seq<Token>, ghost groups: nat)
    requires 0 < ip0 < |input| && op0 <= limit <= output.Length
    requires Encoding(output[..op0], input, ip0, copy0, ts0, groups0)
    modifies output
    ensures forall i :: limit <= i < output.Length ==> output[i] == old(output[i])
    ensures ok ==> op <= limit && Encoding(output[..op], input, |input|, copy, ts, groups)
    ensures ok ==> copy > 0 || (ts != [] && ts[|ts| - 1].Literals?)
    ensures RoomFor(|input|) <= limit ==> ok
  {
    hide Encoding;
    var ip: nat := ip0;
    op, copy, ts, groups := op0, copy0, ts0, groups0;
    while ip <= |input| - 1
      invariant ip0 <= ip <= |input| && op <= limit
      invariant forall i :: limit <= i < output.Length ==> output[i] == old(output[i])
      invariant Encoding(output[..op], input, ip, copy, ts, groups)
      invariant ip == ip0 || copy > 0 || (ts != [] && ts[|ts| - 1].Literals?)
    {
      ok, op, copy, ts, groups := EmitLiteral(input, ip, output, op, limit, copy, ts, groups);
      if !ok {
        return;
      }
      ip := ip + 1;
    }
    ok := true;
  }

  /** Adjust the last count and set the marker bit: the stream is complete. */
  method Finish(input: seq<Byte>, output: array<Byte>, op: nat, limit: nat, copy: nat, ghost ts0: seq<Token>)
    returns (r: nat)
    requires 0 < |input| && op <= limit <= output.Length
    requires Pending(output[..op], input, |input|, copy, ts0)
    requires copy > 0 || (ts0 != [] && ts0[|ts0| - 1].Literals?)
    modifies output
    ensures forall i :: limit <= i < output.Length ==> output[i] == old(output[i])
    ensures 0 < r <= limit && Decode(output[..r], |input|) == Some(input)
  {
    hide Serialize, Expand, MatchBytes, Decode;
    ghost var ts;
    r, ts := CloseRun(input, |input|, output, op, limit, copy, ts0);
    ghost var plain := output[..r];
    assert input[..|input|] == input;
    assert plain != [] by { SerializeNonEmpty(ts); }
    output[0] := Mark(output[0]);
    assert output[..r] == [Mark(plain[0])] + plain[1..];
    DecodeStream(ts, plain, output[..r], input);
  }

  lemma SerializeNonEmpty(ts: seq<Token>)
    requires ts != [] && ValidTokens(ts)
    ensures Serialize(ts) != []
  {
  }

  /** The four literals that every stream starts with. */
  method EncodeStart(input: seq<Byte>, output: array<Byte>) returns (op: nat)
    requires 16 <= |input| && 66 <= output.Length
    modifies output
    ensures op == 5 && Encoding(output[..op], input, 4, 4, [], 0)
    ensures forall i :: 5 <= i < output.Length ==> output[i] == old(output[i])
  {
    assert input[0..4] == [input[0], input[1], input[2], input[3]];
    PutAll(output, 0, [31, input[0], input[1], input[2], input[3]]);
    op := 5;
    assert input[..0] == [];
  }

  /**
   `blosclz_compress`.  Whatever the hash table suggests and whatever the entropy probe says
   (`incompressible`), a positive result fits in `maxout` and decodes to the input; and the
   compressor gives up only on the probe, a buffer below the limits, or too little room.
   */
  method Compress(clevel: nat, input: seq<Byte>, output: array<Byte>, maxout: nat, incompressible: bool, width: nat)
    returns (r: nat)
    requires 1 <= clevel <= 9 && width > 0
    requires maxout <= output.Length
    modifies output
    ensures r <= maxout && forall i :: maxout <= i < output.Length ==> output[i] == old(output[i])
    ensures r > 0 ==> Decode(output[..r], |input|) == Some(input)
    ensures incompressible || |input| < 16 || maxout < 66 ==> r == 0
    ensures !incompressible && |input| >= 16 && maxout >= 66 && maxout >= RoomFor(|input|) ==> r > 0
  {
    if incompressible {
      return 0;
    }
    if |input| < 16 || maxout < 66 {
      return 0;
    }
    var htab := new nat[Pow2(HashLog(clevel))](_ => 0);
    var op: nat := EncodeStart(input, output);
    var ip: nat, copy: nat, ok := 4, 4, true;
    ghost var ts: seq<Token>, groups: nat := [], 0;
    while ip < |input| - 12
      invariant 4 <= ip <= |input| - 3 && op <= maxout
      invariant forall i :: maxout <= i < output.Length ==> output[i] == old(output[i])
      invariant Encoding(output[..op], input, ip, copy, ts, groups)
      invariant fresh(htab) && htab.Length == Pow2(HashLog(clevel))
      invariant forall i :: 0 <= i < htab.Length ==> htab[i] < ip
    {
      ok, ip, op, copy, ts, groups := EncodeTurn(input, ip, output, op, maxout, copy, htab, clevel, width, ts, groups);
      if !ok {
        return 0;
      }
    }
    ok, op, copy, ts, groups := EncodeTail(input, ip, output, op, maxout, copy, ts, groups);
    if !ok {
      return 0;
    }
    r := Finish(input, output, op, maxout, copy, ts);
  }

  /** Compressing and then decompressing with room for exactly the input gives the input back. */
  method RoundTrip(clevel: nat, input: seq<Byte>, maxout: nat, incompressible: bool, width: nat, sz: nat)
    returns (compressed: nat, restored: seq<Byte>)
    requires 1 <= clevel <= 9 && width > 0 && sz in {8, 16, 32}
    ensures compressed <= maxout
    ensures compressed > 0 ==> restored == input
    ensures !incompressible && |input| >= 16 && maxout >= 66 && maxout >= RoomFor(|input|) ==> compressed > 0
  {
    var stream, out := new Byte[maxout](_ => 0), new Byte[|input|](_ => 0);
    compressed := Compress(clevel, input, stream, maxout, incompressible, width);
    restored := [];
    if compressed > 0 {
      var n := Decompress(stream[..compressed], out, |input|, sz);
      restored := out[..n];
    }
  }
}
