/** `blosclz_decompress` (blosc/blosclz.c), with its fast copies, against the reference decoder. */
module BloscLzDecoder {
  import opened Bytes
  import opened FastCopy
  import opened BloscLzFormat

  /** The do-while loop over the chained length bytes. */
  method ReadLen(input: seq<Byte>, start: nat) returns (ok: bool, len: nat, ip: nat)
    requires start <= |input|
    ensures match ParseLen(input[start..])
            case None => !ok
            case Some(c) => ok && len == c.sum && start < ip < |input| && input[ip..] == c.rest
  {
    len, ip := 0, start;
    var code := 255;
    while code == 255
      invariant start <= ip <= |input| && (code == 255 || (start < ip < |input|))
      invariant match ParseLen(input[start..])
                case None => code == 255 && ParseLen(input[ip..]) == None
                case Some(c) =>
                  if code == 255 then len <= c.sum && ParseLen(input[ip..]) == Some(LenCode(c.sum - len, c.rest))
                  else len == c.sum && input[ip..] == c.rest
      decreases |input| - ip
    {
      if ip + 1 >= |input| {
        return false, 0, ip;
      }
      assert input[ip..][1..] == input[ip + 1..];
      code := input[ip];
      ip := ip + 1;
      len := len + code;
    }
    ok := true;
  }

  /** The header of a match: its length, how far back it starts (`op - ref`), and where it ends. */
  method ReadMatch(input: seq<Byte>, start: nat, ctrl: Byte) returns (ok: bool, len: nat, back: nat, ip: nat)
    requires start <= |input| && 32 <= ctrl
    ensures match ParseMatch(input[start..], ctrl)
            case None => !ok
            case Some(m) =>
              ok && len == m.len && back + 1 == m.distance && start < ip <= |input| && input[ip..] == m.rest
  {
    len, back, ip := ctrl / 32 - 1, 0, start;
    var ofs := ctrl % 32 * 256;
    if len == 7 - 1 {
      var more;
      ok, more, ip := ReadLen(input, start);
      if !ok {
        return;
      }
      len := len + more;
    } else if ip + 1 >= |input| {
      return false, len, 0, ip;
    }
    ghost var tail := input[ip..];
    var code := input[ip];
    ip := ip + 1;
    len := len + 3;
    back := ofs + code;
    assert tail[1..] == input[ip..];
    if code == 255 && ofs == 31 * 256 {
      if ip + 1 >= |input| {
        return false, len, back, ip;
      }
      back := input[ip] * 256 + input[ip + 1] + MAX_DISTANCE;
      ip := ip + 2;
      assert tail[3..] == input[ip..];
    }
    ok := true;
  }

  /** `memset(op, *ref, len)`: the copy at distance one. */
  method FillRun(output: array<Byte>, op: nat, len: nat)
    requires 1 <= op && op + len <= output.Length
    modifies output
    ensures output[..op + len] == LzCopy(old(output[..op]), 1, len)
    ensures forall i :: op + len <= i < output.Length ==> output[i] == old(output[i])
  {
    var value := output[op - 1];
    ghost var orig := output[..];
    forall i | op <= i < op + len {
      output[i] := value;
    }
    CopiedIsLzCopy(output[..], orig, op, op + len, 1);
    assert orig[..op] == old(output[..op]);
  }

  /** Which of the three copies a match takes; each yields the same bytes. */
  method CopyBack(output: array<Byte>, op: nat, ref: nat, len: nat, maxout: nat, sz: nat)
    requires sz in {8, 16, 32}
    requires ref < op && 0 < len && op + len <= maxout <= output.Length
    modifies output
    ensures output[..op + len] == LzCopy(old(output[..op]), op - ref, len)
    ensures forall i :: maxout <= i < output.Length ==> output[i] == old(output[i])
  {
    if ref == op - 1 {
      FillRun(output, op, len);
    } else if op - ref >= 8 && maxout - op >= len + 8 {
      WildCopy(output, op, ref, op + len);
    } else {
      var end := CopyMatch(output, op, ref, len, sz);
    }
  }

  /** `memcpy(op, ip, ctrl)`. */
  method CopyLiterals(input: seq<Byte>, ip: nat, output: array<Byte>, op: nat, n: nat)
    requires ip + n <= |input| && op + n <= output.Length
    modifies output
    ensures output[..op + n] == old(output[..op]) + input[ip..][..n]
    ensures forall i :: op + n <= i < output.Length ==> output[i] == old(output[i])
  {
    forall i | op <= i < op + n {
      output[i] := input[ip + (i - op)];
    }
  }

  /** Where one turn of the main loop leaves: `return 0`, `break`, or on to the next control byte. */
  datatype Turn = Fail | Finish(op: nat) | Next(ip: nat, op: nat, ctrl: Byte)

  /** The turn taken, given what was left to decode before it. */
  ghost predicate TurnDecodes(turn: Turn, before: Option<seq<Byte>>, input: seq<Byte>, ip: nat, output: seq<Byte>,
                              maxout: nat)
    requires maxout <= |output|
  {
    match turn
    case Fail => before == None
    case Finish(op) => op <= maxout && before == Some(output[..op])
    case Next(next, op, ctrl) =>
      ip < next <= |input| && op <= maxout &&
      before == DecodeFrom(input[next..], ctrl, output[..op], maxout)
  }

  /** The turn of a match whose code `m` has been read. */
  method MatchTurn(input: seq<Byte>, ip: nat, len: nat, back: nat, next: nat, output: array<Byte>, op: nat,
                   maxout: nat, sz: nat, ghost m: MatchCode)
    returns (turn: Turn)
    requires sz in {8, 16, 32}
    requires ip < next <= |input| && op <= maxout <= output.Length
    requires m == MatchCode(len, back + 1, input[next..]) && 0 < len
    modifies output
    ensures forall i :: maxout <= i < output.Length ==> output[i] == old(output[i])
    ensures TurnDecodes(turn, DecodeAfter(m, old(output[..op]), maxout), input, ip, output[..], maxout)
  {
    hide DecodeFrom, LzCopy;
    var ref := op - back;
    if op + len > maxout {
      return Fail;
    }
    if ref - 1 < 0 {
      return Fail;
    }
    if next >= |input| {
      assert output[..][..op] == output[..op];
      return Finish(op);
    }
    assert input[next..][1..] == input[next + 1..];
    ref := ref - 1;
    CopyBack(output, op, ref, len, maxout, sz);
    assert output[..][..op + len] == output[..op + len];
    turn := Next(next + 1, op + len, input[next]);
  }

  method LiteralTurn(input: seq<Byte>, ip: nat, ctrl: Byte, output: array<Byte>, op: nat, maxout: nat)
    returns (turn: Turn)
    requires ctrl < 32
    requires ip <= |input| && op <= maxout <= output.Length
    modifies output
    ensures forall i :: maxout <= i < output.Length ==> output[i] == old(output[i])
    ensures TurnDecodes(turn, DecodeFrom(input[ip..], ctrl, old(output[..op]), maxout), input, ip, output[..], maxout)
  {
    ghost var rest := input[ip..];
    var n := ctrl + 1;
    if op + n > maxout {
      return Fail;
    }
    if ip + n > |input| {
      return Fail;
    }
    CopyLiterals(input, ip, output, op, n);
    assert output[..][..op + n] == output[..op + n];
    if ip + n >= |input| {
      assert rest[..n] == rest;
      return Finish(op + n);
    }
    assert rest[n + 1..] == input[ip + n + 1..] && rest[n] == input[ip + n];
    turn := Next(ip + n + 1, op + n, input[ip + n]);
  }

  /**
   `blosclz_decompress`.  On every input it terminates, writes only the first `maxout` bytes of
   the output, and returns exactly what the reference decoder yields (0 where that fails).
   */
  method Decompress(input: seq<Byte>, output: array<Byte>, maxout: nat, sz: nat) returns (r: nat)
    requires sz in {8, 16, 32}
    requires maxout <= output.Length
    modifies output
    ensures forall i :: maxout <= i < output.Length ==> output[i] == old(output[i])
    ensures match Decode(input, maxout)
            case None => r == 0
            case Some(data) => r == |data| <= maxout && output[..r] == data
  {
    if |input| == 0 {
      return 0;
    }
    var ip, op, ctrl := 1, 0, input[0] % 32;
    ghost var result := Decode(input, maxout);
    while true
      invariant 0 <= op <= maxout && 0 <= ip <= |input| && 0 <= ctrl < 256
      invariant forall i :: maxout <= i < output.Length ==> output[i] == old(output[i])
      invariant DecodeFrom(input[ip..], ctrl, output[..op], maxout) == result
      decreases |input| - ip
    {
      var turn;
      if ctrl >= 32 {
        var ok, len, back, after := ReadMatch(input, ip, ctrl);
        if !ok {
          return 0;
        }
        turn := MatchTurn(input, ip, len, back, after, output, op, maxout, sz, ParseMatch(input[ip..], ctrl).value);
      } else {
        turn := LiteralTurn(input, ip, ctrl, output, op, maxout);
      }
      match turn
      case Fail => return 0;
      case Finish(end) =>
        assert output[..][..end] == output[..end];
        return end;
      case Next(next, end, c) =>
        assert output[..][..end] == output[..end];
        ip, op, ctrl := next, end, c;
    }
  }
}
