/** Bytes and little-endian 32-bit integers, as the buffers of the library hold them. */
module Bytes {

  /** One `uint8_t`. */
  type Byte = x: int | 0 <= x < 256

  datatype Option<+T> = None | Some(value: T)

  /** Four bytes, least significant first: `sw32_` without the sign, `BLOSCLZ_READU32`. */
  function ReadU32(s: seq<Byte>, p: nat): nat
    requires p + 4 <= |s|
  {
    s[p] as int + s[p + 1] as int * 0x100 + s[p + 2] as int * 0x1_0000 + s[p + 3] as int * 0x100_0000
  }

  /** `sw32_`: a signed 32-bit integer in two's complement. */
  function ReadI32(s: seq<Byte>, p: nat): int
    requires p + 4 <= |s|
  {
    var u := ReadU32(s, p);
    if u < 0x8000_0000 then u else u - 0x1_0000_0000
  }

  /** `_sw32`: the four bytes of a signed 32-bit integer. */
  function I32Bytes(x: int): (r: seq<Byte>)
    requires -0x8000_0000 <= x < 0x8000_0000
    ensures |r| == 4
  {
    var u := if x < 0 then x + 0x1_0000_0000 else x;
    [u % 0x100, u / 0x100 % 0x100, u / 0x1_0000 % 0x100, u / 0x100_0000 % 0x100]
  }

  lemma I32RoundTrip(x: int, s: seq<Byte>, p: nat)
    requires -0x8000_0000 <= x < 0x8000_0000
    requires p + 4 <= |s| && s[p..p + 4] == I32Bytes(x)
    ensures ReadI32(s, p) == x
  {
    var u, r := if x < 0 then x + 0x1_0000_0000 else x, s[p..p + 4];
    assert r[0] == s[p] && r[1] == s[p + 1] && r[2] == s[p + 2] && r[3] == s[p + 3];
    assert u == u % 0x100 + u / 0x100 * 0x100;
    assert u / 0x100 == u / 0x100 % 0x100 + u / 0x1_0000 * 0x100;
    assert u / 0x1_0000 == u / 0x1_0000 % 0x100 + u / 0x100_0000 * 0x100;
    assert u / 0x100_0000 < 0x100;
  }

  method Overwrite(dest: array<Byte>, at: nat, bytes: seq<Byte>)
    requires at + |bytes| <= dest.Length
    modifies dest
    ensures dest[..] == old(dest[..at]) + bytes + old(dest[at + |bytes|..])
  {
    forall i | at <= i < at + |bytes| {
      dest[i] := bytes[i - at];
    }
  }
}
