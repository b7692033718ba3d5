/** Bytes, fixed-width integers and their little-endian layout. */
module Bytes {
  type byte = x: int | 0 <= x < 0x100
  type u16 = x: int | 0 <= x < 0x1_0000
  type u32 = x: int | 0 <= x < 0x1_0000_0000
  type s32 = x: int | -0x8000_0000 <= x < 0x8000_0000

  datatype Option<+T> = None | Some(value: T)

  function MinNat(a: nat, b: nat): nat {
    if a < b then a else b
  }

  function Le16(x: u16): (s: seq<byte>)
    ensures |s| == 2 && Get16(s, 0) == x
  {
    [x % 256, x / 256]
  }

  function Le32(x: u32): (s: seq<byte>)
    ensures |s| == 4 && Get32(s, 0) == x
  {
    var lo, hi := Le16(x % 65536), Le16(x / 65536);
    var s := [lo[0], lo[1], hi[0], hi[1]];
    assert Get16(s, 0) == Get16(lo, 0) && Get16(s, 2) == Get16(hi, 0);
    s
  }

  function Get16(s: seq<byte>, i: nat): u16
    requires i + 2 <= |s|
  {
    var lo: int, hi: int := s[i], s[i + 1];
    lo + 256 * hi
  }

  function Get32(s: seq<byte>, i: nat): u32
    requires i + 4 <= |s|
  {
    var lo: int, hi: int := Get16(s, i), Get16(s, i + 2);
    lo + 65536 * hi
  }

  /** The least significant byte comes first. */
  lemma LittleEndian(x: u32, y: u16)
    ensures var s: seq<int> := Le32(x);
            |s| == 4 && x == s[0] + 0x100 * s[1] + 0x1_0000 * s[2] + 0x100_0000 * s[3]
    ensures var s: seq<int> := Le16(y);
            |s| == 2 && y == s[0] + 0x100 * s[1]
  {
  }

  /** Two's complement view of a signed 32-bit value, and back. */
  function FromS32(v: s32): u32 {
    if v < 0 then v + 0x1_0000_0000 else v
  }

  function ToS32(u: u32): s32 {
    if u < 0x8000_0000 then u else u - 0x1_0000_0000
  }

  /** The two views agree modulo 2 to the 32. */
  lemma TwosComplement(v: s32)
    ensures ToS32(FromS32(v)) == v && (FromS32(v) - v) % 0x1_0000_0000 == 0
  {
  }

  /** What a C cast to a 32-bit signed integer keeps of a wider one. */
  function TruncS32(v: int): s32 {
    ToS32(v % 0x1_0000_0000)
  }

  lemma TruncS32Identity(v: s32)
    ensures TruncS32(v) == v
  {
  }

  lemma TruncS32Fits(v: int)
    ensures TruncS32(v) == v <==> -0x8000_0000 <= v < 0x8000_0000
  {
  }

  function Zeros(n: nat): (s: seq<byte>)
    ensures |s| == n
  {
    seq(n, _ => 0)
  }
}
