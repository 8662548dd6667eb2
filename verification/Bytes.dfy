/** Fixed-width integers and the little-endian fields every wire and storage format here is built from. */
module Bytes {
  type byte = x: int | 0 <= x < 0x100
  type uint16 = x: int | 0 <= x < 0x1_0000
  type uint32 = x: int | 0 <= x < 0x1_0000_0000
  type int16 = x: int | -0x8000 <= x < 0x8000
  type int32 = x: int | -0x8000_0000 <= x < 0x8000_0000

  const INT32_MIN: int32 := -0x8000_0000
  const INT32_MAX: int32 := 0x7FFF_FFFF

  datatype Option<+T> = None | Some(value: T)

  /** Addition as the firmware's `uint32_t` performs it. */
  function Add32(a: uint32, b: nat): uint32 { (a + b) % 0x1_0000_0000 }

  /** Subtraction as the firmware's `uint32_t` performs it. */
  function Sub32(a: uint32, b: uint32): uint32 { (a - b) % 0x1_0000_0000 }

  // Two's complement casts.

  function AsU16(v: int16): uint16 { if v < 0 then v + 0x1_0000 else v }
  function AsI16(v: uint16): int16 { if v >= 0x8000 then v - 0x1_0000 else v }
  function AsU32(v: int32): uint32 { if v < 0 then v + 0x1_0000_0000 else v }
  function AsI32(v: uint32): int32 { if v >= 0x8000_0000 then v - 0x1_0000_0000 else v }

  function Le16(v: uint16): (b: seq<byte>)
    ensures |b| == 2
  {
    [v % 0x100, v / 0x100]
  }

  function Le32(v: uint32): (b: seq<byte>)
    ensures |b| == 4
  {
    Le16(v % 0x1_0000) + Le16(v / 0x1_0000)
  }

  function U16At(s: seq<byte>, i: nat): uint16
    requires i + 2 <= |s|
  {
    (s[i] as int) + 0x100 * (s[i + 1] as int)
  }

  function U32At(s: seq<byte>, i: nat): uint32
    requires i + 4 <= |s|
  {
    (U16At(s, i) as int) + 0x1_0000 * (U16At(s, i + 2) as int)
  }

  function I32At(s: seq<byte>, i: nat): int32
    requires i + 4 <= |s|
  {
    AsI32(U32At(s, i))
  }

  /** Reading a 16-bit field back gives the value written, and writing what was read gives the bytes back. */
  lemma U16RoundTrip(s: seq<byte>, i: nat, v: uint16)
    requires i + 2 <= |s|
    ensures s[i..i + 2] == Le16(v) <==> U16At(s, i) == v
  {
    var w := s[i..i + 2];
    assert w[0] == s[i] && w[1] == s[i + 1];
    if U16At(s, i) == v {
      assert w == Le16(v);
    }
  }

  /** The bytes of a field carry its value by weight, the lowest first. */
  lemma BytesByWeight(v: uint32)
    ensures
      var b := Le32(v);
      v == b[0] as int + 0x100 * (b[1] as int) + 0x1_0000 * (b[2] as int) + 0x100_0000 * (b[3] as int)
    ensures v < 0x1_0000 ==> v == Le16(v)[0] as int + 0x100 * (Le16(v)[1] as int)
  {}

  lemma U32RoundTrip(s: seq<byte>, i: nat, v: uint32)
    requires i + 4 <= |s|
    ensures s[i..i + 4] == Le32(v) <==> U32At(s, i) == v
  {
    U16RoundTrip(s, i, v % 0x1_0000);
    U16RoundTrip(s, i + 2, v / 0x1_0000);
    var w := s[i..i + 4];
    assert w[..2] == s[i..i + 2] && w[2..] == s[i + 2..i + 4];
    assert Le32(v)[..2] == Le16(v % 0x1_0000) && Le32(v)[2..] == Le16(v / 0x1_0000);
    assert w == w[..2] + w[2..];
  }

  method WriteU16(buffer: array<byte>, offset: nat, v: uint16)
    requires offset + 2 <= buffer.Length
    modifies buffer
    ensures buffer[..] == old(buffer[..offset]) + Le16(v) + old(buffer[offset + 2..])
  {
    buffer[offset] := v % 0x100;
    buffer[offset + 1] := v / 0x100;
  }

  method WriteU32(buffer: array<byte>, offset: nat, v: uint32)
    requires offset + 4 <= buffer.Length
    modifies buffer
    ensures buffer[..] == old(buffer[..offset]) + Le32(v) + old(buffer[offset + 4..])
  {
    WriteU16(buffer, offset, v % 0x1_0000);
    WriteU16(buffer, offset + 2, v / 0x1_0000);
  }

  method ReadU16(buffer: array<byte>, offset: nat) returns (v: uint16)
    requires offset + 2 <= buffer.Length
    ensures v == U16At(buffer[..], offset)
  {
    v := (buffer[offset] as int) + 0x100 * (buffer[offset + 1] as int);
  }

  method ReadU32(buffer: array<byte>, offset: nat) returns (v: uint32)
    requires offset + 4 <= buffer.Length
    ensures v == U32At(buffer[..], offset)
  {
    var lo := ReadU16(buffer, offset);
    var hi := ReadU16(buffer, offset + 2);
    v := (lo as int) + 0x1_0000 * (hi as int);
  }
}
