/**
 * Fixed-width unsigned integers and their big-endian (network order) byte
 * forms, as written by `to_be_bytes` / `byteorder::BigEndian`.
 */
module Bytes {

  type uint8 = x: int | 0 <= x < 0x100
  type uint16 = x: int | 0 <= x < 0x1_0000
  type uint32 = x: int | 0 <= x < 0x1_0000_0000

  /** The two bytes of `x`, most significant first. */
  function U16ToBytes(x: uint16): (r: seq<uint8>)
    ensures |r| == 2
  {
    [x / 0x100, x % 0x100]
  }

  /** The value of two bytes read most significant first. */
  function U16FromBytes(b0: uint8, b1: uint8): uint16
  {
    b0 * 0x100 + b1
  }

  /** The four bytes of `x`, most significant first. */
  function U32ToBytes(x: uint32): (r: seq<uint8>)
    ensures |r| == 4
  {
    [x / 0x100_0000, (x / 0x1_0000) % 0x100, (x / 0x100) % 0x100, x % 0x100]
  }

  /** The value of four bytes read most significant first. */
  function U32FromBytes(b0: uint8, b1: uint8, b2: uint8, b3: uint8): uint32
  {
    b0 * 0x100_0000 + b1 * 0x1_0000 + b2 * 0x100 + b3
  }

  lemma U16RoundTrip(x: uint16)
    ensures U16FromBytes(U16ToBytes(x)[0], U16ToBytes(x)[1]) == x
  {
  }

  lemma U16BytesRoundTrip(b0: uint8, b1: uint8)
    ensures U16ToBytes(U16FromBytes(b0, b1)) == [b0, b1]
  {
  }

  lemma U32RoundTrip(x: uint32)
    ensures var b := U32ToBytes(x); U32FromBytes(b[0], b[1], b[2], b[3]) == x
  {
    var q1 := x / 0x100;
    var q2 := q1 / 0x100;
    var q3 := q2 / 0x100;
    assert x == q1 * 0x100 + x % 0x100;
    assert q1 == q2 * 0x100 + q1 % 0x100;
    assert q2 == q3 * 0x100 + q2 % 0x100;
    assert x / 0x1_0000 == q2;
    assert x / 0x100_0000 == q3;
  }

  lemma U32BytesRoundTrip(b0: uint8, b1: uint8, b2: uint8, b3: uint8)
    ensures U32ToBytes(U32FromBytes(b0, b1, b2, b3)) == [b0, b1, b2, b3]
  {
    var x := U32FromBytes(b0, b1, b2, b3);
    assert x / 0x100 == b0 * 0x1_0000 + b1 * 0x100 + b2;
    assert x / 0x1_0000 == b0 * 0x100 + b1;
    assert x / 0x100_0000 == b0;
  }
}
