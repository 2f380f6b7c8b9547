/**
 * UTF-8, the byte form of Rust's `String`: `as_bytes`/`into_bytes` encode,
 * `String::from_utf8`/`str::from_utf8` decode and reject malformed input
 * (overlong forms, surrogates, code points above U+10FFFF, stray
 * continuation bytes, truncated sequences).
 */
module Utf8 {
  import opened Wrappers
  import opened Bytes

  /** Number of bytes the UTF-8 form of `c` takes. */
  function CharWidth(c: char): (w: nat)
    ensures 1 <= w <= 4
  {
    var n := c as int;
    if n < 0x80 then 1 else if n < 0x800 then 2 else if n < 0x1_0000 then 3 else 4
  }

  function EncodeChar(c: char): (r: seq<uint8>)
    ensures |r| == CharWidth(c)
  {
    var n := c as int;
    if n < 0x80 then [n]
    else if n < 0x800 then [0xC0 + n / 0x40, 0x80 + n % 0x40]
    else if n < 0x1_0000 then [0xE0 + n / 0x1000, 0x80 + (n / 0x40) % 0x40, 0x80 + n % 0x40]
    else [0xF0 + n / 0x4_0000, 0x80 + (n / 0x1000) % 0x40, 0x80 + (n / 0x40) % 0x40, 0x80 + n % 0x40]
  }

  /** The UTF-8 bytes of `s` (Rust's `s.as_bytes()`). */
  function Encode(s: string): seq<uint8>
  {
    if s == [] then [] else EncodeChar(s[0]) + Encode(s[1..])
  }

  /** Byte length of the UTF-8 form of `s` (Rust's `str::len`). */
  function ByteLength(s: string): nat
  {
    if s == [] then 0 else CharWidth(s[0]) + ByteLength(s[1..])
  }

  predicate IsContinuation(b: uint8)
  {
    0x80 <= b < 0xC0
  }

  predicate IsScalar(n: int)
  {
    (0 <= n < 0xD800) || (0xE000 <= n < 0x11_0000)
  }

  /**
   * Decodes the character that starts `b`, with the number of bytes it
   * takes; None when `b` does not start with a well-formed UTF-8 sequence.
   * A decoded character re-encodes to exactly the bytes it was read from.
   */
  function DecodeChar(b: seq<uint8>): (r: Option<(char, nat)>)
    ensures r.Some? ==> 1 <= r.value.1 <= |b| && EncodeChar(r.value.0) == b[..r.value.1]
  {
    if |b| == 0 then None
    else if b[0] < 0x80 then Some((b[0] as char, 1))
    else if 0xC2 <= b[0] < 0xE0 then
      if |b| < 2 || !IsContinuation(b[1]) then None
      else
        var n := Value2(b[0], b[1]);
        Reencode2(b[0], b[1]);
        Some((n as char, 2))
    else if 0xE0 <= b[0] < 0xF0 then
      if |b| < 3 || !IsContinuation(b[1]) || !IsContinuation(b[2]) then None
      else
        var n := Value3(b[0], b[1], b[2]);
        if n < 0x800 || !IsScalar(n) then None
        else
          Reencode3(b[0], b[1], b[2]);
          Some((n as char, 3))
    else if 0xF0 <= b[0] < 0xF5 then
      if |b| < 4 || !IsContinuation(b[1]) || !IsContinuation(b[2]) || !IsContinuation(b[3]) then None
      else
        var n := Value4(b[0], b[1], b[2], b[3]);
        if n < 0x1_0000 || 0x11_0000 <= n then None
        else
          Reencode4(b[0], b[1], b[2], b[3]);
          Some((n as char, 4))
    else None
  }

  function Value2(b0: uint8, b1: uint8): int
  {
    (b0 as int - 0xC0) * 0x40 + (b1 as int - 0x80)
  }

  function Value3(b0: uint8, b1: uint8, b2: uint8): int
  {
    (b0 as int - 0xE0) * 0x1000 + (b1 as int - 0x80) * 0x40 + (b2 as int - 0x80)
  }

  function Value4(b0: uint8, b1: uint8, b2: uint8, b3: uint8): int
  {
    (b0 as int - 0xF0) * 0x4_0000 + (b1 as int - 0x80) * 0x1000 + (b2 as int - 0x80) * 0x40 + (b3 as int - 0x80)
  }

  lemma Reencode2(b0: uint8, b1: uint8)
    requires 0xC2 <= b0 < 0xE0 && IsContinuation(b1)
    ensures var n := Value2(b0, b1); 0x80 <= n < 0x800 && EncodeChar(n as char) == [b0, b1]
  {
    var n := Value2(b0, b1);
    assert n / 0x40 == b0 - 0xC0 && n % 0x40 == b1 - 0x80;
  }

  lemma Reencode3(b0: uint8, b1: uint8, b2: uint8)
    requires 0xE0 <= b0 < 0xF0 && IsContinuation(b1) && IsContinuation(b2)
    requires var n := Value3(b0, b1, b2); 0x800 <= n && IsScalar(n)
    ensures var n := Value3(b0, b1, b2); n < 0x1_0000 && EncodeChar(n as char) == [b0, b1, b2]
  {
    var n := Value3(b0, b1, b2);
    var q := n / 0x40;
    assert q == (b0 - 0xE0) * 0x40 + (b1 - 0x80) && n % 0x40 == b2 - 0x80;
    assert q / 0x40 == b0 - 0xE0 && q % 0x40 == b1 - 0x80;
    assert n / 0x1000 == q / 0x40;
  }

  lemma Reencode4(b0: uint8, b1: uint8, b2: uint8, b3: uint8)
    requires 0xF0 <= b0 < 0xF5 && IsContinuation(b1) && IsContinuation(b2) && IsContinuation(b3)
    requires var n := Value4(b0, b1, b2, b3); 0x1_0000 <= n < 0x11_0000
    ensures var n := Value4(b0, b1, b2, b3); EncodeChar(n as char) == [b0, b1, b2, b3]
  {
    var n := Value4(b0, b1, b2, b3);
    var q := n / 0x40;
    var q2 := q / 0x40;
    assert q == (b0 - 0xF0) * 0x1000 + (b1 - 0x80) * 0x40 + (b2 - 0x80) && n % 0x40 == b3 - 0x80;
    assert q2 == (b0 - 0xF0) * 0x40 + (b1 - 0x80) && q % 0x40 == b2 - 0x80;
    assert q2 / 0x40 == b0 - 0xF0 && q2 % 0x40 == b1 - 0x80;
    assert n / 0x1000 == q2;
    assert n / 0x4_0000 == q2 / 0x40;
  }

  /** Rust's `String::from_utf8`: the text `b` encodes, or None when `b` is not UTF-8. */
  function Decode(b: seq<uint8>): (r: Option<string>)
    ensures r.Some? ==> Encode(r.value) == b
    decreases |b|
  {
    if b == [] then Some([])
    else match DecodeChar(b)
      case None => None
      case Some((c, w)) =>
        match Decode(b[w..])
        case None => None
        case Some(rest) =>
          EncodeCons(b, c, w, rest);
          Some([c] + rest)
  }

  lemma EncodeCons(b: seq<uint8>, c: char, w: nat, rest: string)
    requires w <= |b| && EncodeChar(c) == b[..w] && Encode(rest) == b[w..]
    ensures Encode([c] + rest) == b
  {
    var t := [c] + rest;
    assert t[0] == c && t[1..] == rest;
    assert b[..w] + b[w..] == b;
  }

  lemma DecodeEncodeChar(c: char, rest: seq<uint8>)
    ensures DecodeChar(EncodeChar(c) + rest) == Some((c, CharWidth(c)))
  {
    var n := c as int;
    if n < 0x80 {
    } else if n < 0x800 {
      DecodeEncode2(c, rest);
    } else if n < 0x1_0000 {
      DecodeEncode3(c, rest);
    } else {
      DecodeEncode4(c, rest);
    }
  }

  lemma DecodeEncode2(c: char, rest: seq<uint8>)
    requires 0x80 <= c as int < 0x800
    ensures DecodeChar(EncodeChar(c) + rest) == Some((c, 2))
  {
    var n := c as int;
    var b := EncodeChar(c) + rest;
    assert b[0] == 0xC0 + n / 0x40 && b[1] == 0x80 + n % 0x40;
    assert Value2(b[0], b[1]) == n;
  }

  lemma DecodeEncode3(c: char, rest: seq<uint8>)
    requires 0x800 <= c as int < 0x1_0000
    ensures DecodeChar(EncodeChar(c) + rest) == Some((c, 3))
  {
    var n := c as int;
    var b := EncodeChar(c) + rest;
    assert b[0] == 0xE0 + n / 0x1000 && b[1] == 0x80 + (n / 0x40) % 0x40 && b[2] == 0x80 + n % 0x40;
    assert n / 0x1000 == (n / 0x40) / 0x40;
    assert Value3(b[0], b[1], b[2]) == n;
  }

  lemma DecodeEncode4(c: char, rest: seq<uint8>)
    requires 0x1_0000 <= c as int
    ensures DecodeChar(EncodeChar(c) + rest) == Some((c, 4))
  {
    var n := c as int;
    var b := EncodeChar(c) + rest;
    assert b[0] == 0xF0 + n / 0x4_0000 && b[1] == 0x80 + (n / 0x1000) % 0x40;
    assert b[2] == 0x80 + (n / 0x40) % 0x40 && b[3] == 0x80 + n % 0x40;
    assert n / 0x1000 == (n / 0x40) / 0x40;
    assert n / 0x4_0000 == (n / 0x1000) / 0x40;
    assert Value4(b[0], b[1], b[2], b[3]) == n;
  }

  /** Decoding the UTF-8 form of a text gives the text back. */
  lemma {:induction false} DecodeEncode(s: string)
    ensures Decode(Encode(s)) == Some(s)
  {
    if s != [] {
      var e := Encode(s);
      DecodeEncodeChar(s[0], Encode(s[1..]));
      assert e[CharWidth(s[0])..] == Encode(s[1..]);
      DecodeEncode(s[1..]);
      assert [s[0]] + s[1..] == s;
    }
  }

  /** Decoding succeeds on a byte sequence exactly when it is the UTF-8 form of some text. */
  lemma DecodeIffEncoded(b: seq<uint8>)
    ensures Decode(b).Some? <==> exists s :: Encode(s) == b
  {
    if exists s :: Encode(s) == b {
      var s :| Encode(s) == b;
      DecodeEncode(s);
    }
  }

  lemma {:induction false} EncodeLength(s: string)
    ensures |Encode(s)| == ByteLength(s)
  {
    if s != [] {
      EncodeLength(s[1..]);
    }
  }

  lemma {:induction false} EncodeAppend(s: string, t: string)
    ensures Encode(s + t) == Encode(s) + Encode(t)
  {
    if s == [] {
      assert s + t == t;
    } else {
      assert (s + t)[0] == s[0] && (s + t)[1..] == s[1..] + t;
      EncodeAppend(s[1..], t);
    }
  }

  /** A text of ASCII characters only has one byte per character, equal to the code. */
  predicate IsAscii(s: string)
  {
    forall i | 0 <= i < |s| :: s[i] as int < 0x80
  }

  /** The bytes of an ASCII text, as a Rust byte-string literal `b"..."` gives them. */
  function AsciiBytes(s: string): (r: seq<uint8>)
    requires IsAscii(s)
    ensures |r| == |s|
    ensures forall i | 0 <= i < |s| :: r[i] == s[i] as int
  {
    seq(|s|, i requires 0 <= i < |s| => s[i] as int)
  }

  lemma {:induction false} EncodeAscii(s: string)
    requires IsAscii(s)
    ensures Encode(s) == AsciiBytes(s)
  {
    if s != [] {
      EncodeAscii(s[1..]);
    }
  }
}
