/** UTF-8 (RFC 3629): the byte form of text that `TextEncoder` produces and
    a strict `TextDecoder` accepts. Characters are Unicode scalar values,
    so every character has an encoding. */
module Utf8 {
  import opened Wrappers
  import Base64

  type Byte = Base64.Byte

  /** Section 3 of RFC 3629: one to four bytes per scalar value. */
  function EncodeChar(c: char): (r: seq<Byte>)
    ensures 1 <= |r| <= 4
  {
    var n := c as int;
    if n < 0x80 then [n]
    else if n < 0x800 then [0xC0 + n / 64, 0x80 + n % 64]
    else if n < 0x1_0000 then [0xE0 + n / 4096, 0x80 + (n / 64) % 64, 0x80 + n % 64]
    else [0xF0 + n / 262144, 0x80 + (n / 4096) % 64, 0x80 + (n / 64) % 64, 0x80 + n % 64]
  }

  function Encode(s: string): (r: seq<Byte>)
    ensures |r| >= |s|
  {
    if |s| == 0 then [] else EncodeChar(s[0]) + Encode(s[1..])
  }

  predicate IsContinuation(b: Byte)
  {
    0x80 <= b < 0xC0
  }

  /** A scalar value: not a surrogate, at most U+10FFFF. */
  predicate IsScalar(n: int)
  {
    (0 <= n < 0xD800) || (0xE000 <= n < 0x11_0000)
  }

  /** The character the bytes at the start of `b` encode and how many bytes
      it takes; `None` for a malformed, overlong or surrogate sequence. */
  function DecodeFirst(b: seq<Byte>): (r: Option<(char, nat)>)
    requires |b| > 0
    ensures r.Some? ==> 1 <= r.value.1 <= |b| && r.value.1 <= 4
  {
    var b0: int := b[0];
    if b0 < 0x80 then Some((b0 as char, 1))
    else if 0xC2 <= b0 < 0xE0 && |b| >= 2 && IsContinuation(b[1]) then
      var b1: int := b[1];
      var n := (b0 - 0xC0) * 64 + (b1 - 0x80);
      Some((n as char, 2))
    else if 0xE0 <= b0 < 0xF0 && |b| >= 3 && IsContinuation(b[1]) && IsContinuation(b[2]) then
      var b1: int, b2: int := b[1], b[2];
      var n := (b0 - 0xE0) * 4096 + (b1 - 0x80) * 64 + (b2 - 0x80);
      if 0x800 <= n && IsScalar(n) then Some((n as char, 3)) else None
    else if 0xF0 <= b0 < 0xF5 && |b| >= 4 && IsContinuation(b[1]) && IsContinuation(b[2]) && IsContinuation(b[3]) then
      var b1: int, b2: int, b3: int := b[1], b[2], b[3];
      var n := (b0 - 0xF0) * 262144 + (b1 - 0x80) * 4096 + (b2 - 0x80) * 64 + (b3 - 0x80);
      if 0x1_0000 <= n < 0x11_0000 then Some((n as char, 4)) else None
    else None
  }

  /** A fatal `TextDecoder`: the text the bytes encode, `None` when they are
      not UTF-8. */
  function Decode(b: seq<Byte>): Option<string>
    decreases |b|
  {
    if |b| == 0 then Some("")
    else match DecodeFirst(b)
      case None => None
      case Some((c, k)) =>
        match Decode(b[k..])
        case None => None
        case Some(rest) => Some([c] + rest)
  }

  /** Each character's bytes decode back to it, whatever follows. */
  lemma DecodeFirstOfChar(c: char, rest: seq<Byte>)
    ensures DecodeFirst(EncodeChar(c) + rest) == Some((c, |EncodeChar(c)|))
  {
    var n := c as int;
    if 0x80 <= n < 0x800 {
      TwoByteDigits(n);
    } else if 0x800 <= n < 0x1_0000 {
      ThreeByteDigits(n);
    } else if 0x1_0000 <= n {
      FourByteDigits(n);
    }
  }

  lemma TwoByteDigits(n: int)
    requires 0x80 <= n < 0x800
    ensures 2 <= n / 64 < 32 && n == (n / 64) * 64 + n % 64
  {
  }

  lemma ThreeByteDigits(n: int)
    requires 0x800 <= n < 0x1_0000
    ensures n / 4096 < 16 && n == (n / 4096) * 4096 + ((n / 64) % 64) * 64 + n % 64
  {
    assert n / 64 == (n / 4096) * 64 + (n / 64) % 64;
  }

  lemma FourByteDigits(n: int)
    requires 0x1_0000 <= n < 0x11_0000
    ensures n / 262144 < 5
    ensures n == (n / 262144) * 262144 + ((n / 4096) % 64) * 4096 + ((n / 64) % 64) * 64 + n % 64
  {
    assert n / 64 == (n / 4096) * 64 + (n / 64) % 64;
    assert n / 4096 == (n / 262144) * 64 + (n / 4096) % 64;
  }

  /** Decoding undoes encoding, for every string. */
  lemma {:induction false} DecodeEncode(s: string)
    ensures Decode(Encode(s)) == Some(s)
  {
    if |s| > 0 {
      var e := EncodeChar(s[0]);
      var rest := Encode(s[1..]);
      DecodeFirstOfChar(s[0], rest);
      assert (e + rest)[|e|..] == rest;
      DecodeEncode(s[1..]);
      assert [s[0]] + s[1..] == s;
    }
  }

  /** Characters below U+0080 are their own single byte. */
  lemma AsciiIsOneByte(c: char)
    requires c as int < 0x80
    ensures EncodeChar(c) == [c as int]
  {
  }
}
