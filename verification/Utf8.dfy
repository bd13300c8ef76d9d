/** UTF-8 (sections 3 and 4 of RFC 3629), as far as canonical ledger lines need it. */
module Utf8 {
  import opened Wrappers

  type Byte = n: int | 0 <= n < 256

  const LF: Byte := 10
  const CR: Byte := 13

  function EncodeChar(c: char): (r: seq<Byte>)
    ensures 1 <= |r| <= 4
  {
    var n := c as int;
    if n < 0x80 then [n]
    else if n < 0x800 then [0xC0 + n / 64, 0x80 + n % 64]
    else if n < 0x1_0000 then [0xE0 + n / 4096, 0x80 + n / 64 % 64, 0x80 + n % 64]
    else [0xF0 + n / 262144, 0x80 + n / 4096 % 64, 0x80 + n / 64 % 64, 0x80 + n % 64]
  }

  function Encode(s: string): seq<Byte> {
    if s == "" then [] else EncodeChar(s[0]) + Encode(s[1..])
  }

  predicate IsScalar(n: int) {
    0 <= n < 0xD800 || 0xE000 <= n < 0x11_0000
  }

  /** The payload bits of a lead or tail byte. */
  function Bits(b: Byte, mark: int): int { b - mark }

  predicate IsTail(b: Byte) { 0x80 <= b < 0xC0 }

  datatype Decoded = Decoded(code: char, width: nat)

  /** The first character of `b`; overlong forms and surrogates are rejected. */
  function DecodeChar(b: seq<Byte>): (r: Option<Decoded>)
    ensures r.Some? ==> 0 < r.value.width <= |b|
  {
    if b == [] then None
    else if b[0] < 0x80 then Some(Decoded(b[0] as char, 1))
    else if 0xC0 <= b[0] < 0xE0 && |b| >= 2 && IsTail(b[1]) then
      Scalar(Bits(b[0], 0xC0) * 64 + Bits(b[1], 0x80), 0x80, 2)
    else if 0xE0 <= b[0] < 0xF0 && |b| >= 3 && IsTail(b[1]) && IsTail(b[2]) then
      Scalar(Bits(b[0], 0xE0) * 4096 + Bits(b[1], 0x80) * 64 + Bits(b[2], 0x80), 0x800, 3)
    else if 0xF0 <= b[0] < 0xF8 && |b| >= 4 && IsTail(b[1]) && IsTail(b[2]) && IsTail(b[3]) then
      Scalar(Bits(b[0], 0xF0) * 262144 + Bits(b[1], 0x80) * 4096 + Bits(b[2], 0x80) * 64 + Bits(b[3], 0x80), 0x1_0000,
        4)
    else None
  }

  function Scalar(n: int, least: int, width: nat): Option<Decoded> {
    if IsScalar(n) && least <= n then Some(Decoded(n as char, width)) else None
  }

  function Decode(b: seq<Byte>): Option<string>
    decreases |b|
  {
    if b == [] then Some("")
    else
      match DecodeChar(b)
      case None => None
      case Some(d) =>
        match Decode(b[d.width..])
        case None => None
        case Some(rest) => Some([d.code] + rest)
  }

  lemma DecodeShortChar(c: char, rest: seq<Byte>)
    requires c as int < 0x1_0000
    ensures DecodeChar(EncodeChar(c) + rest) == Some(Decoded(c, |EncodeChar(c)|))
  {
    var n := c as int;
    assert IsScalar(n);
    if 0x80 <= n < 0x800 {
      assert n == n / 64 * 64 + n % 64;
    } else if 0x800 <= n {
      assert n == n / 4096 * 4096 + n / 64 % 64 * 64 + n % 64;
    }
  }

  lemma LongParts(n: int)
    ensures n == n / 262144 * 262144 + n / 4096 % 64 * 4096 + n / 64 % 64 * 64 + n % 64
  {
    Nested(n, 64);
    Nested(n, 4096);
    assert n == n / 64 * 64 + n % 64;
    assert n / 64 == n / 4096 * 64 + n / 64 % 64;
    assert n / 4096 == n / 262144 * 64 + n / 4096 % 64;
  }

  lemma Nested(n: int, d: int)
    requires d == 64 || d == 4096
    ensures n / (d * 64) == n / d / 64
  {
  }

  lemma DecodeLongChar(c: char, rest: seq<Byte>)
    requires 0x1_0000 <= c as int
    ensures DecodeChar(EncodeChar(c) + rest) == Some(Decoded(c, |EncodeChar(c)|))
  {
    var n := c as int;
    assert IsScalar(n);
    LongParts(n);
  }

  lemma DecodeEncodedChar(c: char, rest: seq<Byte>)
    ensures DecodeChar(EncodeChar(c) + rest) == Some(Decoded(c, |EncodeChar(c)|))
  {
    if c as int < 0x1_0000 { DecodeShortChar(c, rest); } else { DecodeLongChar(c, rest); }
  }

  /** Decoding undoes encoding, for every string. */
  lemma {:induction false} DecodeEncode(s: string)
    ensures Decode(Encode(s)) == Some(s)
  {
    if s != "" {
      DecodeEncodedChar(s[0], Encode(s[1..]));
      assert (EncodeChar(s[0]) + Encode(s[1..]))[|EncodeChar(s[0])|..] == Encode(s[1..]);
      DecodeEncode(s[1..]);
      assert s == [s[0]] + s[1..];
    }
  }

  /** The payloads of a character of up to four bytes, taken apart again. */
  lemma PayloadsApart(n: int, a: int, b: int, c: int, d: int)
    requires 0 <= b < 64 && 0 <= c < 64 && 0 <= d < 64 && n == a * 262144 + b * 4096 + c * 64 + d
    ensures n / 262144 == a && n / 4096 == a * 64 + b && n / 4096 % 64 == b
    ensures n / 64 == (a * 64 + b) * 64 + c && n / 64 % 64 == c && n % 64 == d
  {
    assert n / 64 == (a * 64 + b) * 64 + c && n % 64 == d;
    assert n / 4096 == a * 64 + b;
  }

  lemma EncodeDecodedChar(b: seq<Byte>)
    requires DecodeChar(b).Some?
    ensures
      var d := DecodeChar(b).value;
      d.width <= |b| && EncodeChar(d.code) == b[..d.width]
  {
    var d := DecodeChar(b).value;
    var n := d.code as int;
    var v: seq<int> := b;
    if d.width == 2 {
      PayloadsApart(n, 0, 0, v[0] - 0xC0, v[1] - 0x80);
    } else if d.width == 3 {
      PayloadsApart(n, 0, v[0] - 0xE0, v[1] - 0x80, v[2] - 0x80);
    } else if d.width == 4 {
      PayloadsApart(n, v[0] - 0xF0, v[1] - 0x80, v[2] - 0x80, v[3] - 0x80);
    }
  }

  /** Bytes decode to a string exactly when they are its encoding. */
  lemma {:induction false} DecodeExactly(b: seq<Byte>, s: string)
    ensures Decode(b) == Some(s) <==> b == Encode(s)
    decreases |b|
  {
    DecodeEncode(s);
    if b != [] && Decode(b) == Some(s) {
      var d := DecodeChar(b).value;
      EncodeDecodedChar(b);
      DecodeExactly(b[d.width..], s[1..]);
      assert b == b[..d.width] + b[d.width..];
    }
  }

  lemma {:induction false} EncodeConcat(s: string, t: string)
    ensures Encode(s + t) == Encode(s) + Encode(t)
  {
    if s == "" {
      assert s + t == t;
    } else {
      assert (s + t)[1..] == s[1..] + t;
      EncodeConcat(s[1..], t);
    }
  }

  /** An ASCII byte occurs in the encoding exactly where its character occurs in the string. */
  lemma {:induction false} AsciiOnlyItself(s: string, a: Byte)
    requires a < 0x80
    ensures a in Encode(s) <==> (a as char) in s
  {
    if s == "" {
      assert |s| == 0 && Encode(s) == [];
    } else {
      AsciiOnlyItself(s[1..], a);
      var head, tail := EncodeChar(s[0]), Encode(s[1..]);
      var n := s[0] as int;
      if n >= 0x80 { assert forall i | 0 <= i < |head| :: head[i] >= 0x80; } else { assert head == [n]; }
      assert Encode(s) == head + tail;
      assert s == [s[0]] + s[1..];
    }
  }
}
