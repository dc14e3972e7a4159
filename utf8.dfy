/**
 * Strict UTF-8, as Python's `str.encode("utf-8")` and
 * `bytes.decode("utf-8")` perform it. A Dafny `char` is a Unicode scalar
 * value (surrogates excluded), which is exactly the set of code points
 * that encode without error. The decoder accepts only the well-formed byte
 * sequences of table 3-7 of the Unicode Standard, chapter 3 (no overlong
 * forms, no surrogates, nothing above U+10FFFF) and fails on anything
 * else, the case where Python raises `UnicodeDecodeError`.
 */
module Utf8 {
  import opened Bytes
  import opened Wrappers

  function EncodeChar(c: char): (r: seq<byte>)
    ensures 1 <= |r| <= 4
  {
    var n := c as int;
    if n < 0x80 then [n]
    else if n < 0x800 then [0xC0 + n / 64, 0x80 + n % 64]
    else if n < 0x1_0000 then [0xE0 + n / 64 / 64, 0x80 + n / 64 % 64, 0x80 + n % 64]
    else [0xF0 + n / 64 / 64 / 64, 0x80 + n / 64 / 64 % 64, 0x80 + n / 64 % 64, 0x80 + n % 64]
  }

  /** `s.encode("utf-8")` */
  function Encode(s: string): (r: seq<byte>)
    ensures |r| >= |s|
  {
    if |s| == 0 then [] else EncodeChar(s[0]) + Encode(s[1..])
  }

  predicate IsCont(b: byte) { 0x80 <= b < 0xC0 }

  /** The second byte of a three-byte sequence led by `b0` (table 3-7). */
  predicate Second3(b0: byte, b1: byte) {
    if b0 == 0xE0 then 0xA0 <= b1 < 0xC0
    else if b0 == 0xED then 0x80 <= b1 < 0xA0
    else IsCont(b1)
  }

  /** The second byte of a four-byte sequence led by `b0` (table 3-7). */
  predicate Second4(b0: byte, b1: byte) {
    if b0 == 0xF0 then 0x90 <= b1 < 0xC0
    else if b0 == 0xF4 then 0x80 <= b1 < 0x90
    else IsCont(b1)
  }

  /**
   * The character at the front of `b` and the number of bytes it
   * occupies, or None when `b` does not start with a well-formed sequence.
   */
  function DecodeFirst(b: seq<byte>): (r: Option<(char, nat)>)
    requires |b| > 0
    ensures r.Some? ==> 1 <= r.value.1 <= |b| && r.value.1 <= 4
  {
    var b0 := b[0] as int;
    if b0 < 0x80 then
      Some((b0 as char, 1))
    else if 0xC2 <= b0 < 0xE0 then
      if |b| >= 2 && IsCont(b[1]) then
        Some((((b0 - 0xC0) * 64 + (b[1] as int - 0x80)) as char, 2))
      else None
    else if 0xE0 <= b0 < 0xF0 then
      if |b| >= 3 && Second3(b0, b[1]) && IsCont(b[2]) then
        var n := ((b0 - 0xE0) * 64 + (b[1] as int - 0x80)) * 64 + (b[2] as int - 0x80);
        Some((n as char, 3))
      else None
    else if 0xF0 <= b0 < 0xF5 then
      if |b| >= 4 && Second4(b0, b[1]) && IsCont(b[2]) && IsCont(b[3]) then
        var n := (((b0 - 0xF0) * 64 + (b[1] as int - 0x80)) * 64 + (b[2] as int - 0x80)) * 64 + (b[3] as int - 0x80);
        Some((n as char, 4))
      else None
    else
      None
  }

  /** `b.decode("utf-8")`; None where Python raises `UnicodeDecodeError`. */
  function Decode(b: seq<byte>): (r: Option<string>)
    decreases |b|, 1
  {
    if |b| == 0 then Some([]) else DecodeNonEmpty(b)
  }

  /** Decoding a non-empty byte string: its first character, then the rest. */
  function DecodeNonEmpty(b: seq<byte>): (r: Option<string>)
    requires |b| > 0
    decreases |b|, 0
  {
    match DecodeFirst(b)
    case None => None
    case Some((c, k)) =>
      match Decode(b[k..])
      case None => None
      case Some(rest) => Some([c] + rest)
  }

  /** Splitting a number into its quotient and remainder by 64. */
  lemma DivMod64(q: int, r: int)
    requires 0 <= r < 64
    ensures (q * 64 + r) / 64 == q && (q * 64 + r) % 64 == r
  {
  }

  lemma DecodeFirstOfEncoded(c: char, rest: seq<byte>)
    ensures DecodeFirst(EncodeChar(c) + rest) == Some((c, |EncodeChar(c)|))
  {
    var e := EncodeChar(c) + rest;
    var n := c as int;
    var q1, r1 := n / 64, n % 64;
    assert n == q1 * 64 + r1;
    if n < 0x80 {
    } else if n < 0x800 {
      assert e[0] as int - 0xC0 == q1 && e[1] as int - 0x80 == r1;
    } else if n < 0x1_0000 {
      var q2, r2 := q1 / 64, q1 % 64;
      assert q1 == q2 * 64 + r2;
      assert e[0] as int - 0xE0 == q2 && e[1] as int - 0x80 == r2 && e[2] as int - 0x80 == r1;
    } else {
      var q2, r2 := q1 / 64, q1 % 64;
      assert q1 == q2 * 64 + r2;
      var q3, r3 := q2 / 64, q2 % 64;
      assert q2 == q3 * 64 + r3;
      assert e[0] as int - 0xF0 == q3 && e[1] as int - 0x80 == r3;
      assert e[2] as int - 0x80 == r2 && e[3] as int - 0x80 == r1;
    }
  }

  /** Decoding what was encoded gives back the string. */
  lemma {:induction false} RoundTrip(s: string)
    ensures Decode(Encode(s)) == Some(s)
  {
    if s != [] {
      var e := EncodeChar(s[0]);
      var rest := Encode(s[1..]);
      DecodeFirstOfEncoded(s[0], rest);
      assert (e + rest)[|e|..] == rest;
      RoundTrip(s[1..]);
      assert [s[0]] + s[1..] == s;
    }
  }

  /** The code point a well-formed two-byte sequence denotes splits back into the same two bytes. */
  lemma Split2(x0: int, x1: int)
    requires 0xC2 <= x0 < 0xE0 && 0x80 <= x1 < 0xC0
    ensures var n := (x0 - 0xC0) * 64 + (x1 - 0x80);
      0x80 <= n < 0x800 && 0xC0 + n / 64 == x0 && 0x80 + n % 64 == x1
  {
    DivMod64(x0 - 0xC0, x1 - 0x80);
  }

  /** The same for a three-byte sequence, whose code point is at least U+0800. */
  lemma Split3(x0: int, x1: int, x2: int)
    requires 0xE0 <= x0 < 0xF0 && 0x80 <= x1 < 0xC0 && 0x80 <= x2 < 0xC0 && (x0 == 0xE0 ==> x1 >= 0xA0)
    ensures var n := ((x0 - 0xE0) * 64 + (x1 - 0x80)) * 64 + (x2 - 0x80);
      0x800 <= n < 0x1_0000 && 0xE0 + n / 64 / 64 == x0 && 0x80 + n / 64 % 64 == x1 && 0x80 + n % 64 == x2
  {
    var q1 := (x0 - 0xE0) * 64 + (x1 - 0x80);
    DivMod64(q1, x2 - 0x80);
    DivMod64(x0 - 0xE0, x1 - 0x80);
  }

  /** The same for a four-byte sequence, whose code point is at least U+10000. */
  lemma Split4(x0: int, x1: int, x2: int, x3: int)
    requires 0xF0 <= x0 < 0xF5 && 0x80 <= x1 < 0xC0 && 0x80 <= x2 < 0xC0 && 0x80 <= x3 < 0xC0
    requires x0 == 0xF0 ==> x1 >= 0x90
    ensures var n := (((x0 - 0xF0) * 64 + (x1 - 0x80)) * 64 + (x2 - 0x80)) * 64 + (x3 - 0x80);
      0x1_0000 <= n && 0xF0 + n / 64 / 64 / 64 == x0 && 0x80 + n / 64 / 64 % 64 == x1 &&
      0x80 + n / 64 % 64 == x2 && 0x80 + n % 64 == x3
  {
    var q2 := (x0 - 0xF0) * 64 + (x1 - 0x80);
    var q1 := q2 * 64 + (x2 - 0x80);
    DivMod64(q1, x3 - 0x80);
    DivMod64(q2, x2 - 0x80);
    DivMod64(x0 - 0xF0, x1 - 0x80);
  }

  lemma EncodeOfDecodedFirst(b: seq<byte>)
    requires |b| > 0 && DecodeFirst(b).Some?
    ensures EncodeChar(DecodeFirst(b).value.0) == b[..DecodeFirst(b).value.1]
  {
    var b0 := b[0] as int;
    if b0 < 0x80 {
    } else if b0 < 0xE0 {
      EncodeOfDecoded2(b);
    } else if b0 < 0xF0 {
      EncodeOfDecoded3(b);
    } else {
      EncodeOfDecoded4(b);
    }
  }

  lemma EncodeOfDecoded2(b: seq<byte>)
    requires |b| > 0 && DecodeFirst(b).Some? && 0x80 <= b[0] < 0xE0
    ensures EncodeChar(DecodeFirst(b).value.0) == b[..DecodeFirst(b).value.1]
  {
    Split2(b[0] as int, b[1] as int);
    assert EncodeChar(DecodeFirst(b).value.0) == [b[0], b[1]];
  }

  lemma EncodeOfDecoded3(b: seq<byte>)
    requires |b| > 0 && DecodeFirst(b).Some? && 0xE0 <= b[0] < 0xF0
    ensures EncodeChar(DecodeFirst(b).value.0) == b[..DecodeFirst(b).value.1]
  {
    Split3(b[0] as int, b[1] as int, b[2] as int);
    assert EncodeChar(DecodeFirst(b).value.0) == [b[0], b[1], b[2]];
  }

  lemma EncodeOfDecoded4(b: seq<byte>)
    requires |b| > 0 && DecodeFirst(b).Some? && 0xF0 <= b[0]
    ensures EncodeChar(DecodeFirst(b).value.0) == b[..DecodeFirst(b).value.1]
  {
    Split4(b[0] as int, b[1] as int, b[2] as int, b[3] as int);
    assert EncodeChar(DecodeFirst(b).value.0) == [b[0], b[1], b[2], b[3]];
  }

  /** Every byte string that decodes is the encoding of what it decodes to. */
  lemma {:induction false} DecodeInjective(b: seq<byte>)
    requires Decode(b).Some?
    ensures Encode(Decode(b).value) == b
  {
    if b != [] {
      var first := DecodeFirst(b).value;
      EncodeOfDecodedFirst(b);
      DecodeInjective(b[first.1..]);
      var s := Decode(b).value;
      assert s[0] == first.0 && s[1..] == Decode(b[first.1..]).value;
      assert b == b[..first.1] + b[first.1..];
    }
  }

  /** ASCII text encodes to one byte per character, each the code point. */
  lemma {:induction false} EncodeAscii(s: string)
    requires forall i :: 0 <= i < |s| ==> s[i] as int < 0x80
    ensures |Encode(s)| == |s|
    ensures forall i :: 0 <= i < |s| ==> Encode(s)[i] == s[i] as int
  {
    if s != [] {
      EncodeAscii(s[1..]);
    }
  }
}
