/**
 * Key storage format and signature checking (rogue_talk/common/crypto.py).
 * Keys are kept as hex text: `bytes.hex()` writes two lowercase digits per
 * byte and `bytes.fromhex()` reads them back, accepting either case and
 * ASCII whitespace between byte pairs. The Ed25519 primitives belong to an
 * external library and are a parameter here.
 */
module Crypto {
  import opened Wrappers
  import opened Bytes
  import opened Errors
  import Utf8

  predicate IsLowerHexDigit(c: char) {
    '0' <= c <= '9' || 'a' <= c <= 'f'
  }

  /** The value of a hexadecimal digit in either case, None for any other character. */
  function DigitValue(c: char): (r: Option<nat>)
    ensures r.Some? ==> r.value < 16
    ensures r.Some? <==> IsLowerHexDigit(c) || 'A' <= c <= 'F'
  {
    if '0' <= c <= '9' then Some(c as int - '0' as int)
    else if 'a' <= c <= 'f' then Some(c as int - 'a' as int + 10)
    else if 'A' <= c <= 'F' then Some(c as int - 'A' as int + 10)
    else None
  }

  /** The lowercase digit for a nibble. */
  function HexDigit(n: nat): (c: char)
    requires n < 16
    ensures IsLowerHexDigit(c) && DigitValue(c) == Some(n)
  {
    if n < 10 then ('0' as int + n) as char else ('a' as int + n - 10) as char
  }

  lemma DigitRoundTrip(c: char)
    requires IsLowerHexDigit(c)
    ensures HexDigit(DigitValue(c).value) == c
  {
  }

  lemma Nibbles(hi: nat, lo: nat)
    requires hi < 16 && lo < 16
    ensures (hi * 16 + lo) / 16 == hi && (hi * 16 + lo) % 16 == lo
  {
  }

  /** The characters CPython's `Py_ISSPACE` accepts: space, tab, newline, vertical tab, form feed, carriage return. */
  predicate IsSpace(c: char) {
    c == ' ' || c == '\t' || c == '\n' || c == '\U{B}' || c == '\U{C}' || c == '\r'
  }

  /** `bytes.hex()`: two lowercase digits per byte, high nibble first. */
  function Hex(b: seq<byte>): string
    decreases |b|
  {
    if |b| == 0 then "" else [HexDigit(b[0] / 16), HexDigit(b[0] % 16)] + Hex(b[1..])
  }

  /**
   * `bytes.fromhex(s)`: whitespace before a byte pair is skipped; a
   * character that is not a hex digit where a digit is due, or a final lone
   * digit, raises ValueError.
   */
  function FromHex(s: string): Result<seq<byte>, Error>
    decreases |s|
  {
    if |s| == 0 then Success([])
    else if IsSpace(s[0]) then FromHex(s[1..])
    else if |s| < 2 || DigitValue(s[0]).None? || DigitValue(s[1]).None? then Failure(ValueError)
    else
      var rest :- FromHex(s[2..]);
      Success([DigitValue(s[0]).value * 16 + DigitValue(s[1]).value] + rest)
  }

  /** The serialized form has two characters per byte, all of them lowercase hex digits. */
  lemma {:induction false} HexShape(b: seq<byte>)
    ensures |Hex(b)| == 2 * |b|
    ensures forall i :: 0 <= i < |Hex(b)| ==> IsLowerHexDigit(Hex(b)[i])
    decreases |b|
  {
    if b != [] {
      HexShape(b[1..]);
      var h := Hex(b);
      var t := Hex(b[1..]);
      forall i | 0 <= i < |h| ensures IsLowerHexDigit(h[i]) {
        if i >= 2 {
          assert h[i] == t[i - 2];
        }
      }
    }
  }

  /** `deserialize_*_key(serialize_*_key(k)) == k`, for private and public keys alike. */
  lemma {:induction false} HexRoundTrip(b: seq<byte>)
    ensures FromHex(Hex(b)) == Success(b)
    decreases |b|
  {
    if b != [] {
      var h := Hex(b);
      HexRoundTrip(b[1..]);
      assert h[2..] == Hex(b[1..]);
      assert b[0] / 16 * 16 + b[0] % 16 == b[0];
      assert [b[0]] + b[1..] == b;
    }
  }

  /** Text made of lowercase hex digit pairs is exactly the serialization of what it reads as. */
  lemma {:induction false} CanonicalRoundTrip(s: string)
    requires |s| % 2 == 0 && forall i :: 0 <= i < |s| ==> IsLowerHexDigit(s[i])
    ensures FromHex(s).Success? && Hex(FromHex(s).value) == s
    decreases |s|
  {
    if s != [] {
      assert IsLowerHexDigit(s[0]) && IsLowerHexDigit(s[1]);
      var rest := s[2..];
      assert forall i :: 0 <= i < |rest| ==> rest[i] == s[i + 2];
      CanonicalRoundTrip(rest);
      var bs := FromHex(rest).value;
      var hi, lo := DigitValue(s[0]).value, DigitValue(s[1]).value;
      var v: byte := hi * 16 + lo;
      assert !IsSpace(s[0]);
      assert FromHex(s) == Success([v] + bs);
      Nibbles(hi, lo);
      DigitRoundTrip(s[0]);
      DigitRoundTrip(s[1]);
      HexCons(v, bs);
      assert s == [s[0], s[1]] + rest;
    }
  }

  lemma HexCons(v: byte, bs: seq<byte>)
    ensures Hex([v] + bs) == [HexDigit(v / 16), HexDigit(v % 16)] + Hex(bs)
  {
    assert ([v] + bs)[1..] == bs;
  }

  /** An odd number of hex digits, as from a truncated key file, never reads back. */
  lemma {:induction false} FromHexOddFails(s: string)
    requires |s| % 2 == 1 && forall i :: 0 <= i < |s| ==> DigitValue(s[i]).Some?
    ensures FromHex(s) == Failure(ValueError)
    decreases |s|
  {
    if |s| >= 2 {
      var rest := s[2..];
      assert forall i :: 0 <= i < |rest| ==> rest[i] == s[i + 2];
      assert !IsSpace(s[0]) by {
        assert DigitValue(s[0]).Some?;
      }
      FromHexOddFails(rest);
    } else {
      assert !IsSpace(s[0]) by {
        assert DigitValue(s[0]).Some?;
      }
    }
  }

  /**
   * The Ed25519 library: whether a public key loads, and whether a
   * signature over a message checks out under a key. Both raise in the
   * library when the answer is no.
   */
  datatype Ed25519 = Ed25519(loads: seq<byte> -> bool, checks: (seq<byte>, seq<byte>, seq<byte>) -> bool)

  /** The signed challenge: the nonce followed by the player's name in UTF-8. */
  function ChallengeMessage(nonce: seq<byte>, name: string): seq<byte> {
    nonce + Utf8.Encode(name)
  }

  /** `verify_signature`: any failure in loading the key or checking the signature answers false. */
  function VerifySignature(lib: Ed25519, publicKey: seq<byte>, nonce: seq<byte>, name: string, signature: seq<byte>): (ok: bool)
    ensures ok <==> lib.loads(publicKey) && lib.checks(publicKey, signature, ChallengeMessage(nonce, name))
  {
    if !lib.loads(publicKey) then false
    else lib.checks(publicKey, signature, ChallengeMessage(nonce, name))
  }

  /**
   * For nonces of one length, the challenge message determines the nonce
   * and the name, so a signature made for one name cannot pass for another.
   */
  lemma ChallengeMessageInjective(n1: seq<byte>, a: string, n2: seq<byte>, b: string)
    requires |n1| == |n2| && ChallengeMessage(n1, a) == ChallengeMessage(n2, b)
    ensures n1 == n2 && a == b
  {
    var m := ChallengeMessage(n1, a);
    assert m[|n1|..] == Utf8.Encode(a);
    assert ChallengeMessage(n2, b)[|n2|..] == Utf8.Encode(b);
    Utf8.RoundTrip(a);
    Utf8.RoundTrip(b);
  }
}
