/**
 * Bytes and the big-endian fixed-width integers that Python's `struct`
 * packs with the `>` prefix: `B` (one byte), `H` (two bytes) and `I`
 * (four bytes). Packing a value outside the field's range raises
 * `struct.error`; here the encoders require the range and the callers
 * (the serializers) model the error.
 */
module Bytes {

  type byte = x: int | 0 <= x < 256

  const U16_LIMIT: int := 0x1_0000
  const U32_LIMIT: int := 0x1_0000_0000

  predicate FitsU8(n: int) { 0 <= n < 256 }
  predicate FitsU16(n: int) { 0 <= n < U16_LIMIT }
  predicate FitsU32(n: int) { 0 <= n < U32_LIMIT }

  /** `struct.pack(">H", n)` */
  function PackU16(n: int): (r: seq<byte>)
    requires FitsU16(n)
    ensures |r| == 2
  {
    [n / 256, n % 256]
  }

  /** `struct.unpack(">H", b)[0]` */
  function UnpackU16(b: seq<byte>): (n: int)
    requires |b| == 2
    ensures FitsU16(n)
  {
    (b[0] as int) * 256 + b[1]
  }

  /** `struct.pack(">I", n)` */
  function PackU32(n: int): (r: seq<byte>)
    requires FitsU32(n)
    ensures |r| == 4
  {
    [n / 0x100_0000, (n / 0x1_0000) % 256, (n / 256) % 256, n % 256]
  }

  /** `struct.unpack(">I", b)[0]` */
  function UnpackU32(b: seq<byte>): (n: int)
    requires |b| == 4
    ensures FitsU32(n)
  {
    (((b[0] as int) * 256 + b[1]) * 256 + b[2]) * 256 + b[3]
  }

  lemma U16RoundTrip(n: int)
    requires FitsU16(n)
    ensures UnpackU16(PackU16(n)) == n
  {
  }

  lemma U16Injective(b: seq<byte>)
    requires |b| == 2
    ensures PackU16(UnpackU16(b)) == b
  {
  }

  lemma U32RoundTrip(n: int)
    requires FitsU32(n)
    ensures UnpackU32(PackU32(n)) == n
  {
    var q1 := n / 256;
    var q2 := q1 / 256;
    var q3 := q2 / 256;
    assert n == q1 * 256 + n % 256;
    assert q1 == q2 * 256 + q1 % 256;
    assert q2 == q3 * 256 + q2 % 256;
    assert q2 == n / 0x1_0000;
    assert q3 == n / 0x100_0000;
    assert ((q3 * 256 + q2 % 256) * 256 + q1 % 256) * 256 + n % 256 == n;
  }

  lemma U32Injective(b: seq<byte>)
    requires |b| == 4
    ensures PackU32(UnpackU32(b)) == b
  {
    var n := UnpackU32(b);
    var hi := (b[0] as int) * 256 + b[1];
    var mid := hi * 256 + b[2];
    assert n == mid * 256 + b[3];
    assert n % 256 == b[3] && n / 256 == mid;
    assert mid % 256 == b[2] && mid / 256 == hi;
    assert hi % 256 == b[1] && hi / 256 == b[0];
    assert n / 0x1_0000 == mid / 256;
    assert n / 0x100_0000 == hi / 256;
  }

  /**
   * Python's slice `b[lo:hi]` for non-negative bounds: bounds past the end
   * are clamped to the length, so a short input yields a short slice
   * instead of an error.
   */
  function Slice<T>(b: seq<T>, lo: nat, hi: nat): (r: seq<T>)
    ensures |r| == if lo >= |b| || hi <= lo then 0 else (if hi <= |b| then hi else |b|) - lo
  {
    var h := if hi <= |b| then hi else |b|;
    if lo >= h then [] else b[lo..h]
  }
}
