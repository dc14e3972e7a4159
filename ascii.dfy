/**
 * Python's `"ascii"` codec: `str.encode("ascii")` and `bytes.decode("ascii")`.
 * Both fail on anything outside 0..127; None stands for the exception.
 */
module Ascii {
  import opened Wrappers
  import opened Bytes

  predicate IsAscii(s: string) {
    forall i :: 0 <= i < |s| ==> s[i] as int < 0x80
  }

  predicate IsAsciiBytes(b: seq<byte>) {
    forall i :: 0 <= i < |b| ==> b[i] < 0x80
  }

  function Encode(s: string): (r: Option<seq<byte>>)
    decreases |s|
  {
    if |s| == 0 then Some([])
    else if s[0] as int >= 0x80 then None
    else match Encode(s[1..])
      case None => None
      case Some(rest) => Some([s[0] as int] + rest)
  }

  function Decode(b: seq<byte>): (r: Option<string>)
    decreases |b|
  {
    if |b| == 0 then Some([])
    else if b[0] >= 0x80 then None
    else match Decode(b[1..])
      case None => None
      case Some(rest) => Some([b[0] as char] + rest)
  }

  /** Encoding succeeds exactly on ASCII text, one byte per character. */
  lemma {:induction false} EncodeSpec(s: string)
    ensures Encode(s).Some? <==> IsAscii(s)
    ensures Encode(s).Some? ==> |Encode(s).value| == |s| && IsAsciiBytes(Encode(s).value)
    ensures Encode(s).Some? ==> forall i :: 0 <= i < |s| ==> Encode(s).value[i] == s[i] as int
    decreases |s|
  {
    if s != [] {
      EncodeSpec(s[1..]);
      if IsAscii(s[1..]) && s[0] as int < 0x80 {
        assert IsAscii(s) by {
          forall i | 0 <= i < |s| ensures s[i] as int < 0x80 {
            if i > 0 { assert s[i] == s[1..][i - 1]; }
          }
        }
        var r := Encode(s).value;
        forall i | 0 <= i < |s| ensures r[i] == s[i] as int {
          if i > 0 { assert r[i] == Encode(s[1..]).value[i - 1]; }
        }
      } else if s[0] as int < 0x80 {
        var i :| 0 <= i < |s[1..]| && s[1..][i] as int >= 0x80;
        assert s[i + 1] == s[1..][i];
      }
    }
  }

  /** Decoding succeeds exactly on bytes below 0x80, one character per byte. */
  lemma {:induction false} DecodeSpec(b: seq<byte>)
    ensures Decode(b).Some? <==> IsAsciiBytes(b)
    ensures Decode(b).Some? ==> |Decode(b).value| == |b| && IsAscii(Decode(b).value)
    ensures Decode(b).Some? ==> forall i :: 0 <= i < |b| ==> Decode(b).value[i] as int == b[i]
    decreases |b|
  {
    if b != [] {
      DecodeSpec(b[1..]);
      if IsAsciiBytes(b[1..]) && b[0] < 0x80 {
        assert IsAsciiBytes(b) by {
          forall i | 0 <= i < |b| ensures b[i] < 0x80 {
            if i > 0 { assert b[i] == b[1..][i - 1]; }
          }
        }
        var r := Decode(b).value;
        forall i | 0 <= i < |b| ensures r[i] as int == b[i] {
          if i > 0 { assert r[i] == Decode(b[1..]).value[i - 1]; }
        }
      } else if b[0] < 0x80 {
        var i :| 0 <= i < |b[1..]| && b[1..][i] >= 0x80;
        assert b[i + 1] == b[1..][i];
      }
    }
  }

  lemma RoundTrip(s: string)
    requires IsAscii(s)
    ensures Encode(s).Some? && Decode(Encode(s).value) == Some(s)
  {
    EncodeSpec(s);
    var b := Encode(s).value;
    DecodeSpec(b);
    assert Decode(b).value == s;
  }

  lemma RoundTripBytes(b: seq<byte>)
    requires IsAsciiBytes(b)
    ensures Decode(b).Some? && Encode(Decode(b).value) == Some(b)
  {
    DecodeSpec(b);
    var s := Decode(b).value;
    EncodeSpec(s);
    assert Encode(s).value == b;
  }

  /** Encoding a concatenation encodes the parts; a failure in either part fails the whole. */
  lemma EncodeAppend(a: string, b: string)
    ensures IsAscii(a + b) <==> IsAscii(a) && IsAscii(b)
    ensures IsAscii(a + b) ==> Encode(a + b).Some? && Encode(a).Some? && Encode(b).Some?
    ensures IsAscii(a + b) ==> Encode(a + b).value == Encode(a).value + Encode(b).value
  {
    if !IsAscii(a) {
      var i :| 0 <= i < |a| && a[i] as int >= 0x80;
      assert (a + b)[i] == a[i];
    } else if !IsAscii(b) {
      var i :| 0 <= i < |b| && b[i] as int >= 0x80;
      assert (a + b)[|a| + i] == b[i];
    } else {
      EncodeSpec(a);
      EncodeSpec(b);
      EncodeSpec(a + b);
      assert Encode(a + b).value == Encode(a).value + Encode(b).value;
    }
  }
}
