/**
 * The level wire format shared by the server's `Level.to_bytes` and the
 * `Level.from_bytes` of both server and client (rogue_talk/server/level.py,
 * rogue_talk/client/level.py): big-endian 16-bit width and height, then the
 * rows one after another as ASCII bytes.
 */
module LevelCodec {
  import opened Wrappers
  import opened Bytes
  import opened Errors
  import Ascii

  /** What `from_bytes` reads: the two header fields and the decoded rows. */
  datatype Grid = Grid(width: int, height: int, rows: seq<seq<char>>)

  /** The rows laid end to end, as `b"".join` of the row encodings sees them. */
  function Concat(rows: seq<seq<char>>): (r: seq<char>)
    decreases |rows|
  {
    if |rows| == 0 then [] else Concat(rows[..|rows| - 1]) + rows[|rows| - 1]
  }

  /** Every row has exactly `width` characters. */
  predicate AllWidth(rows: seq<seq<char>>, width: int) {
    forall y :: 0 <= y < |rows| ==> |rows[y]| == width
  }

  /** Where row `k` starts: after the header and `k` rows of `width` bytes. */
  function RowOffset(width: nat, k: nat): (r: nat)
    decreases k
  {
    if k == 0 then 4 else RowOffset(width, k - 1) + width
  }

  lemma {:induction false} RowOffsetIs(width: nat, k: nat)
    ensures RowOffset(width, k) == 4 + k * width
    decreases k
  {
    if k > 0 {
      RowOffsetIs(width, k - 1);
    }
  }

  /** Row `k`: the (clamped) slice of `width` bytes where it starts. */
  function RowBytes(data: seq<byte>, width: nat, k: nat): seq<byte> {
    Slice(data, RowOffset(width, k), RowOffset(width, k) + width)
  }

  /** The first `k` rows of the body, decoded; the first row that is not ASCII fails. */
  function DecodeRows(data: seq<byte>, width: nat, k: nat): (r: Result<seq<seq<char>>, Error>)
    ensures r.Success? ==> |r.value| == k
    decreases k
  {
    if k == 0 then Success([])
    else match DecodeRows(data, width, k - 1)
      case Failure(e) => Failure(e)
      case Success(rows) =>
        match Ascii.Decode(RowBytes(data, width, k - 1))
        case None => Failure(UnicodeDecodeError)
        case Some(row) => Success(rows + [row])
  }

  /** `Level.from_bytes(data)`, without the fields that it leaves at their defaults. */
  function DecodeGrid(data: seq<byte>): Result<Grid, Error> {
    if |data| < 4 then Failure(StructError)
    else
      var w := UnpackU16(data[0..2]);
      var h := UnpackU16(data[2..4]);
      match DecodeRows(data, w, h)
      case Failure(e) => Failure(e)
      case Success(rows) => Success(Grid(w, h, rows))
  }

  /** The serialized form of a grid: the header, then every row in ASCII. */
  function EncodeGrid(width: int, height: int, rows: seq<seq<char>>): (r: Result<seq<byte>, Error>)
  {
    if !(FitsU16(width) && FitsU16(height)) then Failure(StructError)
    else match Ascii.Encode(Concat(rows))
      case None => Failure(UnicodeEncodeError)
      case Some(body) => Success(PackU16(width) + PackU16(height) + body)
  }

  /** The loop of `from_bytes`: `height` rows, `offset` advancing by `width`. */
  method ReadGrid(data: seq<byte>) returns (r: Result<Grid, Error>)
    ensures r == DecodeGrid(data)
  {
    if |data| < 4 {
      return Failure(StructError);
    }
    var width := UnpackU16(data[0..2]);
    var height := UnpackU16(data[2..4]);
    var offset: nat := 4;
    var rows: seq<seq<char>> := [];
    var k := 0;
    while k < height
      invariant 0 <= k <= height
      invariant offset == RowOffset(width, k)
      invariant DecodeRows(data, width, k) == Success(rows)
    {
      var row := Ascii.Decode(Slice(data, offset, offset + width));
      if row.None? {
        ReadFails(data, k, rows, offset);
        return Failure(UnicodeDecodeError);
      }
      ReadNext(data, k, rows, offset, row.value);
      rows := rows + [row.value];
      offset := offset + width;
      k := k + 1;
    }
    return Success(Grid(width, height, rows));
  }

  /** A row of the loop of `ReadGrid` that is not ASCII ends the grid in failure. */
  lemma ReadFails(data: seq<byte>, k: nat, rows: seq<seq<char>>, offset: nat)
    requires |data| >= 4 && k < UnpackU16(data[2..4])
    requires offset == RowOffset(UnpackU16(data[0..2]), k) && DecodeRows(data, UnpackU16(data[0..2]), k) == Success(rows)
    requires Ascii.Decode(Slice(data, offset, offset + UnpackU16(data[0..2]))).None?
    ensures DecodeGrid(data) == Failure(UnicodeDecodeError)
  {
    var width := UnpackU16(data[0..2]);
    assert Slice(data, offset, offset + width) == RowBytes(data, width, k);
    DecodeRowsStep(data, width, k, rows, None);
    GridFails(data, k + 1);
  }

  /** A row of the loop of `ReadGrid` that decodes extends the rows, and the offset moves to the next row. */
  lemma ReadNext(data: seq<byte>, k: nat, rows: seq<seq<char>>, offset: nat, row: string)
    requires |data| >= 4
    requires offset == RowOffset(UnpackU16(data[0..2]), k) && DecodeRows(data, UnpackU16(data[0..2]), k) == Success(rows)
    requires Ascii.Decode(Slice(data, offset, offset + UnpackU16(data[0..2]))) == Some(row)
    ensures offset + UnpackU16(data[0..2]) == RowOffset(UnpackU16(data[0..2]), k + 1)
    ensures DecodeRows(data, UnpackU16(data[0..2]), k + 1) == Success(rows + [row])
  {
    var width := UnpackU16(data[0..2]);
    assert Slice(data, offset, offset + width) == RowBytes(data, width, k);
    DecodeRowsStep(data, width, k, rows, Some(row));
  }

  /** A row that fails to decode makes the whole grid fail. */
  lemma GridFails(data: seq<byte>, k: nat)
    requires |data| >= 4 && 0 < k <= UnpackU16(data[2..4])
    requires DecodeRows(data, UnpackU16(data[0..2]), k) == Failure(UnicodeDecodeError)
    ensures DecodeGrid(data) == Failure(UnicodeDecodeError)
  {
    DecodeRowsFails(data, UnpackU16(data[0..2]), k, UnpackU16(data[2..4]));
  }

  lemma DecodeRowsStep(data: seq<byte>, width: nat, k: nat, rows: seq<seq<char>>, row: Option<string>)
    requires DecodeRows(data, width, k) == Success(rows) && row == Ascii.Decode(RowBytes(data, width, k))
    ensures row.None? ==> DecodeRows(data, width, k + 1) == Failure(UnicodeDecodeError)
    ensures row.Some? ==> DecodeRows(data, width, k + 1) == Success(rows + [row.value])
  {
  }

  lemma {:induction false} DecodeRowsFails(data: seq<byte>, width: nat, k: nat, n: nat)
    requires 0 < k <= n && DecodeRows(data, width, k).Failure?
    ensures DecodeRows(data, width, n) == Failure(UnicodeDecodeError)
    decreases n
  {
    if n > k {
      DecodeRowsFails(data, width, k, n - 1);
    } else {
      DecodeRowsError(data, width, k);
    }
  }

  lemma {:induction false} DecodeRowsError(data: seq<byte>, width: nat, k: nat)
    requires DecodeRows(data, width, k).Failure?
    ensures DecodeRows(data, width, k) == Failure(UnicodeDecodeError)
    decreases k
  {
    if k > 0 && DecodeRows(data, width, k - 1).Failure? {
      DecodeRowsError(data, width, k - 1);
    }
  }

  /** Each decoded row is the ASCII decoding of its slice, so rows are short only where the data runs out. */
  lemma {:induction false} DecodedRows(data: seq<byte>, width: nat, k: nat)
    requires DecodeRows(data, width, k).Success?
    ensures forall j :: 0 <= j < k ==> Ascii.Decode(RowBytes(data, width, j)) == Some(DecodeRows(data, width, k).value[j])
    ensures forall j :: 0 <= j < k ==> |DecodeRows(data, width, k).value[j]| <= width
    ensures forall j :: 0 <= j < k && RowOffset(width, j) + width <= |data| ==>
      |DecodeRows(data, width, k).value[j]| == width
    decreases k
  {
    if k > 0 {
      DecodedRows(data, width, k - 1);
      var rows := DecodeRows(data, width, k).value;
      forall j | 0 <= j < k
        ensures Ascii.Decode(RowBytes(data, width, j)) == Some(rows[j])
      {
        if j < k - 1 {
          assert rows[j] == DecodeRows(data, width, k - 1).value[j];
        }
      }
      forall j | 0 <= j < k
        ensures |rows[j]| == |RowBytes(data, width, j)| <= width
      {
        Ascii.DecodeSpec(RowBytes(data, width, j));
      }
    }
  }

  /** A decoded grid has `height` rows of at most `width` characters, all of `width` when the data is long enough. */
  lemma DecodedGridShape(data: seq<byte>)
    requires DecodeGrid(data).Success?
    ensures var g := DecodeGrid(data).value;
      |data| >= 4 && g.width == UnpackU16(data[0..2]) && g.height == UnpackU16(data[2..4]) && |g.rows| == g.height
      && (forall j :: 0 <= j < g.height ==> |g.rows[j]| <= g.width)
      && (|data| >= 4 + g.height * g.width ==> AllWidth(g.rows, g.width))
  {
    var g := DecodeGrid(data).value;
    DecodedRows(data, g.width, g.height);
    if |data| >= 4 + g.height * g.width {
      forall j | 0 <= j < g.height
        ensures RowOffset(g.width, j) + g.width <= |data|
      {
        RowEnd(g.width, g.height, j);
      }
    }
  }

  lemma RowEnd(width: nat, height: nat, j: nat)
    requires j < height
    ensures RowOffset(width, j) + width <= 4 + height * width
  {
    RowOffsetIs(width, j);
    MulMono(j + 1, height, width);
  }

  lemma MulMono(a: nat, b: nat, c: nat)
    requires a <= b
    ensures a * c <= b * c
  {
  }

  lemma {:induction false} ConcatAppend(a: seq<seq<char>>, b: seq<seq<char>>)
    ensures Concat(a + b) == Concat(a) + Concat(b)
    decreases |b|
  {
    if b == [] {
      assert a + b == a;
    } else {
      var b', last := b[..|b| - 1], b[|b| - 1];
      var ab := a + b;
      assert ab[..|ab| - 1] == a + b' && ab[|ab| - 1] == last;
      assert Concat(ab) == Concat(a + b') + last;
      ConcatAppend(a, b');
      assert Concat(b) == Concat(b') + last;
    }
  }

  lemma {:induction false} ConcatWidth(rows: seq<seq<char>>, width: nat)
    requires AllWidth(rows, width)
    ensures |Concat(rows)| + 4 == RowOffset(width, |rows|)
    decreases |rows|
  {
    if rows != [] {
      ConcatWidth(rows[..|rows| - 1], width);
    }
  }

  /** Row `k` of an encoded grid is the encoding of that row. */
  lemma EncodedRow(width: nat, height: nat, rows: seq<seq<char>>, k: nat)
    requires AllWidth(rows, width) && k < |rows| && EncodeGrid(width, height, rows).Success?
    ensures Ascii.IsAscii(rows[k]) && Ascii.Encode(rows[k]).Some?
    ensures RowBytes(EncodeGrid(width, height, rows).value, width, k) == Ascii.Encode(rows[k]).value
  {
    var cp, cpost := ConcatAround(rows, k);
    var ep, ek, epost := EncodeThree(cp, rows[k], cpost);
    ConcatWidth(rows[..k], width);
    var header := PackU16(width) + PackU16(height);
    SliceMiddle(header + ep, ek, epost);
    Ascii.EncodeSpec(rows[k]);
  }

  /** The rows before `k`, row `k`, and the rows after it, laid end to end. */
  lemma ConcatAround(rows: seq<seq<char>>, k: nat) returns (before: seq<char>, after: seq<char>)
    requires k < |rows|
    ensures before == Concat(rows[..k]) && Concat(rows) == before + rows[k] + after
  {
    var pre, mid, post := rows[..k], [rows[k]], rows[k + 1..];
    assert rows == pre + mid + post;
    ConcatAppend(pre + mid, post);
    ConcatAppend(pre, mid);
    assert Concat(mid) == rows[k] by {
      assert mid[..0] == [];
    }
    before, after := Concat(pre), Concat(post);
  }

  lemma EncodeThree(a: string, b: string, c: string) returns (ea: seq<byte>, eb: seq<byte>, ec: seq<byte>)
    requires Ascii.Encode(a + b + c).Some?
    ensures Ascii.Encode(a).Some? && Ascii.Encode(b).Some? && Ascii.Encode(c).Some?
    ensures ea == Ascii.Encode(a).value && eb == Ascii.Encode(b).value && ec == Ascii.Encode(c).value
    ensures Ascii.Encode(a + b + c).value == ea + eb + ec && |ea| == |a| && |eb| == |b|
  {
    Ascii.EncodeSpec(a + b + c);
    Ascii.EncodeAppend(a + b, c);
    Ascii.EncodeAppend(a, b);
    Ascii.EncodeSpec(a);
    Ascii.EncodeSpec(b);
    ea, eb, ec := Ascii.Encode(a).value, Ascii.Encode(b).value, Ascii.Encode(c).value;
  }

  lemma SliceMiddle<T>(a: seq<T>, b: seq<T>, c: seq<T>)
    ensures Slice(a + b + c, |a|, |a| + |b|) == b
  {
    assert (a + b + c)[|a|..|a| + |b|] == b;
  }

  lemma DecodeRowsNext(data: seq<byte>, width: nat, rows: seq<seq<char>>, k: nat)
    requires k < |rows| && DecodeRows(data, width, k) == Success(rows[..k])
    requires Ascii.Decode(RowBytes(data, width, k)) == Some(rows[k])
    ensures DecodeRows(data, width, k + 1) == Success(rows[..k + 1])
  {
    DecodeRowsStep(data, width, k, rows[..k], Some(rows[k]));
    assert rows[..k] + [rows[k]] == rows[..k + 1];
  }

  lemma EncodedRowDecodes(width: nat, height: nat, rows: seq<seq<char>>, data: seq<byte>, k: nat)
    requires AllWidth(rows, width) && k < |rows| && EncodeGrid(width, height, rows) == Success(data)
    ensures Ascii.Decode(RowBytes(data, width, k)) == Some(rows[k])
  {
    EncodedRow(width, height, rows, k);
    Ascii.RoundTrip(rows[k]);
  }

  /** The first `k` rows of an encoded grid decode back to themselves. */
  lemma {:induction false} EncodedRowsDecode(width: nat, height: nat, rows: seq<seq<char>>, data: seq<byte>, k: nat)
    requires AllWidth(rows, width) && k <= |rows| && EncodeGrid(width, height, rows) == Success(data)
    ensures DecodeRows(data, width, k) == Success(rows[..k])
    decreases k
  {
    if k > 0 {
      EncodedRowsDecode(width, height, rows, data, k - 1);
      EncodedRowNext(width, height, rows, data, k - 1);
    }
  }

  lemma EncodedRowNext(width: nat, height: nat, rows: seq<seq<char>>, data: seq<byte>, k: nat)
    requires AllWidth(rows, width) && k < |rows| && EncodeGrid(width, height, rows) == Success(data)
    requires DecodeRows(data, width, k) == Success(rows[..k])
    ensures DecodeRows(data, width, k + 1) == Success(rows[..k + 1])
  {
    EncodedRowDecodes(width, height, rows, data, k);
    DecodeRowsNext(data, width, rows, k);
  }

  /** Decoding an encoded grid whose rows all have the stated width gives it back. */
  lemma RoundTrip(width: nat, height: nat, rows: seq<seq<char>>)
    requires AllWidth(rows, width) && |rows| == height && EncodeGrid(width, height, rows).Success?
    ensures DecodeGrid(EncodeGrid(width, height, rows).value) == Success(Grid(width, height, rows))
  {
    var data := EncodeGrid(width, height, rows).value;
    assert data[0..2] == PackU16(width) && data[2..4] == PackU16(height);
    U16RoundTrip(width);
    U16RoundTrip(height);
    EncodedRowsDecode(width, height, rows, data, height);
    assert rows[..height] == rows;
  }

  /** The encoding is the 4-byte header and one byte per tile. */
  lemma EncodedLength(width: nat, height: nat, rows: seq<seq<char>>)
    requires AllWidth(rows, width) && |rows| == height && EncodeGrid(width, height, rows).Success?
    ensures |EncodeGrid(width, height, rows).value| == 4 + width * height
  {
    ConcatWidth(rows, width);
    RowOffsetIs(width, height);
    Ascii.EncodeSpec(Concat(rows));
  }

  /** An encoding fails with `struct.error` for oversized dimensions, and otherwise exactly when a tile is not ASCII. */
  lemma EncodeFailures(width: int, height: int, rows: seq<seq<char>>)
    ensures !(FitsU16(width) && FitsU16(height)) ==> EncodeGrid(width, height, rows) == Failure(StructError)
    ensures FitsU16(width) && FitsU16(height) ==>
      (EncodeGrid(width, height, rows).Success? <==> Ascii.IsAscii(Concat(rows)))
  {
    Ascii.EncodeSpec(Concat(rows));
  }
}
