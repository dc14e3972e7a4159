/**
 * The server's view of a level (rogue_talk/server/level.py): a grid of tile
 * characters parsed from ASCII text, the spawn points found in it, and the
 * doors and streams the level's metadata adds. Grid positions are (x, y)
 * with x the column and y the row.
 */
module ServerLevel {
  import opened Wrappers
  import opened Bytes
  import opened Errors
  import Text
  import Tiles
  import Ascii
  import LevelCodec

  /** A door or teleporter; no target level means a teleporter within the same level. */
  datatype DoorInfo = DoorInfo(x: int, y: int, targetLevel: Option<string>, targetX: int, targetY: int)

  /** An audio stream heard within `radius` tiles. */
  datatype StreamInfo = StreamInfo(x: int, y: int, url: string, radius: int)

  const DEFAULT_STREAM_RADIUS: int := 5

  datatype Level = Level(
    width: int,
    height: int,
    tiles: seq<seq<char>>,
    spawnPositions: seq<(int, int)>,
    doors: map<(int, int), DoorInfo>,
    streams: map<(int, int), StreamInfo>)

  /** `height` rows of `width` tiles each: lookups inside the bounds then never fail. */
  predicate Rectangular(l: Level) {
    l.width >= 0 && l.height == |l.tiles| && LevelCodec.AllWidth(l.tiles, l.width)
  }

  predicate InBounds(l: Level, x: int, y: int) {
    0 <= x < l.width && 0 <= y < l.height
  }

  // ---------------------------------------------------------------- parsing

  /** The lines of a level file: trailing newlines stripped, then split on newlines. */
  function Lines(content: string): seq<string> {
    Text.Split(Text.RStrip(content, '\n'), '\n')
  }

  /** `max(len(line) for line in lines)`, 0 for no lines. */
  function MaxLen(lines: seq<string>): (m: nat)
    ensures forall i :: 0 <= i < |lines| ==> |lines[i]| <= m
    ensures lines != [] ==> exists i :: 0 <= i < |lines| && |lines[i]| == m
    decreases |lines|
  {
    if |lines| == 0 then 0
    else
      var rest := MaxLen(lines[1..]);
      assert forall i :: 1 <= i < |lines| ==> lines[i] == lines[1..][i - 1];
      if |lines[0]| >= rest then |lines[0]| else rest
  }

  /** The character of `line` at column `x`, padded with void. */
  function Raw(line: string, x: nat): char {
    if x < |line| then line[x] else ' '
  }

  /** The tile stored for column `x`: a spawn point becomes floor. */
  function Cell(line: string, x: nat): char {
    if Raw(line, x) == 'S' then '.' else Raw(line, x)
  }

  /** The first `n` tiles of the row parsed from `line`. */
  function ParseRow(line: string, n: nat): seq<char>
    decreases n
  {
    if n == 0 then [] else ParseRow(line, n - 1) + [Cell(line, n - 1)]
  }

  /** The first `k` rows of the grid. */
  function ParseRows(lines: seq<string>, width: nat, k: nat): seq<seq<char>>
    requires k <= |lines|
    decreases k
  {
    if k == 0 then [] else ParseRows(lines, width, k - 1) + [ParseRow(lines[k - 1], width)]
  }

  /** The spawn points among the first `n` columns of row `y`, left to right. */
  function RowSpawns(line: string, y: nat, n: nat): seq<(int, int)>
    decreases n
  {
    if n == 0 then []
    else RowSpawns(line, y, n - 1) + (if Raw(line, n - 1) == 'S' then [(n - 1, y)] else [])
  }

  /** The spawn points of the first `k` rows, in row-major order. */
  function Spawns(lines: seq<string>, width: nat, k: nat): seq<(int, int)>
    requires k <= |lines|
    decreases k
  {
    if k == 0 then [] else Spawns(lines, width, k - 1) + RowSpawns(lines[k - 1], k - 1, width)
  }

  /** `Level.from_string(content)` */
  function Parse(content: string): Level {
    var lines := Lines(content);
    var width := MaxLen(lines);
    Level(width, |lines|, ParseRows(lines, width, |lines|), Spawns(lines, width, |lines|), map[], map[])
  }

  /** The nested loops of `from_string`: rows top to bottom, columns left to right. */
  method FromString(content: string) returns (level: Level)
    ensures level == Parse(content)
  {
    var lines := Lines(content);
    var height := |lines|;
    var width := MaxLen(lines);
    var tiles: seq<seq<char>> := [];
    var spawnPositions: seq<(int, int)> := [];
    for y := 0 to height
      invariant tiles == ParseRows(lines, width, y)
      invariant spawnPositions == Spawns(lines, width, y)
    {
      var line := lines[y];
      var row: seq<char> := [];
      ghost var before := spawnPositions;
      for x := 0 to width
        invariant row == ParseRow(line, x)
        invariant spawnPositions == before + RowSpawns(line, y, x)
      {
        var c := if x < |line| then line[x] else ' ';
        ghost var found := spawnPositions;
        if c == 'S' {
          spawnPositions := spawnPositions + [(x, y)];
          row := row + ['.'];
        } else {
          row := row + [c];
        }
        SpawnStep(before, line, y, x, found, spawnPositions);
      }
      RowsStep(lines, width, y, tiles, row, before, spawnPositions);
      tiles := tiles + [row];
    }
    level := Level(width, height, tiles, spawnPositions, map[], map[]);
  }

  lemma SpawnStep(before: seq<(int, int)>, line: string, y: nat, x: nat, found: seq<(int, int)>, now: seq<(int, int)>)
    requires found == before + RowSpawns(line, y, x)
    requires now == found + (if Raw(line, x) == 'S' then [(x, y)] else [])
    ensures now == before + RowSpawns(line, y, x + 1)
  {
  }

  lemma RowsStep(lines: seq<string>, width: nat, y: nat, tiles: seq<seq<char>>, row: seq<char>,
                 before: seq<(int, int)>, now: seq<(int, int)>)
    requires y < |lines|
    requires tiles == ParseRows(lines, width, y) && row == ParseRow(lines[y], width)
    requires before == Spawns(lines, width, y) && now == before + RowSpawns(lines[y], y, width)
    ensures tiles + [row] == ParseRows(lines, width, y + 1) && now == Spawns(lines, width, y + 1)
  {
  }

  lemma {:induction false} ParseRowSpec(line: string, n: nat)
    ensures |ParseRow(line, n)| == n
    ensures forall x :: 0 <= x < n ==> ParseRow(line, n)[x] == Cell(line, x)
    decreases n
  {
    if n > 0 {
      ParseRowSpec(line, n - 1);
    }
  }

  lemma {:induction false} ParseRowsSpec(lines: seq<string>, width: nat, k: nat)
    requires k <= |lines|
    ensures |ParseRows(lines, width, k)| == k
    ensures forall y :: 0 <= y < k ==> ParseRows(lines, width, k)[y] == ParseRow(lines[y], width)
    decreases k
  {
    if k > 0 {
      ParseRowsSpec(lines, width, k - 1);
    }
  }

  /**
   * A parsed level has one row per line and is as wide as the longest line;
   * every tile is the line's character, void past its end, floor for a spawn.
   */
  lemma ParseShape(content: string)
    ensures var l := Parse(content); var lines := Lines(content);
      Rectangular(l) && l.height == |lines| >= 1 && l.width == MaxLen(lines)
      && (forall y, x :: 0 <= y < l.height && 0 <= x < l.width ==> l.tiles[y][x] == Cell(lines[y], x))
  {
    var l := Parse(content);
    var lines := Lines(content);
    ParseRowsSpec(lines, l.width, |lines|);
    forall y | 0 <= y < l.height
      ensures |l.tiles[y]| == l.width && forall x :: 0 <= x < l.width ==> l.tiles[y][x] == Cell(lines[y], x)
    {
      ParseRowSpec(lines[y], l.width);
    }
  }

  /** A parsed level stores no spawn marker: each became floor. */
  lemma NoSpawnTiles(content: string, x: int, y: int)
    requires InBounds(Parse(content), x, y)
    ensures Rectangular(Parse(content)) && Parse(content).tiles[y][x] != 'S'
  {
    ParseShape(content);
  }

  /** One position comes before another in row-major order. */
  predicate RowMajorBefore(a: (int, int), b: (int, int)) {
    a.1 < b.1 || (a.1 == b.1 && a.0 < b.0)
  }

  predicate RowMajorSorted(ps: seq<(int, int)>) {
    forall i, j :: 0 <= i < j < |ps| ==> RowMajorBefore(ps[i], ps[j])
  }

  lemma {:induction false} RowSpawnsSpec(line: string, y: nat, n: nat)
    ensures forall p :: p in RowSpawns(line, y, n) <==> p.1 == y && 0 <= p.0 < n && Raw(line, p.0) == 'S'
    ensures RowMajorSorted(RowSpawns(line, y, n))
    decreases n
  {
    if n > 0 {
      var a := RowSpawns(line, y, n - 1);
      var t: seq<(int, int)> := if Raw(line, n - 1) == 'S' then [(n - 1, y)] else [];
      assert RowSpawns(line, y, n) == a + t;
      RowSpawnsSpec(line, y, n - 1);
      forall i, j | 0 <= i < |a| && 0 <= j < |t|
        ensures RowMajorBefore(a[i], t[j])
      {
        assert a[i] in a;
      }
      SortedAppend(a, t);
    }
  }

  lemma SortedAppend(a: seq<(int, int)>, b: seq<(int, int)>)
    requires RowMajorSorted(a) && RowMajorSorted(b)
    requires forall i, j :: 0 <= i < |a| && 0 <= j < |b| ==> RowMajorBefore(a[i], b[j])
    ensures RowMajorSorted(a + b)
  {
    var ab := a + b;
    forall i, j | 0 <= i < j < |ab|
      ensures RowMajorBefore(ab[i], ab[j])
    {
      if j < |a| {
        assert ab[i] == a[i] && ab[j] == a[j];
      } else if i >= |a| {
        assert ab[i] == b[i - |a|] && ab[j] == b[j - |a|];
      } else {
        assert ab[i] == a[i] && ab[j] == b[j - |a|];
      }
    }
  }

  lemma {:induction false} SpawnsSpec(lines: seq<string>, width: nat, k: nat)
    requires k <= |lines|
    ensures forall p :: p in Spawns(lines, width, k) <==>
      0 <= p.1 < k && 0 <= p.0 < width && Raw(lines[p.1], p.0) == 'S'
    ensures RowMajorSorted(Spawns(lines, width, k))
    decreases k
  {
    if k > 0 {
      var a, b := Spawns(lines, width, k - 1), RowSpawns(lines[k - 1], k - 1, width);
      SpawnsSpec(lines, width, k - 1);
      RowSpawnsSpec(lines[k - 1], k - 1, width);
      forall i, j | 0 <= i < |a| && 0 <= j < |b|
        ensures RowMajorBefore(a[i], b[j])
      {
        assert a[i] in a && b[j] in b;
      }
      SortedAppend(a, b);
    }
  }

  /** The spawn points are exactly the 'S' characters of the text, listed in row-major order. */
  lemma ParsedSpawns(content: string)
    ensures var l := Parse(content); var lines := Lines(content);
      RowMajorSorted(l.spawnPositions)
      && forall p :: p in l.spawnPositions <==>
           0 <= p.1 < |lines| && 0 <= p.0 < |lines[p.1]| && lines[p.1][p.0] == 'S'
  {
    var lines := Lines(content);
    SpawnsSpec(lines, MaxLen(lines), |lines|);
  }

  // ---------------------------------------------------------------- lookups

  /** `get_tile(x, y)`: the void outside the grid. */
  function GetTile(l: Level, x: int, y: int): char
    requires Rectangular(l)
  {
    if !InBounds(l, x, y) then ' ' else l.tiles[y][x]
  }

  /** `is_walkable(x, y)`, judged by the built-in tile table. */
  function IsWalkable(l: Level, x: int, y: int): bool
    requires Rectangular(l)
  {
    if !InBounds(l, x, y) then false else Tiles.IsWalkable(l.tiles[y][x])
  }

  /** Walkability is the walkability of the tile `get_tile` reports, so nothing outside the grid is walkable. */
  lemma WalkableIsTileWalkable(l: Level, x: int, y: int)
    requires Rectangular(l)
    ensures IsWalkable(l, x, y) == Tiles.IsWalkable(GetTile(l, x, y))
    ensures !InBounds(l, x, y) ==> GetTile(l, x, y) == ' ' && !IsWalkable(l, x, y)
  {
    Tiles.WalkableChars(' ');
  }

  /** `get_door_at(x, y)` */
  function GetDoorAt(l: Level, x: int, y: int): (r: Option<DoorInfo>)
    ensures r.Some? <==> (x, y) in l.doors
    ensures r.Some? ==> r.value == l.doors[(x, y)]
  {
    if (x, y) in l.doors then Some(l.doors[(x, y)]) else None
  }

  /**
   * `get_spawn_position()`. The random choice among spawn points is the
   * parameter `pick`; without spawn points the rows are scanned for the
   * first walkable tile, and the centre is the last resort.
   */
  method GetSpawnPosition(l: Level, pick: nat) returns (p: (int, int))
    requires Rectangular(l)
    requires l.spawnPositions != [] ==> pick < |l.spawnPositions|
    ensures l.spawnPositions != [] ==> p == l.spawnPositions[pick]
    ensures l.spawnPositions == [] && IsWalkable(l, p.0, p.1) ==>
      forall y, x :: 0 <= y < l.height && 0 <= x < l.width && RowMajorBefore((x, y), p) ==> !IsWalkable(l, x, y)
    ensures l.spawnPositions == [] && !IsWalkable(l, p.0, p.1) ==>
      p == (l.width / 2, l.height / 2) && forall y, x :: 0 <= y < l.height && 0 <= x < l.width ==> !IsWalkable(l, x, y)
  {
    if l.spawnPositions != [] {
      return l.spawnPositions[pick];
    }
    for y := 0 to l.height
      invariant forall y', x :: 0 <= y' < y && 0 <= x < l.width ==> !IsWalkable(l, x, y')
    {
      for x := 0 to l.width
        invariant forall y', x' :: 0 <= y' < y && 0 <= x' < l.width ==> !IsWalkable(l, x', y')
        invariant forall x' :: 0 <= x' < x ==> !IsWalkable(l, x', y)
      {
        if IsWalkable(l, x, y) {
          return (x, y);
        }
      }
    }
    p := (l.width / 2, l.height / 2);
    WalkableIsTileWalkable(l, p.0, p.1);
  }

  // ---------------------------------------------------------------- network form

  /** `to_bytes()`: width and height as 16-bit fields, then each row as ASCII. */
  method ToBytes(l: Level) returns (r: Result<seq<byte>, Error>)
    ensures r == LevelCodec.EncodeGrid(l.width, l.height, l.tiles)
  {
    if !(FitsU16(l.width) && FitsU16(l.height)) {
      return Failure(StructError);
    }
    var header := PackU16(l.width) + PackU16(l.height);
    var body: seq<byte> := [];
    for k := 0 to |l.tiles|
      invariant Ascii.Encode(LevelCodec.Concat(l.tiles[..k])) == Some(body)
    {
      var rowBytes := Ascii.Encode(l.tiles[k]);
      ConcatNext(l.tiles, k);
      Ascii.EncodeAppend(LevelCodec.Concat(l.tiles[..k]), l.tiles[k]);
      Ascii.EncodeSpec(LevelCodec.Concat(l.tiles[..k]));
      Ascii.EncodeSpec(l.tiles[k]);
      if rowBytes.None? {
        ConcatNotAscii(l.tiles, k + 1);
        return Failure(UnicodeEncodeError);
      }
      body := body + rowBytes.value;
    }
    assert l.tiles[..|l.tiles|] == l.tiles;
    r := Success(header + body);
  }

  lemma ConcatNext(rows: seq<seq<char>>, k: nat)
    requires k < |rows|
    ensures LevelCodec.Concat(rows[..k + 1]) == LevelCodec.Concat(rows[..k]) + rows[k]
  {
    assert rows[..k + 1][..k] == rows[..k];
  }

  lemma ConcatNotAscii(rows: seq<seq<char>>, k: nat)
    requires k <= |rows| && !Ascii.IsAscii(LevelCodec.Concat(rows[..k]))
    ensures Ascii.Encode(LevelCodec.Concat(rows)) == None
  {
    assert rows == rows[..k] + rows[k..];
    LevelCodec.ConcatAppend(rows[..k], rows[k..]);
    Ascii.EncodeAppend(LevelCodec.Concat(rows[..k]), LevelCodec.Concat(rows[k..]));
    Ascii.EncodeSpec(LevelCodec.Concat(rows));
  }

  /** `Level.from_bytes(data)`: only width, height and tiles travel; the rest are defaults. */
  function FromBytesSpec(data: seq<byte>): Result<Level, Error> {
    match LevelCodec.DecodeGrid(data)
    case Failure(e) => Failure(e)
    case Success(g) => Success(Level(g.width, g.height, g.rows, [], map[], map[]))
  }

  method FromBytes(data: seq<byte>) returns (r: Result<Level, Error>)
    ensures r == FromBytesSpec(data)
  {
    var g := LevelCodec.ReadGrid(data);
    if g.Failure? {
      return Failure(g.error);
    }
    return Success(Level(g.value.width, g.value.height, g.value.rows, [], map[], map[]));
  }

  /** A rectangular level comes back from its bytes with the same width, height and tiles. */
  lemma BytesRoundTrip(l: Level)
    requires Rectangular(l) && LevelCodec.EncodeGrid(l.width, l.height, l.tiles).Success?
    ensures FromBytesSpec(LevelCodec.EncodeGrid(l.width, l.height, l.tiles).value)
      == Success(Level(l.width, l.height, l.tiles, [], map[], map[]))
  {
    LevelCodec.RoundTrip(l.width, l.height, l.tiles);
  }

  /** The bytes of a rectangular level are the header and one byte per tile. */
  lemma BytesLength(l: Level)
    requires Rectangular(l) && LevelCodec.EncodeGrid(l.width, l.height, l.tiles).Success?
    ensures |LevelCodec.EncodeGrid(l.width, l.height, l.tiles).value| == 4 + l.width * l.height
  {
    LevelCodec.EncodedLength(l.width, l.height, l.tiles);
  }

  /** A level parsed from ASCII text of at most 65535 lines and columns serializes. */
  lemma ParsedSerializes(content: string)
    requires Ascii.IsAscii(content)
    requires FitsU16(Parse(content).width) && FitsU16(Parse(content).height)
    ensures LevelCodec.EncodeGrid(Parse(content).width, Parse(content).height, Parse(content).tiles).Success?
  {
    var l := Parse(content);
    var lines := Lines(content);
    ParseShape(content);
    LinesAscii(content);
    ConcatAscii(l.tiles, lines, l.width);
    Ascii.EncodeSpec(LevelCodec.Concat(l.tiles));
  }

  lemma LinesAscii(content: string)
    requires Ascii.IsAscii(content)
    ensures forall i, x :: 0 <= i < |Lines(content)| && 0 <= x < |Lines(content)[i]| ==> Lines(content)[i][x] as int < 0x80
  {
    var stripped := Text.RStrip(content, '\n');
    SplitAscii(stripped);
  }

  lemma {:induction false} SplitAscii(s: string)
    requires Ascii.IsAscii(s)
    ensures forall i, x :: 0 <= i < |Text.Split(s, '\n')| && 0 <= x < |Text.Split(s, '\n')[i]| ==>
      Text.Split(s, '\n')[i][x] as int < 0x80
    decreases |s|
  {
    if '\n' in s {
      var i := Text.IndexOf(s, '\n');
      SplitAscii(s[i + 1..]);
      var r := Text.Split(s, '\n');
      forall k, x | 0 <= k < |r| && 0 <= x < |r[k]|
        ensures r[k][x] as int < 0x80
      {
        if k == 0 {
          assert r[0][x] == s[x];
        } else {
          assert r[k] == Text.Split(s[i + 1..], '\n')[k - 1];
        }
      }
    }
  }

  lemma {:induction false} ConcatAscii(rows: seq<seq<char>>, lines: seq<string>, width: nat)
    requires |rows| <= |lines|
    requires forall i, x :: 0 <= i < |lines| && 0 <= x < |lines[i]| ==> lines[i][x] as int < 0x80
    requires forall y, x :: 0 <= y < |rows| && 0 <= x < |rows[y]| ==> rows[y][x] == Cell(lines[y], x)
    ensures Ascii.IsAscii(LevelCodec.Concat(rows))
    decreases |rows|
  {
    if rows != [] {
      var n := |rows| - 1;
      ConcatAscii(rows[..n], lines, width);
      var last := rows[n];
      assert Ascii.IsAscii(last) by {
        forall x | 0 <= x < |last| ensures last[x] as int < 0x80 {
          assert last[x] == Cell(lines[n], x);
        }
      }
      Ascii.EncodeAppend(LevelCodec.Concat(rows[..n]), last);
    }
  }
}
