/**
 * The consistency check run when a level is loaded
 * (`_validate_level` in rogue_talk/server/game_server.py). It reports
 * characters of the grid that the level's tile table does not define,
 * doors whose tile is not a door tile, same-level teleporters with a bad
 * target, and door tiles without a door entry. The warnings are returned
 * instead of printed.
 */
module LevelValidation {
  import opened Wrappers
  import Tiles
  import opened ServerLevel
  import Collections

  /** The most example positions reported per undefined character. */
  const MAX_EXAMPLES: nat := 3

  datatype Warning =
    | DoorWithoutDoorTile(x: int, y: int, target: string, tile: char)
    | TeleporterOutOfBounds(x: int, y: int, targetX: int, targetY: int)
    | TeleporterNotWalkable(x: int, y: int, targetX: int, targetY: int, tile: char)
    | OrphanDoorTile(tile: char, x: int, y: int)

  // ---------------------------------------------------------------- row-major selections

  /** Which grid cells a scan keeps: given x, y and the character there. */
  type CellFilter = (int, int, char) -> bool

  /** The positions `(x, y)` with `x < n` of row `y` that `keep` selects, left to right. */
  function RowWhere(row: seq<char>, y: int, n: nat, keep: CellFilter): seq<(int, int)>
    requires n <= |row|
    decreases n
  {
    if n == 0 then []
    else RowWhere(row, y, n - 1, keep) + (if keep(n - 1, y, row[n - 1]) then [(n - 1, y)] else [])
  }

  /** The positions of the first `k` rows that `keep` selects, in row-major order. */
  function Where(grid: seq<seq<char>>, k: nat, keep: CellFilter): seq<(int, int)>
    requires k <= |grid|
    decreases k
  {
    if k == 0 then []
    else Where(grid, k - 1, keep) + RowWhere(grid[k - 1], k - 1, |grid[k - 1]|, keep)
  }

  /** The cells holding `c`. */
  function IsChar(c: char): CellFilter {
    (x: int, y: int, t: char) => t == c
  }

  /** The cells whose tile is a door tile but which have no door entry. */
  function IsOrphan(level: Level, tiles: map<char, Tiles.TileDef>): CellFilter {
    (x: int, y: int, t: char) => Tiles.Lookup(tiles, t).isDoor && (x, y) !in level.doors
  }

  lemma {:induction false} RowWhereSpec(row: seq<char>, y: int, n: nat, keep: CellFilter, p: (int, int))
    requires n <= |row|
    ensures p in RowWhere(row, y, n, keep) <==> p.1 == y && 0 <= p.0 < n && keep(p.0, y, row[p.0])
    decreases n
  {
    if n > 0 {
      RowWhereSpec(row, y, n - 1, keep, p);
    }
  }

  /** A position is selected exactly when it lies in the first `k` rows and `keep` accepts its cell. */
  lemma {:induction false} WhereSpec(grid: seq<seq<char>>, width: nat, k: nat, keep: CellFilter, p: (int, int))
    requires k <= |grid| && forall y :: 0 <= y < |grid| ==> |grid[y]| == width
    ensures p in Where(grid, k, keep) <==>
      0 <= p.0 < width && 0 <= p.1 < k && keep(p.0, p.1, grid[p.1][p.0])
    decreases k
  {
    if k > 0 {
      WhereSpec(grid, width, k - 1, keep, p);
      RowWhereSpec(grid[k - 1], k - 1, |grid[k - 1]|, keep, p);
    }
  }

  /** Every position of the grid where `c` occurs, in row-major order. */
  function Occurrences(level: Level, c: char): seq<(int, int)>
    requires Rectangular(level)
  {
    Where(level.tiles, level.height, IsChar(c))
  }

  /** The positions where the scan has met `c` before reaching cell (x, y); row `height` is the end. */
  function SeenBefore(level: Level, c: char, y: nat, x: nat): seq<(int, int)>
    requires Rectangular(level) && y <= level.height && x <= level.width
  {
    Where(level.tiles, y, IsChar(c)) + (if y < level.height then RowWhere(level.tiles[y], y, x, IsChar(c)) else [])
  }

  /** The first `MAX_EXAMPLES` of a list. */
  function Examples(s: seq<(int, int)>): (r: seq<(int, int)>)
    ensures |r| <= MAX_EXAMPLES && r <= s
    ensures |s| <= MAX_EXAMPLES ==> r == s
  {
    if |s| <= MAX_EXAMPLES then s else s[..MAX_EXAMPLES]
  }

  lemma ExamplesAppend(s: seq<(int, int)>, p: (int, int))
    ensures Examples(s + [p]) == if |s| < MAX_EXAMPLES then Examples(s) + [p] else Examples(s)
  {
    if |s| >= MAX_EXAMPLES {
      assert (s + [p])[..MAX_EXAMPLES] == s[..MAX_EXAMPLES];
    }
  }

  // ---------------------------------------------------------------- undefined tiles

  /**
   * `undefined_tiles` once the scan has reached cell (x, y), for the
   * character `c`: present exactly when the tile table lacks it and it has
   * been met, with its first positions as examples.
   */
  ghost predicate CollectedAt(level: Level, tiles: map<char, Tiles.TileDef>, undefined: map<char, seq<(int, int)>>,
                              y: nat, x: nat, c: char)
    requires Rectangular(level) && y <= level.height && x <= level.width
  {
    (c in undefined <==> c !in tiles && |SeenBefore(level, c, y, x)| > 0) &&
    (c in undefined ==> undefined[c] == Examples(SeenBefore(level, c, y, x)))
  }

  /** One cell of the undefined-tile scan. */
  function NoteUndefined(tiles: map<char, Tiles.TileDef>, undefined: map<char, seq<(int, int)>>,
                         c: char, x: int, y: int): map<char, seq<(int, int)>>
  {
    if c in tiles then undefined
    else
      var examples := if c in undefined then undefined[c] else [];
      if |examples| < MAX_EXAMPLES then undefined[c := examples + [(x, y)]] else undefined[c := examples]
  }

  /** Moving one cell on adds that cell's position for its own character and for no other. */
  lemma SeenStep(level: Level, c: char, y: nat, x: nat)
    requires Rectangular(level) && y < level.height && x < level.width
    ensures SeenBefore(level, c, y, x + 1) ==
      SeenBefore(level, c, y, x) + (if level.tiles[y][x] == c then [(x, y)] else [])
  {
    var w := Where(level.tiles, y, IsChar(c));
    var row := RowWhere(level.tiles[y], y, x, IsChar(c));
    assert IsChar(c)(x, y, level.tiles[y][x]) == (level.tiles[y][x] == c);
    assert SeenBefore(level, c, y, x + 1) == w + (row + (if level.tiles[y][x] == c then [(x, y)] else []));
  }

  /** Noting cell (x, y) keeps the scan's map collected for `c`. */
  lemma UndefinedStep(level: Level, tiles: map<char, Tiles.TileDef>, undefined: map<char, seq<(int, int)>>,
                      y: nat, x: nat, c: char)
    requires Rectangular(level) && y < level.height && x < level.width
    requires CollectedAt(level, tiles, undefined, y, x, c)
    ensures CollectedAt(level, tiles, NoteUndefined(tiles, undefined, level.tiles[y][x], x, y), y, x + 1, c)
  {
    SeenStep(level, c, y, x);
    if level.tiles[y][x] == c {
      ExamplesAppend(SeenBefore(level, c, y, x), (x, y));
    }
  }

  /** The scan's last cell of a row meets exactly what the first cell of the next row has. */
  lemma NextRow(level: Level, y: nat, c: char)
    requires Rectangular(level) && y < level.height
    ensures SeenBefore(level, c, y, level.width) == SeenBefore(level, c, y + 1, 0)
  {
  }

  /** The undefined-tile map the scan has built on reaching cell (x, y): every earlier cell noted in row-major order. */
  ghost function UndefinedUpTo(level: Level, tiles: map<char, Tiles.TileDef>, y: nat, x: nat): map<char, seq<(int, int)>>
    requires Rectangular(level) && y <= level.height && x <= level.width && (y == level.height ==> x == 0)
    decreases y, x
  {
    if x > 0 then NoteUndefined(tiles, UndefinedUpTo(level, tiles, y, x - 1), level.tiles[y][x - 1], x - 1, y)
    else if y > 0 then UndefinedUpTo(level, tiles, y - 1, level.width)
    else map[]
  }

  /** The scan's map is collected correctly, character by character, at every cell it reaches. */
  lemma {:induction false} UpToCollected(level: Level, tiles: map<char, Tiles.TileDef>, y: nat, x: nat, c: char)
    requires Rectangular(level) && y <= level.height && x <= level.width && (y == level.height ==> x == 0)
    ensures CollectedAt(level, tiles, UndefinedUpTo(level, tiles, y, x), y, x, c)
    decreases y, x
  {
    if x > 0 {
      UpToCollected(level, tiles, y, x - 1, c);
      UpToNextCell(level, tiles, y, x - 1, c);
    } else if y > 0 {
      UpToCollected(level, tiles, y - 1, level.width, c);
      UpToNextRow(level, tiles, y - 1, c);
    } else {
      UpToStart(level, tiles, c);
    }
  }

  lemma UpToNextCell(level: Level, tiles: map<char, Tiles.TileDef>, y: nat, x: nat, c: char)
    requires Rectangular(level) && y < level.height && x < level.width
    requires CollectedAt(level, tiles, UndefinedUpTo(level, tiles, y, x), y, x, c)
    ensures CollectedAt(level, tiles, UndefinedUpTo(level, tiles, y, x + 1), y, x + 1, c)
  {
    UndefinedStep(level, tiles, UndefinedUpTo(level, tiles, y, x), y, x, c);
  }

  lemma UpToNextRow(level: Level, tiles: map<char, Tiles.TileDef>, y: nat, c: char)
    requires Rectangular(level) && y < level.height
    requires CollectedAt(level, tiles, UndefinedUpTo(level, tiles, y, level.width), y, level.width, c)
    ensures CollectedAt(level, tiles, UndefinedUpTo(level, tiles, y + 1, 0), y + 1, 0, c)
  {
    NextRow(level, y, c);
  }

  lemma UpToStart(level: Level, tiles: map<char, Tiles.TileDef>, c: char)
    requires Rectangular(level)
    ensures CollectedAt(level, tiles, UndefinedUpTo(level, tiles, 0, 0), 0, 0, c)
  {
    assert SeenBefore(level, c, 0, 0) == [];
  }

  method ScanRowUndefined(level: Level, tiles: map<char, Tiles.TileDef>, y: nat, undefined: map<char, seq<(int, int)>>)
      returns (r: map<char, seq<(int, int)>>)
    requires Rectangular(level) && y < level.height
    requires undefined == UndefinedUpTo(level, tiles, y, 0)
    ensures r == UndefinedUpTo(level, tiles, y, level.width)
  {
    r := undefined;
    var x: nat := 0;
    while x < level.width
      invariant 0 <= x <= level.width
      invariant r == UndefinedUpTo(level, tiles, y, x)
    {
      r := NoteUndefined(tiles, r, GetTile(level, x, y), x, y);
      x := x + 1;
    }
  }

  /**
   * The first loop of `_validate_level`: each character of the grid that
   * the tile table does not define, with its first three positions in
   * row-major order.
   */
  method UndefinedTiles(level: Level, tiles: map<char, Tiles.TileDef>) returns (undefined: map<char, seq<(int, int)>>)
    requires Rectangular(level)
    ensures forall c :: c in undefined <==> c !in tiles && |Occurrences(level, c)| > 0
    ensures forall c :: c in undefined ==> undefined[c] == Examples(Occurrences(level, c))
  {
    undefined := map[];
    var y: nat := 0;
    while y < level.height
      invariant 0 <= y <= level.height
      invariant undefined == UndefinedUpTo(level, tiles, y, 0)
    {
      undefined := ScanRowUndefined(level, tiles, y, undefined);
      y := y + 1;
    }
    forall c
      ensures c in undefined <==> c !in tiles && |Occurrences(level, c)| > 0
      ensures c in undefined ==> undefined[c] == Examples(Occurrences(level, c))
    {
      UpToCollected(level, tiles, level.height, 0, c);
      assert SeenBefore(level, c, level.height, 0) == Occurrences(level, c);
    }
  }

  /** A character is reported as undefined exactly when the table lacks it and it occurs in the grid. */
  lemma OccursSpec(level: Level, c: char)
    requires Rectangular(level)
    ensures |Occurrences(level, c)| > 0 <==>
      exists x, y :: 0 <= x < level.width && 0 <= y < level.height && level.tiles[y][x] == c
    ensures forall p :: p in Occurrences(level, c) ==> InBounds(level, p.0, p.1) && GetTile(level, p.0, p.1) == c
  {
    var occ := Occurrences(level, c);
    forall p ensures p in occ <==> InBounds(level, p.0, p.1) && level.tiles[p.1][p.0] == c {
      WhereSpec(level.tiles, level.width, level.height, IsChar(c), p);
    }
    if |occ| > 0 {
      assert occ[0] in occ;
    }
    if exists x, y :: 0 <= x < level.width && 0 <= y < level.height && level.tiles[y][x] == c {
      var x, y :| 0 <= x < level.width && 0 <= y < level.height && level.tiles[y][x] == c;
      assert (x, y) in occ;
    }
  }

  // ---------------------------------------------------------------- doors

  /** The name the warning gives a door's destination: its level, or "same level". */
  function TargetName(door: DoorInfo): string {
    if door.targetLevel.Some? && door.targetLevel.value != "" then door.targetLevel.value else "same level"
  }

  /** The warnings for the door entry at `pos`, in the order they are printed. */
  function DoorWarnings(level: Level, tiles: map<char, Tiles.TileDef>, pos: (int, int), door: DoorInfo): (r: seq<Warning>)
    requires Rectangular(level)
  {
    var (x, y) := pos;
    var c := GetTile(level, x, y);
    var tileWarning := if !Tiles.Lookup(tiles, c).isDoor then [DoorWithoutDoorTile(x, y, TargetName(door), c)] else [];
    var targetWarning :=
      if door.targetLevel.Some? then []
      else if !InBounds(level, door.targetX, door.targetY) then
        [TeleporterOutOfBounds(x, y, door.targetX, door.targetY)]
      else if !Tiles.Lookup(tiles, GetTile(level, door.targetX, door.targetY)).walkable then
        [TeleporterNotWalkable(x, y, door.targetX, door.targetY, GetTile(level, door.targetX, door.targetY))]
      else [];
    tileWarning + targetWarning
  }

  /** All warnings about door entries. */
  ghost function AllDoorWarnings(level: Level, tiles: map<char, Tiles.TileDef>): set<Warning>
    requires Rectangular(level)
  {
    set pos, w | pos in level.doors && w in DoorWarnings(level, tiles, pos, level.doors[pos]) :: w
  }

  /**
   * Each door entry is warned about when its tile is not a door tile, and
   * a same-level teleporter when its target is outside the grid or not
   * walkable; a door to another level is never checked for its target.
   */
  lemma DoorWarningsSpec(level: Level, tiles: map<char, Tiles.TileDef>, pos: (int, int), door: DoorInfo)
    requires Rectangular(level)
    ensures var ws := DoorWarnings(level, tiles, pos, door);
      var c := GetTile(level, pos.0, pos.1);
      (DoorWithoutDoorTile(pos.0, pos.1, TargetName(door), c) in ws <==> !Tiles.Lookup(tiles, c).isDoor) &&
      (TeleporterOutOfBounds(pos.0, pos.1, door.targetX, door.targetY) in ws <==>
        door.targetLevel.None? && !InBounds(level, door.targetX, door.targetY)) &&
      ((exists t :: TeleporterNotWalkable(pos.0, pos.1, door.targetX, door.targetY, t) in ws) <==>
        door.targetLevel.None? && InBounds(level, door.targetX, door.targetY) &&
        !Tiles.Lookup(tiles, level.tiles[door.targetY][door.targetX]).walkable) &&
      (door.targetLevel.Some? ==> |ws| <= 1) &&
      |ws| <= 2
  {
    var ws := DoorWarnings(level, tiles, pos, door);
    if door.targetLevel.None? && InBounds(level, door.targetX, door.targetY) &&
        !Tiles.Lookup(tiles, level.tiles[door.targetY][door.targetX]).walkable {
      var t := GetTile(level, door.targetX, door.targetY);
      assert TeleporterNotWalkable(pos.0, pos.1, door.targetX, door.targetY, t) in ws;
    }
  }

  /** The second loop of `_validate_level`, over the door entries in no particular order. */
  method CheckDoors(level: Level, tiles: map<char, Tiles.TileDef>) returns (warnings: set<Warning>)
    requires Rectangular(level)
    ensures warnings == AllDoorWarnings(level, tiles)
  {
    warnings := {};
    var rest := level.doors.Keys;
    while rest != {}
      invariant rest <= level.doors.Keys
      invariant warnings == set pos, w | pos in level.doors && pos !in rest &&
        w in DoorWarnings(level, tiles, pos, level.doors[pos]) :: w
      decreases rest
    {
      var pos := Collections.Pick(rest);
      var ws := DoorWarnings(level, tiles, pos, level.doors[pos]);
      warnings := warnings + set w | w in ws;
      rest := rest - {pos};
    }
  }

  // ---------------------------------------------------------------- orphaned door tiles

  /** Moving one cell on adds that cell exactly when it is an orphaned door tile. */
  lemma OrphanStep(level: Level, tiles: map<char, Tiles.TileDef>, y: nat, x: nat)
    requires Rectangular(level) && y < level.height && x < level.width
    ensures RowWhere(level.tiles[y], y, x + 1, IsOrphan(level, tiles)) ==
      RowWhere(level.tiles[y], y, x, IsOrphan(level, tiles)) +
      (if Tiles.Lookup(tiles, level.tiles[y][x]).isDoor && (x, y) !in level.doors then [(x, y)] else [])
  {
    assert IsOrphan(level, tiles)(x, y, level.tiles[y][x]) ==
      (Tiles.Lookup(tiles, level.tiles[y][x]).isDoor && (x, y) !in level.doors);
  }

  method ScanRowOrphans(level: Level, tiles: map<char, Tiles.TileDef>, y: nat, found: seq<(int, int)>)
      returns (r: seq<(int, int)>)
    requires Rectangular(level) && y < level.height
    requires found == Where(level.tiles, y, IsOrphan(level, tiles))
    ensures r == Where(level.tiles, y + 1, IsOrphan(level, tiles))
  {
    var inRow: seq<(int, int)> := [];
    var x: nat := 0;
    while x < level.width
      invariant 0 <= x <= level.width
      invariant inRow == RowWhere(level.tiles[y], y, x, IsOrphan(level, tiles))
    {
      OrphanStep(level, tiles, y, x);
      var c := GetTile(level, x, y);
      if Tiles.Lookup(tiles, c).isDoor && (x, y) !in level.doors {
        inRow := inRow + [(x, y)];
      }
      x := x + 1;
    }
    r := found + inRow;
  }

  /** The third loop of `_validate_level`: door tiles without a door entry, in row-major order. */
  method OrphanDoorTiles(level: Level, tiles: map<char, Tiles.TileDef>) returns (orphans: seq<Warning>)
    requires Rectangular(level)
    ensures |orphans| == |Where(level.tiles, level.height, IsOrphan(level, tiles))|
    ensures forall i :: 0 <= i < |orphans| ==>
      var p := Where(level.tiles, level.height, IsOrphan(level, tiles))[i];
      orphans[i] == OrphanDoorTile(GetTile(level, p.0, p.1), p.0, p.1)
  {
    var found: seq<(int, int)> := [];
    var y: nat := 0;
    while y < level.height
      invariant 0 <= y <= level.height
      invariant found == Where(level.tiles, y, IsOrphan(level, tiles))
    {
      found := ScanRowOrphans(level, tiles, y, found);
      y := y + 1;
    }
    orphans := seq(|found|, i requires 0 <= i < |found| => OrphanDoorTile(GetTile(level, found[i].0, found[i].1), found[i].0, found[i].1));
  }

  /** A cell is reported as an orphan exactly when it is inside the grid, its tile is a door tile and no door entry is there. */
  lemma OrphanSpec(level: Level, tiles: map<char, Tiles.TileDef>, x: int, y: int)
    requires Rectangular(level)
    ensures (x, y) in Where(level.tiles, level.height, IsOrphan(level, tiles)) <==>
      InBounds(level, x, y) && Tiles.Lookup(tiles, GetTile(level, x, y)).isDoor && (x, y) !in level.doors
  {
    WhereSpec(level.tiles, level.width, level.height, IsOrphan(level, tiles), (x, y));
  }

  // ---------------------------------------------------------------- the whole check

  /** What `_validate_level` prints, grouped by the loop that finds it. */
  datatype Report = Report(
    undefined: map<char, seq<(int, int)>>,
    doorWarnings: set<Warning>,
    orphans: seq<Warning>)

  method ValidateLevel(level: Level, tiles: map<char, Tiles.TileDef>) returns (report: Report)
    requires Rectangular(level)
    ensures forall c :: c in report.undefined <==> c !in tiles && |Occurrences(level, c)| > 0
    ensures forall c :: c in report.undefined ==> report.undefined[c] == Examples(Occurrences(level, c))
    ensures report.doorWarnings == AllDoorWarnings(level, tiles)
    ensures |report.orphans| == |Where(level.tiles, level.height, IsOrphan(level, tiles))|
    ensures forall i :: 0 <= i < |report.orphans| ==>
      var p := Where(level.tiles, level.height, IsOrphan(level, tiles))[i];
      report.orphans[i] == OrphanDoorTile(GetTile(level, p.0, p.1), p.0, p.1)
  {
    var undefined := UndefinedTiles(level, tiles);
    var doors := CheckDoors(level, tiles);
    var orphans := OrphanDoorTiles(level, tiles);
    report := Report(undefined, doors, orphans);
  }
}
