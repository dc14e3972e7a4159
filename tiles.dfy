/**
 * Tile definitions and lookup with a default (rogue_talk/common/tiles.py).
 * The record carries every field a level's tiles.json can set, as the
 * server constructs it; the built-in table only sets the first four.
 */
module Tiles {
  import opened Wrappers

  datatype TileDef = TileDef(
    glyph: char,
    walkable: bool,
    color: string,
    bold: bool,
    name: string,
    walkingSound: Option<string>,
    nearbySound: Option<string>,
    animationColors: seq<string>,
    blocksSight: Option<bool>,
    blocksSound: Option<bool>,
    isDoor: bool,
    isSpawn: bool,
    renderChar: Option<string>)

  /** Python truthiness of an optional sound file name: present and not empty. */
  predicate HasSound(o: Option<string>) {
    o.Some? && o.value != ""
  }

  /** A tile with only the built-in fields set; the rest take their defaults. */
  function Basic(c: char, walkable: bool, color: string, bold: bool): TileDef {
    TileDef(c, walkable, color, bold, "", None, None, [], None, None, false, false, None)
  }

  /** The built-in tiles by character. */
  const TileTable: map<char, TileDef> := map[
    '#' := Basic('#', false, "white", false),
    'O' := Basic('O', false, "white", false),
    '+' := Basic('+', true, "yellow", false),
    '.' := Basic('.', true, "white", false),
    ',' := Basic(',', true, "green", false),
    ':' := Basic(':', true, "white", false),
    '_' := Basic('_', true, "yellow", false),
    '~' := Basic('~', false, "blue", true),
    '^' := Basic('^', false, "red", true),
    '=' := Basic('=', true, "yellow", false),
    '*' := Basic('*', false, "yellow", true),
    '%' := Basic('%', false, "green", false),
    ' ' := Basic(' ', false, "black", false)
  ]

  /** What an unknown character stands for. */
  const DefaultTile: TileDef := Basic('?', false, "magenta", false)

  /** `tiles.get(c, DEFAULT_TILE)` for any tile table. */
  function Lookup(tiles: map<char, TileDef>, c: char): TileDef {
    if c in tiles then tiles[c] else DefaultTile
  }

  function GetTile(c: char): TileDef {
    Lookup(TileTable, c)
  }

  function IsWalkable(c: char): bool {
    GetTile(c).walkable
  }

  /** The characters the built-in table knows, as a string. */
  const KnownChars: string := "#O+.,:_~^=*% "

  /** Lookup finds the table's entry for a known character, the default otherwise. */
  lemma LookupSpec(tiles: map<char, TileDef>, c: char)
    ensures c in tiles ==> Lookup(tiles, c) == tiles[c]
    ensures c !in tiles ==> Lookup(tiles, c) == DefaultTile && !Lookup(tiles, c).walkable
  {
  }

  /** The built-in table is keyed by each tile's own character. */
  lemma {:induction false} GetTileChar(c: char)
    ensures (c in KnownChars) == (c in TileTable)
    ensures GetTile(c).glyph == if c in KnownChars then c else '?'
  {
    assert TileTable.Keys == set k | k in KnownChars;
  }

  /** Exactly the floor, door and bridge tiles are walkable; unknown tiles and the void are not. */
  lemma {:induction false} WalkableChars(c: char)
    ensures IsWalkable(c) <==> c in "+.,:_="
  {
    if c in TileTable {
      assert c in KnownChars by { GetTileChar(c); }
    }
  }
}
