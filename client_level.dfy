/**
 * The client's view of a level (rogue_talk/client/level.py): the grid it
 * receives from the server, the doors that the level pack describes, and a
 * lazily built index of the see-through doors.
 */
module ClientLevel {
  import opened Wrappers
  import opened Bytes
  import opened Errors
  import Tiles
  import LevelCodec

  /** A door as the client knows it; `seeThrough` doors let sight pass. */
  datatype DoorInfo = DoorInfo(x: int, y: int, targetLevel: Option<string>, targetX: int, targetY: int, seeThrough: bool)

  /** The see-through doors by position, as the cache-filling loop builds it: a later door at a position wins. */
  function SeeThroughIndex(doors: seq<DoorInfo>): map<(int, int), DoorInfo>
    decreases |doors|
  {
    if |doors| == 0 then map[]
    else
      var m := SeeThroughIndex(doors[..|doors| - 1]);
      var d := doors[|doors| - 1];
      if d.seeThrough then m[(d.x, d.y) := d] else m
  }

  /** `doors` is None or empty: the cache stays empty. */
  function DoorList(doors: Option<seq<DoorInfo>>): seq<DoorInfo> {
    if doors.Some? then doors.value else []
  }

  predicate SeeThroughAt(d: DoorInfo, x: int, y: int) {
    d.seeThrough && d.x == x && d.y == y
  }

  /** The index has an entry at (x, y) exactly when some see-through door stands there. */
  lemma {:induction false} SeeThroughIndexKeys(doors: seq<DoorInfo>, x: int, y: int)
    ensures (x, y) in SeeThroughIndex(doors) <==> exists i :: 0 <= i < |doors| && SeeThroughAt(doors[i], x, y)
    decreases |doors|
  {
    if doors != [] {
      var n := |doors| - 1;
      var init := doors[..n];
      SeeThroughIndexKeys(init, x, y);
      if SeeThroughAt(doors[n], x, y) {
        assert (x, y) in SeeThroughIndex(doors);
      } else if (x, y) in SeeThroughIndex(init) {
        var i :| 0 <= i < n && SeeThroughAt(init[i], x, y);
        assert init[i] == doors[i];
      } else {
        assert forall i :: 0 <= i < n ==> init[i] == doors[i];
      }
    }
  }

  /** The door an index entry holds: the last see-through door listed at its position. */
  lemma {:induction false} SeeThroughIndexLast(doors: seq<DoorInfo>, x: int, y: int) returns (i: nat)
    requires (x, y) in SeeThroughIndex(doors)
    ensures i < |doors| && SeeThroughAt(doors[i], x, y) && SeeThroughIndex(doors)[(x, y)] == doors[i]
    ensures forall j :: i < j < |doors| ==> !SeeThroughAt(doors[j], x, y)
    decreases |doors|
  {
    var n := |doors| - 1;
    var init := doors[..n];
    if SeeThroughAt(doors[n], x, y) {
      i := n;
    } else {
      i := SeeThroughIndexLast(init, x, y);
      assert forall j :: i < j < n ==> init[j] == doors[j];
    }
  }

  /**
   * The index has an entry at (x, y) exactly when some see-through door stands
   * there, and the entry is the last such door in the list.
   */
  lemma SeeThroughIndexSpec(doors: seq<DoorInfo>, x: int, y: int)
    ensures (x, y) in SeeThroughIndex(doors) <==> exists i :: 0 <= i < |doors| && SeeThroughAt(doors[i], x, y)
    ensures (x, y) in SeeThroughIndex(doors) ==>
      exists i :: 0 <= i < |doors| && SeeThroughAt(doors[i], x, y) && SeeThroughIndex(doors)[(x, y)] == doors[i]
        && forall j :: i < j < |doors| ==> !SeeThroughAt(doors[j], x, y)
  {
    SeeThroughIndexKeys(doors, x, y);
    if (x, y) in SeeThroughIndex(doors) {
      var i := SeeThroughIndexLast(doors, x, y);
    }
  }

  class Level {
    const width: int
    const height: int
    const tiles: seq<seq<char>>
    /** Assigned by the level-pack loader after the grid arrives. */
    var doors: Option<seq<DoorInfo>>
    /** `_see_through_door_cache`: None until the first lookup, and never rebuilt after it. */
    var cache: Option<map<(int, int), DoorInfo>>

    /** The dataclass constructor: no cache yet. */
    constructor (width: int, height: int, tiles: seq<seq<char>>, doors: Option<seq<DoorInfo>>)
      ensures this.width == width && this.height == height && this.tiles == tiles && this.doors == doors
      ensures cache == None
    {
      this.width := width;
      this.height := height;
      this.tiles := tiles;
      this.doors := doors;
      cache := None;
    }

    /** A cache that is present holds the index of this level's current doors. */
    ghost predicate Valid()
      reads this
    {
      cache.Some? ==> cache.value == SeeThroughIndex(DoorList(doors))
    }

    predicate InBounds(x: int, y: int) {
      0 <= x < width && 0 <= y < height
    }

    /** Every row inside the bounds is long enough, as for a level decoded from complete data. */
    predicate Complete() {
      |tiles| >= height && forall y :: 0 <= y < height ==> |tiles[y]| >= width
    }

    /** `get_tile(x, y)`: void outside the bounds; a row shorter than `width` raises. */
    function GetTile(x: int, y: int): (r: Result<char, Error>)
      ensures Complete() ==> r.Success?
      ensures !InBounds(x, y) ==> r == Success(' ')
      ensures InBounds(x, y) ==> (r.Success? <==> y < |tiles| && x < |tiles[y]|)
      ensures InBounds(x, y) && r.Success? ==> r.value == tiles[y][x]
    {
      if !InBounds(x, y) then Success(' ')
      else if y < |tiles| && x < |tiles[y]| then Success(tiles[y][x])
      else Failure(IndexError)
    }

    /** `is_walkable(x, y)`: false outside the bounds, otherwise the tile table's verdict. */
    function IsWalkable(x: int, y: int): (r: Result<bool, Error>)
      ensures InBounds(x, y) ==> r == (match GetTile(x, y)
        case Success(c) => Success(Tiles.IsWalkable(c))
        case Failure(e) => Failure(e))
      ensures !InBounds(x, y) ==> r == Success(false)
    {
      if !InBounds(x, y) then Success(false)
      else if y < |tiles| && x < |tiles[y]| then Success(Tiles.IsWalkable(tiles[y][x]))
      else Failure(IndexError)
    }

    /**
     * `get_see_through_door_at(x, y)`: the first call builds the index of
     * see-through doors; every call answers from the cache, even one built
     * before `doors` was reassigned.
     */
    method GetSeeThroughDoorAt(x: int, y: int) returns (r: Option<DoorInfo>)
      modifies this
      ensures doors == old(doors)
      ensures old(cache).None? ==> cache == Some(SeeThroughIndex(DoorList(doors)))
      ensures old(cache).Some? ==> cache == old(cache)
      ensures old(Valid()) ==> Valid()
      ensures cache.Some? && (r.Some? <==> (x, y) in cache.value)
      ensures r.Some? ==> r.value == cache.value[(x, y)]
    {
      if cache.None? {
        var index: map<(int, int), DoorInfo> := map[];
        var list := DoorList(doors);
        for i := 0 to |list|
          invariant index == SeeThroughIndex(list[..i])
        {
          var door := list[i];
          assert list[..i + 1][..i] == list[..i];
          if door.seeThrough {
            index := index[(door.x, door.y) := door];
          }
        }
        assert list[..|list|] == list;
        cache := Some(index);
      }
      var index := cache.value;
      if (x, y) in index {
        r := Some(index[(x, y)]);
      } else {
        r := None;
      }
    }
  }

  /** A door lookup answers with a see-through door at (x, y), the last one listed, or None when there is none. */
  lemma SeeThroughLookup(doors: Option<seq<DoorInfo>>, x: int, y: int)
    ensures (x, y) in SeeThroughIndex(DoorList(doors)) ==>
      SeeThroughAt(SeeThroughIndex(DoorList(doors))[(x, y)], x, y)
    ensures (x, y) !in SeeThroughIndex(DoorList(doors)) <==>
      forall d :: d in DoorList(doors) ==> !SeeThroughAt(d, x, y)
  {
    var list := DoorList(doors);
    SeeThroughIndexSpec(list, x, y);
    if (x, y) !in SeeThroughIndex(list) {
      forall d | d in list ensures !SeeThroughAt(d, x, y) {
        var i :| 0 <= i < |list| && list[i] == d;
      }
    }
  }

  /** `Level.from_bytes(data)`: the shared wire format, with no doors and no cache. */
  method FromBytes(data: seq<byte>) returns (r: Result<Level, Error>)
    ensures r.Failure? <==> LevelCodec.DecodeGrid(data).Failure?
    ensures r.Failure? ==> r.error == LevelCodec.DecodeGrid(data).error
    ensures r.Success? ==>
      fresh(r.value) && r.value.doors == None && r.value.cache == None
      && LevelCodec.DecodeGrid(data).value == LevelCodec.Grid(r.value.width, r.value.height, r.value.tiles)
  {
    var g := LevelCodec.ReadGrid(data);
    if g.Failure? {
      return Failure(g.error);
    }
    var level := new Level(g.value.width, g.value.height, g.value.rows, None);
    return Success(level);
  }
}
