/**
 * Proximity audio routing on the server (rogue_talk/server/audio_router.py):
 * a volume table indexed by squared tile distance, and a per-source cache of
 * recipient lists.
 *
 * The table's entries are `1.0` up to squared distance 4 and
 * `1 - (sqrt(d) - 2) / 8` beyond, up to 100. The square roots are taken as
 * a parameter: any table of exact non-negative roots (`IsRootTable`), so
 * that every property below holds of the exact-real version of the table.
 */
module AudioRouter {
  import opened Wrappers
  import opened ServerPlayer
  import opened Collections

  const MAX_DISTANCE_SQ: nat := 100
  const FULL_VOLUME_DISTANCE_SQ: nat := 4

  predicate IsRootTable(roots: seq<real>) {
    |roots| == MAX_DISTANCE_SQ + 1 &&
    forall i :: 0 <= i < |roots| ==> roots[i] >= 0.0 && roots[i] * roots[i] == i as real
  }

  /** `_VOLUME_TABLE`, given the square roots of 0..100. */
  function BuildTable(roots: seq<real>): (t: seq<real>)
    requires IsRootTable(roots)
    ensures |t| == MAX_DISTANCE_SQ + 1
  {
    seq(MAX_DISTANCE_SQ + 1, d requires 0 <= d <= MAX_DISTANCE_SQ =>
      if d <= FULL_VOLUME_DISTANCE_SQ then 1.0 else 1.0 - (roots[d] - 2.0) / 8.0)
  }

  /** `get_volume(dx, dy)` */
  function GetVolume(table: seq<real>, dx: int, dy: int): real
    requires |table| == MAX_DISTANCE_SQ + 1
  {
    var d := dx * dx + dy * dy;
    if d > MAX_DISTANCE_SQ then 0.0 else table[d]
  }

  lemma SquareStrict(a: real, b: real)
    ensures a > b >= 0.0 ==> a * a > b * b
  {
    if a > b >= 0.0 {
      assert a * a - b * b == (a - b) * (a + b);
      assert a - b > 0.0 && a + b > 0.0;
    }
  }

  /** Non-negative square roots grow with their squares. */
  lemma RootMonotone(a: real, b: real)
    requires a >= 0.0 && b >= 0.0 && a * a <= b * b
    ensures a <= b
  {
    SquareStrict(a, b);
  }

  lemma RootBounds(roots: seq<real>, d: nat)
    requires IsRootTable(roots) && d <= MAX_DISTANCE_SQ
    ensures d > FULL_VOLUME_DISTANCE_SQ ==> roots[d] > 2.0
    ensures d < MAX_DISTANCE_SQ ==> roots[d] < 10.0
    ensures d == MAX_DISTANCE_SQ ==> roots[d] == 10.0
  {
    var r := roots[d];
    if d > FULL_VOLUME_DISTANCE_SQ && r <= 2.0 {
      RootMonotone(2.0, r);
    }
    if d < MAX_DISTANCE_SQ && r >= 10.0 {
      RootMonotone(r, 10.0);
    }
    if d == MAX_DISTANCE_SQ {
      assert (r - 10.0) * (r + 10.0) == 0.0;
    }
  }

  /**
   * The table's shape: full volume up to squared distance 4, never
   * increasing with distance, strictly positive below 100 and 0 at 100.
   */
  lemma TableShape(roots: seq<real>)
    requires IsRootTable(roots)
    ensures var t := BuildTable(roots);
      (forall d :: 0 <= d <= FULL_VOLUME_DISTANCE_SQ ==> t[d] == 1.0) &&
      (forall d, e :: 0 <= d <= e <= MAX_DISTANCE_SQ ==> t[e] <= t[d]) &&
      (forall d :: 0 <= d < MAX_DISTANCE_SQ ==> 0.0 < t[d] <= 1.0) &&
      t[MAX_DISTANCE_SQ] == 0.0
  {
    var t := BuildTable(roots);
    forall d, e | 0 <= d <= e <= MAX_DISTANCE_SQ ensures t[e] <= t[d] {
      RootBounds(roots, d);
      RootBounds(roots, e);
      if d > FULL_VOLUME_DISTANCE_SQ {
        RootMonotone(roots[d], roots[e]);
      }
    }
    forall d | 0 <= d < MAX_DISTANCE_SQ ensures 0.0 < t[d] <= 1.0 {
      RootBounds(roots, d);
    }
    RootBounds(roots, MAX_DISTANCE_SQ);
  }

  /** The volume depends on the offset only through its squared length. */
  lemma VolumeSymmetric(table: seq<real>, dx: int, dy: int)
    requires |table| == MAX_DISTANCE_SQ + 1
    ensures GetVolume(table, dx, dy) == GetVolume(table, -dx, dy)
    ensures GetVolume(table, dx, dy) == GetVolume(table, dx, -dy)
    ensures GetVolume(table, dx, dy) == GetVolume(table, dy, dx)
  {
    assert (-dx) * (-dx) == dx * dx && (-dy) * (-dy) == dy * dy;
  }

  /**
   * With the real table: full volume within squared distance 4, silence from
   * squared distance 100 on, a positive volume exactly below 100, and a
   * volume that never grows with distance.
   */
  lemma VolumeByDistance(roots: seq<real>, dx: int, dy: int)
    requires IsRootTable(roots)
    ensures var v := GetVolume(BuildTable(roots), dx, dy);
      var d := dx * dx + dy * dy;
      (d <= FULL_VOLUME_DISTANCE_SQ ==> v == 1.0) &&
      (d >= MAX_DISTANCE_SQ ==> v == 0.0) &&
      (v > 0.0 <==> d < MAX_DISTANCE_SQ) &&
      0.0 <= v <= 1.0
  {
    TableShape(roots);
  }

  lemma VolumeMonotone(roots: seq<real>, dx: int, dy: int, ex: int, ey: int)
    requires IsRootTable(roots) && dx * dx + dy * dy <= ex * ex + ey * ey
    ensures GetVolume(BuildTable(roots), ex, ey) <= GetVolume(BuildTable(roots), dx, dy)
  {
    TableShape(roots);
    VolumeByDistance(roots, dx, dy);
  }

  // ---------------------------------------------------------------- recipients

  /** (recipient id, volume) pairs; the source holds the players themselves, found here by id. */
  type Recipients = seq<(int, real)>

  function Ids(rs: Recipients): set<int> {
    set i | 0 <= i < |rs| :: rs[i].0
  }

  predicate NoDupIds(rs: Recipients) {
    forall i, j :: 0 <= i < j < |rs| ==> rs[i].0 != rs[j].0
  }

  /** What `p` hears of `source`. */
  function VolumeFrom(table: seq<real>, source: Player, p: Player): real
    requires |table| == MAX_DISTANCE_SQ + 1
  {
    GetVolume(table, p.x - source.x, p.y - source.y)
  }

  predicate KeyedById(players: map<int, Player>) {
    forall id :: id in players ==> players[id].id == id
  }

  /** Exactly the other players who hear the source, each once, with the volume they hear. */
  predicate IsRecipientList(table: seq<real>, source: Player, players: map<int, Player>, rs: Recipients)
    requires |table| == MAX_DISTANCE_SQ + 1
  {
    NoDupIds(rs) &&
    (forall i :: 0 <= i < |rs| ==>
      rs[i].0 in players && rs[i].0 != source.id &&
      rs[i].1 == VolumeFrom(table, source, players[rs[i].0]) && rs[i].1 > 0.0) &&
    (forall id :: id in players && id != source.id && VolumeFrom(table, source, players[id]) > 0.0 ==>
      id in Ids(rs))
  }

  function Abs(r: real): real { if r < 0.0 then -r else r }

  /**
   * A cached entry is reused when the source has not moved, every cached
   * recipient is still present with a volume within 0.01 of the cached one,
   * and no player outside the list hears the source.
   */
  predicate CacheHit(table: seq<real>, source: Player, players: map<int, Player>,
                     entry: ((int, int), Recipients))
    requires |table| == MAX_DISTANCE_SQ + 1
  {
    entry.0 == (source.x, source.y) &&
    (forall i :: 0 <= i < |entry.1| ==>
      entry.1[i].0 in players &&
      Abs(VolumeFrom(table, source, players[entry.1[i].0]) - entry.1[i].1) <= 0.01) &&
    (forall id :: id in players && id != source.id && id !in Ids(entry.1) ==>
      VolumeFrom(table, source, players[id]) <= 0.0)
  }

  /** A list just rebuilt is reused by the next call if nobody has moved. */
  lemma RebuiltIsHit(table: seq<real>, source: Player, players: map<int, Player>, rs: Recipients)
    requires |table| == MAX_DISTANCE_SQ + 1
    requires IsRecipientList(table, source, players, rs)
    ensures CacheHit(table, source, players, ((source.x, source.y), rs))
  {
  }

  /**
   * Whatever path it takes, every recipient listed is present and hears the
   * source within 0.01 of the listed volume, and everyone who hears the
   * source is listed.
   */
  lemma HitIsClose(table: seq<real>, source: Player, players: map<int, Player>, rs: Recipients)
    requires |table| == MAX_DISTANCE_SQ + 1
    requires IsRecipientList(table, source, players, rs) || CacheHit(table, source, players, ((source.x, source.y), rs))
    ensures forall i :: 0 <= i < |rs| ==>
      rs[i].0 in players && Abs(VolumeFrom(table, source, players[rs[i].0]) - rs[i].1) <= 0.01
    ensures forall id :: id in players && id != source.id && VolumeFrom(table, source, players[id]) > 0.0 ==>
      id in Ids(rs)
  {
  }

  /** `_recipient_cache` with the two functions that use it. */
  class RecipientCache {
    /** source id -> (source position when built, recipients) */
    var entries: map<int, ((int, int), Recipients)>

    predicate Valid() reads this {
      forall k :: k in entries ==> NoDupIds(entries[k].1) && k !in Ids(entries[k].1)
    }

    constructor ()
      ensures Valid() && entries == map[]
    {
      entries := map[];
    }

    /** Whether the entry for `source` may be reused; the two loops that decide it. */
    method StillValid(table: seq<real>, source: Player, players: map<int, Player>,
                      entry: ((int, int), Recipients)) returns (valid: bool)
      requires |table| == MAX_DISTANCE_SQ + 1 && KeyedById(players)
      ensures valid == CacheHit(table, source, players, entry)
    {
      if entry.0 != (source.x, source.y) {
        return false;
      }
      var cached := entry.1;
      var i: nat := 0;
      while i < |cached|
        invariant 0 <= i <= |cached|
        invariant forall j :: 0 <= j < i ==>
          cached[j].0 in players && Abs(VolumeFrom(table, source, players[cached[j].0]) - cached[j].1) <= 0.01
      {
        var (pid, oldVolume) := cached[i];
        if pid !in players {
          return false;
        }
        var newVolume := VolumeFrom(table, source, players[pid]);
        if Abs(newVolume - oldVolume) > 0.01 {
          return false;
        }
        i := i + 1;
      }
      var cachedIds := Ids(cached);
      var rest := players.Keys;
      while rest != {}
        invariant rest <= players.Keys
        invariant forall id :: id in players.Keys - rest && id != source.id && id !in cachedIds ==>
          VolumeFrom(table, source, players[id]) <= 0.0
        decreases rest
      {
        var id := Pick(rest);
        if id != source.id && id !in cachedIds && VolumeFrom(table, source, players[id]) > 0.0 {
          return false;
        }
        rest := rest - {id};
      }
      valid := true;
    }

    /** The rebuild loop over the players, in an arbitrary order. */
    static method Rebuild(table: seq<real>, source: Player, players: map<int, Player>) returns (rs: Recipients)
      requires |table| == MAX_DISTANCE_SQ + 1
      ensures IsRecipientList(table, source, players, rs) && source.id !in Ids(rs)
    {
      rs := [];
      var rest := players.Keys;
      while rest != {}
        invariant rest <= players.Keys
        invariant NoDupIds(rs) && Ids(rs) !! rest
        invariant forall i :: 0 <= i < |rs| ==>
          rs[i].0 in players && rs[i].0 != source.id &&
          rs[i].1 == VolumeFrom(table, source, players[rs[i].0]) && rs[i].1 > 0.0
        invariant forall id ::
          (id in players.Keys - rest && id != source.id && VolumeFrom(table, source, players[id]) > 0.0) ==>
          id in Ids(rs)
        decreases rest
      {
        var id := Pick(rest);
        if id != source.id {
          var volume := VolumeFrom(table, source, players[id]);
          if volume > 0.0 {
            assert Ids(rs + [(id, volume)]) == Ids(rs) + {id} by {
              assert forall i :: 0 <= i < |rs| ==> (rs + [(id, volume)])[i] == rs[i];
              assert (rs + [(id, volume)])[|rs|] == (id, volume);
            }
            rs := rs + [(id, volume)];
          }
        }
        rest := rest - {id};
      }
    }

    /** `get_audio_recipients(source, players)` */
    method GetAudioRecipients(table: seq<real>, source: Player, players: map<int, Player>)
        returns (rs: Recipients)
      requires |table| == MAX_DISTANCE_SQ + 1 && KeyedById(players) && Valid()
      modifies this
      ensures Valid()
      ensures source.isMuted ==> rs == [] && entries == old(entries)
      ensures (!source.isMuted && source.id in old(entries) &&
               CacheHit(table, source, players, old(entries)[source.id])) ==>
        rs == old(entries)[source.id].1 && entries == old(entries)
      ensures (!source.isMuted &&
               !(source.id in old(entries) && CacheHit(table, source, players, old(entries)[source.id]))) ==>
        IsRecipientList(table, source, players, rs) &&
        entries == old(entries)[source.id := ((source.x, source.y), rs)]
      ensures !source.isMuted ==> source.id !in Ids(rs) && NoDupIds(rs)
    {
      if source.isMuted {
        return [];
      }
      if source.id in entries {
        var valid := StillValid(table, source, players, entries[source.id]);
        if valid {
          return entries[source.id].1;
        }
      }
      rs := Rebuild(table, source, players);
      entries := entries[source.id := ((source.x, source.y), rs)];
    }

    /** `clear_recipient_cache(player_id)`: everything for None, else only that source. */
    method Clear(playerId: Option<int>)
      requires Valid()
      modifies this
      ensures Valid()
      ensures playerId.None? ==> entries == map[]
      ensures playerId.Some? ==> entries == old(entries) - {playerId.value}
    {
      if playerId.None? {
        entries := map[];
      } else {
        entries := entries - {playerId.value};
      }
    }
  }
}
