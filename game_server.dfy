/**
 * The game server's state and the handlers that change it
 * (rogue_talk/server/game_server.py): the connected players by id, the
 * next id to hand out, the player store and the recipient cache, with the
 * levels, their tiles and the volume table fixed at start-up. Each handler
 * is proved against the decision functions of ServerMoves and AudioRouting.
 */
module GameServer {
  import opened Wrappers
  import opened Bytes
  import Tiles
  import opened ServerLevel
  import opened ServerPlayer
  import opened JsonValues
  import opened Storage
  import opened Crypto
  import opened AudioRouter
  import opened AudioRouting
  import opened ServerMoves
  import Collections

  class Server {
    var players: map<int, Player>
    var nextPlayerId: int
    const storage: PlayerStorage
    const cache: RecipientCache
    const levels: map<string, Level>
    const mainLevel: Level
    const levelTiles: map<string, map<char, Tiles.TileDef>>
    /** The volume by squared distance, as built at start-up. */
    const table: seq<real>

    /** The levels and the table are well formed, the players keyed by id, and every id in use below the next one. */
    ghost predicate Valid()
      reads this, cache
    {
      LevelsValid(levels, mainLevel) && |table| == MAX_DISTANCE_SQ + 1 &&
      PlayersValid(players) && cache.Valid() && nextPlayerId >= 1 &&
      forall id :: id in players ==> 0 < id < nextPlayerId
    }

    /** A server over the loaded levels, with no players yet; the main level is the one named "main". */
    constructor (levels: map<string, Level>, levelTiles: map<string, map<char, Tiles.TileDef>>, table: seq<real>,
                 storage: PlayerStorage)
      requires "main" in levels && LevelsValid(levels, levels["main"]) && |table| == MAX_DISTANCE_SQ + 1
      ensures Valid() && fresh(cache)
      ensures players == map[] && nextPlayerId == 1 && this.storage == storage
      ensures this.levels == levels && mainLevel == levels["main"] && this.levelTiles == levelTiles && this.table == table
    {
      this.levels := levels;
      this.mainLevel := levels["main"];
      this.levelTiles := levelTiles;
      this.table := table;
      this.storage := storage;
      cache := new RecipientCache();
      players := map[];
      nextPlayerId := 1;
    }

    // ---------------------------------------------------------------- moving

    /** `_handle_door_transition` for the player `id`, who stands on the door tile. */
    method HandleDoorTransition(id: int, door: DoorInfo, seqNo: int) returns (sent: seq<Sent>, broadcast: bool)
      requires Valid() && id in players
      modifies this
      ensures Valid() && nextPlayerId == old(nextPlayerId)
      ensures var m := DoorTransition(levels, old(players)[id], door, seqNo);
        players == old(players)[id := m.player] && sent == m.sent && broadcast == m.broadcast
    {
      var player := players[id];
      var targetName := if door.targetLevel.Some? && door.targetLevel.value != "" then door.targetLevel.value
                        else player.currentLevel;
      var isSameLevel := targetName == player.currentLevel;
      if !isSameLevel && targetName !in levels {
        sent, broadcast := [PositionAck(seqNo, player.x, player.y)], false;
        return;
      }
      if isSameLevel {
        player := player.(x := door.targetX, y := door.targetY);
        sent := [PositionAck(seqNo, player.x, player.y)];
      } else {
        sent := [DoorTransitionMsg(targetName, door.targetX, door.targetY)];
        player := player.(currentLevel := targetName, x := door.targetX, y := door.targetY);
        sent := sent + [PositionAck(seqNo, player.x, player.y)];
      }
      players := players[id := player];
      broadcast := true;
    }

    /**
     * The `POSITION_UPDATE` branch of `_handle_message` for the player `id`:
     * the new state and the messages are those `PositionUpdate` decides.
     */
    method HandlePositionUpdate(id: int, seqNo: int, x: int, y: int) returns (sent: seq<Sent>, broadcast: bool)
      requires Valid() && id in players
      modifies this
      ensures Valid() && nextPlayerId == old(nextPlayerId)
      ensures var m := PositionUpdate(levels, mainLevel, levelTiles, old(players)[id], seqNo, x, y);
        players == old(players)[id := m.player] && sent == m.sent && broadcast == m.broadcast
    {
      var player := players[id];
      var dx, dy := x - player.x, y - player.y;
      var currentLevel := LevelFor(levels, mainLevel, player.currentLevel);
      var currentTiles := TilesFor(levelTiles, player.currentLevel);
      if -1 <= dx <= 1 && -1 <= dy <= 1 {
        if 0 <= x < currentLevel.width && 0 <= y < currentLevel.height {
          var tileDef := Tiles.Lookup(currentTiles, GetTile(currentLevel, x, y));
          if tileDef.walkable {
            MovedKeepsValid(players, id, player.(x := x, y := y), nextPlayerId);
            player := player.(x := x, y := y);
            players := players[id := player];
            if tileDef.isDoor {
              var doorInfo := GetDoorAt(currentLevel, x, y);
              if doorInfo.Some? {
                sent, broadcast := HandleDoorTransition(id, doorInfo.value, seqNo);
                return;
              }
            }
          }
        }
      }
      sent, broadcast := [PositionAck(seqNo, player.x, player.y)], true;
    }

    // ---------------------------------------------------------------- joining and leaving

    /** The test made under the lock: whether some connected player signs with `key`. */
    method KeyConnected(key: seq<byte>) returns (inUse: bool)
      ensures inUse <==> KeyInUse(players, key)
    {
      var rest := players.Keys;
      while rest != {}
        invariant rest <= players.Keys
        invariant forall id :: id in players && id !in rest ==> players[id].publicKey != key
        decreases rest
      {
        var id := Collections.Pick(rest);
        if players[id].publicKey == key {
          return true;
        }
        rest := rest - {id};
      }
      return false;
    }

    /**
     * The authentication part of `handle_client`, once the `AUTH_RESPONSE`
     * has been read: the answer and the registration are those
     * `Authenticate` decides.
     */
    method HandleAuth(lib: Ed25519, printable: char -> bool, nonce: seq<byte>, name: string, key: seq<byte>,
                      signature: seq<byte>) returns (result: AuthResult)
      modifies storage
      ensures var o := Authenticate(old(storage.users), players, lib, printable, nonce, name, key, signature);
        result == o.result && storage.users == o.users
    {
      if name == [] || |name| > MAX_NAME_LENGTH || !(forall i :: 0 <= i < |name| ==> printable(name[i])) {
        return InvalidName;
      }
      if !VerifySignature(lib, key, nonce, name, signature) {
        return InvalidSignature;
      }
      var existingKey := storage.GetPublicKey(name);
      var existingName := storage.GetNameByKey(key);
      if existingKey.Some? {
        if existingKey.value != key {
          return NameTaken;
        }
      } else if existingName.Some? {
        return KeyMismatch;
      } else {
        var registered := storage.RegisterPlayer(name, key);
        if !registered {
          return NameTaken;
        }
      }
      var inUse := KeyConnected(key);
      result := if inUse then AlreadyConnected else AuthSuccess;
    }

    /**
     * After `AUTH_RESULT` success: a player with the next id, at its saved
     * position and level when the store has one and at `spawn` on "main"
     * otherwise (the world's spawn point is chosen elsewhere). A state file
     * whose values have the wrong kind raises, and no player is added.
     */
    method Join(name: string, key: seq<byte>, spawn: (int, int), reprContainer: Json -> string) returns (id: Option<int>)
      requires Valid()
      modifies this
      ensures Valid()
      ensures var saved := storage.GetPlayerState(name, reprContainer);
        (id.None? <==> saved.Failure?) &&
        (id.None? ==> players == old(players) && nextPlayerId == old(nextPlayerId)) &&
        (id.Some? ==>
          var (x, y, level) := if saved.value.Some? then (saved.value.value.x, saved.value.value.y, saved.value.value.level)
                               else (spawn.0, spawn.1, "main");
          id.value == old(nextPlayerId) && id.value !in old(players) && nextPlayerId == old(nextPlayerId) + 1 &&
          players == old(players)[id.value := NewPlayer(id.value, name, x, y, level, key)])
    {
      var savedState := storage.GetPlayerState(name, reprContainer);
      if savedState.Failure? {
        return None;
      }
      var spawnX, spawnY, currentLevel := spawn.0, spawn.1, "main";
      if savedState.value.Some? {
        spawnX, spawnY, currentLevel := savedState.value.value.x, savedState.value.value.y, savedState.value.value.level;
      }
      var playerId := nextPlayerId;
      nextPlayerId := nextPlayerId + 1;
      players := players[playerId := NewPlayer(playerId, name, spawnX, spawnY, currentLevel, key)];
      return Some(playerId);
    }

    /**
     * The `finally` of `handle_client` for a player that joined: its
     * position and level are saved, it is removed, and the recipient cache
     * is cleared.
     */
    method Leave(id: int)
      requires Valid() && id in players
      modifies this, storage, cache
      ensures Valid() && nextPlayerId == old(nextPlayerId)
      ensures players == old(players) - {id} && cache.entries == map[]
      ensures var p := old(players)[id];
        storage.users == if p.name in old(storage.users)
                         then old(storage.users)[p.name := old(storage.users)[p.name].(state := Some(Parsed(StateJson(p.x, p.y, p.currentLevel))))]
                         else old(storage.users)
      ensures var p := old(players)[id];
        p.name in old(storage.users) ==> forall f :: storage.GetPlayerState(p.name, f) == Success(Some(PlayerState(p.x, p.y, p.currentLevel)))
    {
      var player := players[id];
      storage.SavePlayerState(player.name, player.x, player.y, player.currentLevel);
      players := players - {id};
      cache.Clear(None);
    }

    // ---------------------------------------------------------------- audio

    /** `_setup_initial_tracks` for the player `id`. */
    method SetupTracks(id: int)
      requires Valid() && id in players
      modifies this
      ensures Valid() && nextPlayerId == old(nextPlayerId)
      ensures players.Keys == old(players).Keys
      ensures players[id] == WithTracks(old(players)[id], Partners(table, old(players), id))
      ensures forall o :: o in players && o != id ==>
        players[o] == if o in Partners(table, old(players), id) then WithTracks(old(players)[o], {id}) else old(players)[o]
    {
      players := SetupInitialTracks(table, players, id);
    }

    /** One tick of `_route_all_audio`. */
    method RouteAudio()
      requires Valid()
      modifies this, cache
      ensures Valid() && nextPlayerId == old(nextPlayerId)
      ensures AllRouted(table, old(players), players)
    {
      players := RouteAllAudio(table, cache, players);
      forall id | id in players ensures players[id].id == id && TracksValid(players[id]) {
        assert RoutedAt(table, old(players), players, id);
      }
    }
  }

  /** Replacing a player's record by one with the same id and tracks keeps the players valid and their ids in use. */
  lemma MovedKeepsValid(players: map<int, Player>, id: int, p: Player, nextPlayerId: int)
    requires PlayersValid(players) && (forall i :: i in players ==> 0 < i < nextPlayerId) && id in players
    requires p.id == id && p.outboundTracks == players[id].outboundTracks
    ensures PlayersValid(players[id := p]) && players[id := p].Keys == players.Keys
  {
  }

  /**
   * A player that leaves and joins again comes back where it left: the
   * state `Leave` saves is the state `Join` reads.
   */
  lemma LeaveThenJoin(users: map<string, UserDir>, name: string, x: int, y: int, level: string, reprContainer: Json -> string)
    requires name in users
    ensures var saved := users[name := users[name].(state := Some(Parsed(StateJson(x, y, level))))];
      ReadState(saved[name].state, reprContainer) == Success(Some(PlayerState(x, y, level)))
  {
    SavedStateReadsBack(x, y, level, reprContainer);
  }
}
