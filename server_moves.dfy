/**
 * The server's decisions about a single player (rogue_talk/server/game_server.py):
 * whether a position update is accepted, where a door or teleporter takes
 * the player, and how an authentication attempt is answered. Each decision
 * is a function of the server's state; the messages it sends are returned
 * in order, and `broadcast` says whether the world state is broadcast
 * afterwards.
 */
module ServerMoves {
  import opened Wrappers
  import opened Bytes
  import Tiles
  import opened ServerLevel
  import opened ServerPlayer
  import opened Storage
  import opened Crypto

  // ---------------------------------------------------------------- moving

  /** The messages a move can send the moving player. */
  datatype Sent = PositionAck(seqNo: int, x: int, y: int) | DoorTransitionMsg(level: string, x: int, y: int)

  /** The player after the move, what it was sent, and whether the world state is broadcast. */
  datatype Moved = Moved(player: Player, sent: seq<Sent>, broadcast: bool)

  /** Every level the server serves has the shape its parser produces. */
  predicate LevelsValid(levels: map<string, Level>, main: Level) {
    Rectangular(main) && forall n :: n in levels ==> Rectangular(levels[n])
  }

  /** `self.levels.get(name, self.level)`: an unknown level name falls back to the main level. */
  function LevelFor(levels: map<string, Level>, main: Level, name: string): (l: Level)
    ensures name in levels ==> l == levels[name]
    ensures name !in levels ==> l == main
    ensures LevelsValid(levels, main) ==> Rectangular(l)
  {
    if name in levels then levels[name] else main
  }

  /** `self.level_tiles.get(name, TILES)`: a level without its own tiles uses the built-in ones. */
  function TilesFor(levelTiles: map<string, map<char, Tiles.TileDef>>, name: string): (t: map<char, Tiles.TileDef>)
    ensures name in levelTiles ==> t == levelTiles[name]
    ensures name !in levelTiles ==> t == Tiles.TileTable
  {
    if name in levelTiles then levelTiles[name] else Tiles.TileTable
  }

  /** `door_info.target_level or player.current_level`: no target, or an empty one, means the current level. */
  function DoorTarget(door: DoorInfo, current: string): (name: string)
    ensures name == current || (door.targetLevel == Some(name) && name != "")
    ensures door.targetLevel.Some? && door.targetLevel.value != "" ==> name == door.targetLevel.value
  {
    if door.targetLevel.Some? && door.targetLevel.value != "" then door.targetLevel.value else current
  }

  /**
   * `_handle_door_transition`. A door to a level the server does not have
   * sends an ACK of where the player stands and no broadcast; a teleporter
   * moves the player within its level; a door to another level sends the
   * transition first and then the ACK of the arrival point.
   */
  function DoorTransition(levels: map<string, Level>, player: Player, door: DoorInfo, seqNo: int): (m: Moved)
    ensures var target := DoorTarget(door, player.currentLevel);
      (target != player.currentLevel && target !in levels ==>
        m == Moved(player, [PositionAck(seqNo, player.x, player.y)], false)) &&
      (target == player.currentLevel ==>
        m == Moved(player.(x := door.targetX, y := door.targetY), [PositionAck(seqNo, door.targetX, door.targetY)], true)) &&
      (target != player.currentLevel && target in levels ==>
        m == Moved(player.(currentLevel := target, x := door.targetX, y := door.targetY),
                   [DoorTransitionMsg(target, door.targetX, door.targetY), PositionAck(seqNo, door.targetX, door.targetY)],
                   true))
  {
    var target := DoorTarget(door, player.currentLevel);
    var same := target == player.currentLevel;
    if !same && target !in levels then
      Moved(player, [PositionAck(seqNo, player.x, player.y)], false)
    else if same then
      var p := player.(x := door.targetX, y := door.targetY);
      Moved(p, [PositionAck(seqNo, p.x, p.y)], true)
    else
      var p := player.(currentLevel := target, x := door.targetX, y := door.targetY);
      Moved(p, [DoorTransitionMsg(target, door.targetX, door.targetY), PositionAck(seqNo, p.x, p.y)], true)
  }

  /** The tile definition at (x, y) of a level, by the level's own tiles. */
  function TileAt(level: Level, tiles: map<char, Tiles.TileDef>, x: int, y: int): Tiles.TileDef
    requires Rectangular(level)
  {
    Tiles.Lookup(tiles, GetTile(level, x, y))
  }

  /** The validation of a `POSITION_UPDATE` to (x, y): one step at most, inside the level, onto a walkable tile. */
  predicate Acceptable(level: Level, tiles: map<char, Tiles.TileDef>, player: Player, x: int, y: int)
    requires Rectangular(level)
  {
    -1 <= x - player.x <= 1 && -1 <= y - player.y <= 1 &&
    InBounds(level, x, y) && TileAt(level, tiles, x, y).walkable
  }

  /**
   * The `POSITION_UPDATE` branch of `_handle_message`. An accepted move onto
   * a door tile that has a door entry is a door transition; any other
   * update ends with an ACK of the player's authoritative position and a
   * broadcast.
   */
  function PositionUpdate(levels: map<string, Level>, main: Level, levelTiles: map<string, map<char, Tiles.TileDef>>,
                          player: Player, seqNo: int, x: int, y: int): (m: Moved)
    requires LevelsValid(levels, main)
    ensures var level := LevelFor(levels, main, player.currentLevel);
      var tiles := TilesFor(levelTiles, player.currentLevel);
      (!Acceptable(level, tiles, player, x, y) ==>
        m == Moved(player, [PositionAck(seqNo, player.x, player.y)], true)) &&
      (Acceptable(level, tiles, player, x, y) && !(TileAt(level, tiles, x, y).isDoor && (x, y) in level.doors) ==>
        m == Moved(player.(x := x, y := y), [PositionAck(seqNo, x, y)], true)) &&
      (Acceptable(level, tiles, player, x, y) && TileAt(level, tiles, x, y).isDoor && (x, y) in level.doors ==>
        m == DoorTransition(levels, player.(x := x, y := y), level.doors[(x, y)], seqNo))
  {
    var level := LevelFor(levels, main, player.currentLevel);
    var tiles := TilesFor(levelTiles, player.currentLevel);
    if Acceptable(level, tiles, player, x, y) then
      var p := player.(x := x, y := y);
      var door := GetDoorAt(level, x, y);
      if TileAt(level, tiles, x, y).isDoor && door.Some? then DoorTransition(levels, p, door.value, seqNo)
      else Moved(p, [PositionAck(seqNo, p.x, p.y)], true)
    else
      Moved(player, [PositionAck(seqNo, player.x, player.y)], true)
  }

  /** Only the position and the level of a player change, and the last message is always the ACK of where it ends up. */
  lemma PositionUpdateShape(levels: map<string, Level>, main: Level, levelTiles: map<string, map<char, Tiles.TileDef>>,
                            player: Player, seqNo: int, x: int, y: int)
    requires LevelsValid(levels, main)
    ensures var m := PositionUpdate(levels, main, levelTiles, player, seqNo, x, y);
      m.player == player.(x := m.player.x, y := m.player.y, currentLevel := m.player.currentLevel) &&
      |m.sent| > 0 && m.sent[|m.sent| - 1] == PositionAck(seqNo, m.player.x, m.player.y) &&
      (|m.sent| == 2 <==> m.player.currentLevel != player.currentLevel) &&
      (|m.sent| == 2 ==> m.sent[0] == DoorTransitionMsg(m.player.currentLevel, m.player.x, m.player.y)) &&
      |m.sent| <= 2
  {
  }

  /**
   * Where a position update can leave a player: where it was, on the next
   * tile it asked for (walkable, inside the level), or at the target of
   * the door entry of such a tile; and it only ever moves to a level the
   * server has.
   */
  lemma PositionUpdateReach(levels: map<string, Level>, main: Level, levelTiles: map<string, map<char, Tiles.TileDef>>,
                            player: Player, seqNo: int, x: int, y: int)
    requires LevelsValid(levels, main)
    ensures var m := PositionUpdate(levels, main, levelTiles, player, seqNo, x, y);
      var level := LevelFor(levels, main, player.currentLevel);
      var tiles := TilesFor(levelTiles, player.currentLevel);
      (m.player.currentLevel == player.currentLevel || m.player.currentLevel in levels) &&
      ((m.player.x, m.player.y) == (player.x, player.y) ||
       (Acceptable(level, tiles, player, x, y) && (m.player.x, m.player.y) == (x, y)) ||
       (Acceptable(level, tiles, player, x, y) && (x, y) in level.doors &&
        (m.player.x, m.player.y) == (level.doors[(x, y)].targetX, level.doors[(x, y)].targetY)))
  {
  }

  /** The world state is broadcast after every update except a door into a level the server does not have. */
  lemma PositionUpdateBroadcast(levels: map<string, Level>, main: Level, levelTiles: map<string, map<char, Tiles.TileDef>>,
                                player: Player, seqNo: int, x: int, y: int)
    requires LevelsValid(levels, main)
    ensures var m := PositionUpdate(levels, main, levelTiles, player, seqNo, x, y);
      var level := LevelFor(levels, main, player.currentLevel);
      var tiles := TilesFor(levelTiles, player.currentLevel);
      !m.broadcast <==>
        Acceptable(level, tiles, player, x, y) && TileAt(level, tiles, x, y).isDoor && (x, y) in level.doors &&
        DoorTarget(level.doors[(x, y)], player.currentLevel) != player.currentLevel &&
        DoorTarget(level.doors[(x, y)], player.currentLevel) !in levels
  {
  }

  /**
   * Asking again for the tile a plain move reached changes nothing: the
   * player stays where it is and is sent the same ACK.
   */
  lemma PositionUpdateRepeat(levels: map<string, Level>, main: Level, levelTiles: map<string, map<char, Tiles.TileDef>>,
                             player: Player, seqNo: int, x: int, y: int, seqNo2: int)
    requires LevelsValid(levels, main)
    requires var m := PositionUpdate(levels, main, levelTiles, player, seqNo, x, y);
      m.player.currentLevel == player.currentLevel && (m.player.x, m.player.y) == (x, y)
    ensures var m := PositionUpdate(levels, main, levelTiles, player, seqNo, x, y);
      var m2 := PositionUpdate(levels, main, levelTiles, m.player, seqNo2, x, y);
      m2.player == m.player && m2.sent == [PositionAck(seqNo2, x, y)]
  {
    var m := PositionUpdate(levels, main, levelTiles, player, seqNo, x, y);
    var level := LevelFor(levels, main, player.currentLevel);
    var tiles := TilesFor(levelTiles, player.currentLevel);
    if !Acceptable(level, tiles, player, x, y) {
      assert m.player == player;
    }
  }

  /** A teleporter, or a door whose target is the current level, keeps the level and moves the player to the target. */
  lemma TeleporterKeepsLevel(levels: map<string, Level>, player: Player, door: DoorInfo, seqNo: int)
    requires door.targetLevel.None? || door.targetLevel == Some("") || door.targetLevel == Some(player.currentLevel)
    ensures var m := DoorTransition(levels, player, door, seqNo);
      m.player == player.(x := door.targetX, y := door.targetY) && m.broadcast &&
      m.sent == [PositionAck(seqNo, door.targetX, door.targetY)]
  {
  }

  // ---------------------------------------------------------------- authentication

  datatype AuthResult = AuthSuccess | InvalidName | InvalidSignature | NameTaken | KeyMismatch | AlreadyConnected

  const MAX_NAME_LENGTH: int := 32

  /** A player name: not empty, at most 32 characters, all of them printable (`str.isprintable`, given as `printable`). */
  predicate ValidName(name: string, printable: char -> bool) {
    name != [] && |name| <= MAX_NAME_LENGTH && forall i :: 0 <= i < |name| ==> printable(name[i])
  }

  /** Some player directory holds `key` in its key file. */
  predicate KeyRegistered(users: map<string, UserDir>, key: seq<byte>) {
    exists n :: n in users && users[n].pub == Some(key)
  }

  /** Some connected player signs with `key`. */
  predicate KeyInUse(players: map<int, Player>, key: seq<byte>) {
    exists id :: id in players && players[id].publicKey == key
  }

  /** The answer to an authentication attempt and the users directory afterwards. */
  datatype AuthOutcome = AuthOutcome(result: AuthResult, users: map<string, UserDir>)

  /**
   * The decision of `handle_client` on an `AUTH_RESPONSE`, checked in
   * order: the name, the signature, then the registration (a name bound to
   * another key, a key bound to another name, a new player registered),
   * and last whether that key is already playing. A directory that exists
   * without a key file makes the registration fail as a taken name.
   */
  function Authenticate(users: map<string, UserDir>, players: map<int, Player>, lib: Ed25519, printable: char -> bool,
                        nonce: seq<byte>, name: string, key: seq<byte>, signature: seq<byte>): (o: AuthOutcome)
    ensures o.users == users || o.users == users[name := UserDir(Some(key), None)]
    ensures o.users != users ==> name !in users && o.result in {AuthSuccess, AlreadyConnected}
  {
    if !ValidName(name, printable) then AuthOutcome(InvalidName, users)
    else if !VerifySignature(lib, key, nonce, name, signature) then AuthOutcome(InvalidSignature, users)
    else if name in users && users[name].pub.Some? then
      if users[name].pub.value != key then AuthOutcome(NameTaken, users)
      else AuthOutcome(if KeyInUse(players, key) then AlreadyConnected else AuthSuccess, users)
    else if KeyRegistered(users, key) then AuthOutcome(KeyMismatch, users)
    else if name in users then AuthOutcome(NameTaken, users)
    else
      var users' := users[name := UserDir(Some(key), None)];
      AuthOutcome(if KeyInUse(players, key) then AlreadyConnected else AuthSuccess, users')
  }

  /** Each answer, and exactly the attempts that get it. */
  lemma AuthenticateResults(users: map<string, UserDir>, players: map<int, Player>, lib: Ed25519, printable: char -> bool,
                            nonce: seq<byte>, name: string, key: seq<byte>, signature: seq<byte>)
    ensures var o := Authenticate(users, players, lib, printable, nonce, name, key, signature);
      var checked := ValidName(name, printable) && VerifySignature(lib, key, nonce, name, signature);
      var known := name in users && users[name].pub.Some?;
      var admitted := checked && (if known then users[name].pub.value == key else !KeyRegistered(users, key) && name !in users);
      (o.result == InvalidName <==> !ValidName(name, printable)) &&
      (o.result == InvalidSignature <==> ValidName(name, printable) && !VerifySignature(lib, key, nonce, name, signature)) &&
      (o.result == NameTaken <==>
        checked && ((known && users[name].pub.value != key) || (!known && !KeyRegistered(users, key) && name in users))) &&
      (o.result == KeyMismatch <==> checked && !known && KeyRegistered(users, key)) &&
      (o.result == AlreadyConnected <==> admitted && KeyInUse(players, key)) &&
      (o.result == AuthSuccess <==> admitted && !KeyInUse(players, key))
  {
  }

  /** A new player is registered exactly when admitted under a name nobody has, and then the name is bound to the key. */
  lemma AuthenticateRegisters(users: map<string, UserDir>, players: map<int, Player>, lib: Ed25519, printable: char -> bool,
                              nonce: seq<byte>, name: string, key: seq<byte>, signature: seq<byte>)
    ensures var o := Authenticate(users, players, lib, printable, nonce, name, key, signature);
      (o.users != users <==>
        ValidName(name, printable) && VerifySignature(lib, key, nonce, name, signature) &&
        name !in users && !KeyRegistered(users, key)) &&
      (o.result in {AuthSuccess, AlreadyConnected} ==> name in o.users && o.users[name].pub == Some(key))
  {
  }

  /** No two names share a key file. */
  predicate KeysUnique(users: map<string, UserDir>) {
    forall a, b :: a in users && b in users && users[a].pub.Some? && users[a].pub == users[b].pub ==> a == b
  }

  /** Registration keeps every key bound to one name at most. */
  lemma AuthenticateKeepsKeysUnique(users: map<string, UserDir>, players: map<int, Player>, lib: Ed25519, printable: char -> bool,
                                    nonce: seq<byte>, name: string, key: seq<byte>, signature: seq<byte>)
    requires KeysUnique(users)
    ensures KeysUnique(Authenticate(users, players, lib, printable, nonce, name, key, signature).users)
  {
    var o := Authenticate(users, players, lib, printable, nonce, name, key, signature);
    if o.users != users {
      forall a, b | a in o.users && b in o.users && o.users[a].pub.Some? && o.users[a].pub == o.users[b].pub
        ensures a == b
      {
        if a != name && b != name {
          assert users[a].pub == users[b].pub;
        }
      }
    }
  }

  /**
   * A player that got in comes back: the same name, key and a valid
   * signature are admitted again without registering anything, once the
   * key is no longer playing.
   */
  lemma AuthenticateReturning(users: map<string, UserDir>, players: map<int, Player>, later: map<int, Player>,
                              lib: Ed25519, printable: char -> bool, nonce: seq<byte>, nonce2: seq<byte>,
                              name: string, key: seq<byte>, signature: seq<byte>, signature2: seq<byte>)
    requires Authenticate(users, players, lib, printable, nonce, name, key, signature).result in {AuthSuccess, AlreadyConnected}
    requires VerifySignature(lib, key, nonce2, name, signature2) && !KeyInUse(later, key)
    ensures var o := Authenticate(users, players, lib, printable, nonce, name, key, signature);
      Authenticate(o.users, later, lib, printable, nonce2, name, key, signature2) == AuthOutcome(AuthSuccess, o.users)
  {
  }
}
