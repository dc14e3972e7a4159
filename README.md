# rogue-talk core, modelled in Dafny

rogue-talk is a multiplayer roguelike with proximity voice chat. Players walk a tile grid, and each player hears the others at a volume that falls with distance. This project models the bookkeeping around that in Dafny and proves its properties:

- **Server.** The volume table and the recipient cache of the audio router. The per-tick reconciliation of outbound audio tracks. The move validator, doors and teleporters, and the authentication decision table. The level consistency check and the player store, both as the map it is meant to be and as the file-system paths it is written with.
- **Levels.** The ASCII level grid: parsing, the wire format, and the client's view of it with its see-through door index. The level-pack path filter and the `level.json` parsers.
- **Wire.** The length-prefixed framing and the big-endian message codecs.
- **Client audio.** The jitter buffer, the mixer's frame slots and the bounded WebRTC track queues. The tile-sound and radio-stream players with their fades and cursors. The voice-activity gate of the microphone capture.
- **Bot.** Move prediction and its reconciliation with acknowledgements on the bot client, and the bot's nearby and speaking bookkeeping.
- **Small utilities.** Tile lookup with a default, the hex key format, and the key-to-movement mapping.

Code that changes state step by step is modelled imperatively:

- each object that updates its fields becomes a `class` whose methods are proved against specification functions;
- each loop of the original is a loop with invariants.

Pure code becomes functions.

The properties the original promises are proved as `ensures` clauses and lemmas. They include:

- round trips of every codec;
- the shape of the volume table;
- that an acknowledged, confirmed move keeps the bot's prediction;
- that every recipient ends a routing tick with tracks exactly for the sources it hears;
- ordering and capacity of the audio queues;
- exactly which warnings the level check emits.

Audio samples and volumes are exact reals. Square roots, the Ed25519 library, `str.isprintable` and other foreign computations are parameters.

Where the original is surprising, the model follows the code:

- **Levels are ignored by routing.** `_route_all_audio` and `get_volume` take no account of `current_level`. Players on different levels at nearby coordinates therefore hear each other (`AudioRouting.RouteAllAudio`).
- **A failed door transition still moves the player.** The `POSITION_UPDATE` branch moves the player onto the door tile before `_handle_door_transition` runs. So an unknown target level leaves the player standing on the door, not where it came from (`ServerMoves.PositionUpdate`).
- **The bot's range is wider than the server's.** The bot counts players within Chebyshev distance 10 as nearby. The server only sends audio for squared distance below 100. A player ten tiles away along one axis is therefore "nearby" but silent (`BotClient.NearbyNotAudible`).
- **Two readings of an empty door target.** `_validate_level` treats a door whose `target_level` is `None` as same-level. The move handler also treats an empty string that way, so the two can disagree about an empty target name (`LevelValidation.ValidateLevel` and `ServerMoves.DoorTarget`).

## Model

| member | source | states |
|---|---|---|
| Tiles.LookupSpec | rogue_talk/common/tiles.py:43-48 | a character in the table gets its own entry; any other character gets the default tile, which is not walkable |
| Tiles.GetTileChar | rogue_talk/common/tiles.py:21-48 | the built-in table holds exactly the known characters, each keyed by its own glyph; an unknown character shows as `?` |
| Tiles.WalkableChars | rogue_talk/common/tiles.py:21-53 | a character is walkable exactly when it is one of the floor, door, bridge and path tiles `+.,:_=` |
| JsonValues.Field | rogue_talk/server/storage.py:85-88 | indexing a JSON document by a key succeeds exactly on an object that has the key, and gives that key's value; otherwise it raises KeyError on an object and TypeError on anything else |
| JsonValues.FieldOr | rogue_talk/client/level_pack.py:155-190 | `.get(key, default)` succeeds exactly on an object, giving the key's value or the default; on anything else it raises AttributeError |
| LevelCodec.ReadGrid | rogue_talk/server/level.py:126-140 | the decoding loop (`height` rows, the offset advancing by `width`) computes the grid `DecodeGrid` defines |
| LevelCodec.DecodeRowsStep | rogue_talk/server/level.py:134-139 | one more row either appends its ASCII decoding or fails the whole decode with UnicodeDecodeError |
| LevelCodec.DecodeRowsFails | rogue_talk/server/level.py:134-139 | once a row fails to decode, every longer decode fails too |
| LevelCodec.DecodedRows | rogue_talk/server/level.py:134-139 | each decoded row is the ASCII decoding of its slice; it is at most `width` long, and exactly `width` when the data is long enough |
| LevelCodec.DecodedGridShape | rogue_talk/server/level.py:126-140 | a decoded grid carries the big-endian header's width and height and has `height` rows of at most `width` tiles, all full when the data covers them |
| LevelCodec.EncodedRow | rogue_talk/server/level.py:118-123 | row `k` of an encoded grid is the ASCII encoding of tile row `k` |
| LevelCodec.RoundTrip | rogue_talk/server/level.py:114-140 | `from_bytes(to_bytes(level))` gives back the width, height and tiles of a level whose rows all have the stated width |
| LevelCodec.EncodedLength | rogue_talk/server/level.py:114-124 | the encoding is the 4-byte header plus one byte per tile |
| LevelCodec.EncodeFailures | rogue_talk/server/level.py:114-124 | encoding fails with `struct.error` when a dimension does not fit 16 bits, and otherwise exactly when some tile is not ASCII |
| Storage.IntOf | rogue_talk/server/storage.py:86-87 | `int()` of a JSON value: a number is itself; null, a list or an object raises TypeError; only a string can raise ValueError |
| Storage.StrOf | rogue_talk/server/storage.py:88 | `str()` of a JSON string is the string itself |
| Storage.ReadState | rogue_talk/server/storage.py:79-91 | a missing or unparseable state file gives no state; the only error that escapes is TypeError |
| Storage.SavedStateReadsBack | rogue_talk/server/storage.py:74-100 | the document `save_player_state` writes reads back as the same x, y and level |
| Storage.ReadStateObject | rogue_talk/server/storage.py:83-91 | an object document gives a state exactly when it has `x`, `y` and `level` and both coordinates convert, and the state holds the converted values |
| Storage.ReadStateNotObject | rogue_talk/server/storage.py:84-91 | a document that is not an object raises TypeError, which is not among the caught exceptions |
| Storage.DecimalDigits | rogue_talk/server/storage.py:86-87 | the decimal digits of a number are non-empty, all digits, and denote the number |
| Storage.IntOfDecimal | rogue_talk/server/storage.py:86-87 | `int()` parses back a number's decimal form, with or without a minus sign |
| Storage.IntOfStrOfNumber | rogue_talk/server/storage.py:86-88 | a number saved as its string form converts back to the number |
| Storage.PlayerStorage.constructor | rogue_talk/server/storage.py:30-33 | the store opens over the users already in the data directory |
| Storage.PlayerStorage.GetPublicKey | rogue_talk/server/storage.py:39-47 | the key file's bytes exactly when the player exists and has a key file, otherwise None |
| Storage.PlayerStorage.GetNameByKey | rogue_talk/server/storage.py:49-59 | a name whose key file holds the key, and None exactly when no player has that key |
| Storage.PlayerStorage.RegisterPlayer | rogue_talk/server/storage.py:61-72 | succeeds exactly when the name is free; then the player exists with that key and no state, and otherwise nothing changes |
| Storage.PlayerStorage.GetPlayerState | rogue_talk/server/storage.py:74-91 | an unknown player has no state; a known one gets the reading of its state file |
| Storage.PlayerStorage.SavePlayerState | rogue_talk/server/storage.py:93-100 | an unknown player changes nothing; a known one gets a state file that reads back as the saved x, y and level |
| LevelPacks.Put | rogue_talk/client/level_pack.py:93-95 | writing a file creates its missing parent directories and replaces the path itself, leaving every other entry as it was |
| LevelPacks.KeepSafeMembers | rogue_talk/client/level_pack.py:40-48 | a tar member survives the filter exactly when its name is neither absolute nor contains `..` |
| LevelPacks.KeepSafeAppend | rogue_talk/client/level_pack.py:40-48 | the filter keeps the members' archive order |
| LevelPacks.KeepSafeAllSafe | rogue_talk/client/level_pack.py:40-48 | an archive of safe members passes whole |
| LevelPacks.SafeMembers | rogue_talk/client/level_pack.py:40-48 | the `safe_members` loop builds exactly the filtered member list |
| LevelPacks.Resolve | rogue_talk/client/level_pack.py:98-136 | locating a pack fails with ValueError exactly when level.txt is missing; tiles.json and level.json are found when present, and assets only when it is a directory |
| LevelPacks.ExtractLevelPack | rogue_talk/client/level_pack.py:22-78 | extraction writes exactly the safe members, in order, and then locates the level pack in the resulting directory |
| LevelPacks.ParentsSafe | rogue_talk/client/level_pack.py:40-50 | the directories created above a safe path are safe too |
| LevelPacks.ExtractCreatesOnlySafe | rogue_talk/client/level_pack.py:40-50 | extracting safe members creates nothing at an absolute or parent-relative path |
| LevelPacks.ExtractLevelPackSafe | rogue_talk/client/level_pack.py:22-50 | `extract_level_pack` never creates an entry at an absolute or parent-relative path, whatever the archive holds |
| LevelPacks.WriteFilesToDir | rogue_talk/client/level_pack.py:81-95 | the loop writes every file of the dictionary, in order, except those at unsafe paths |
| LevelPacks.WriteAllSpec | rogue_talk/client/level_pack.py:81-95 | an unsafe path is never created or changed, and every safe path that was given ends up holding a file |
| LevelPacks.Entries | rogue_talk/client/level_pack.py:155 | `data.get(key, [])` on an object gives the listed entries, or none when the key is missing; a document that is not an object raises AttributeError |
| LevelPacks.ParseEachSpec | rogue_talk/client/level_pack.py:153-165 | a list of entries parses exactly when every entry does, giving each entry's value in order; otherwise the first failing entry's error |
| LevelPacks.ParseList | rogue_talk/client/level_pack.py:153-165 | the append loop of each parser computes the entry-by-entry parse |
| LevelPacks.ParseEachFailsFrom | rogue_talk/client/level_pack.py:153-165 | once an entry fails, the whole list fails with that entry's error |
| LevelPacks.ParseDoors | rogue_talk/client/level_pack.py:139-166 | no level.json gives no doors; a file that `json.load` rejects raises its error; otherwise each entry of `doors` is parsed as a door |
| LevelPacks.ParseStreams | rogue_talk/client/level_pack.py:169-194 | no level.json gives no streams; a file that `json.load` rejects raises its error; otherwise each entry of `streams` is parsed as a stream |
| LevelPacks.ParseInteractions | rogue_talk/client/level_pack.py:197-222 | no level.json gives no interactions; a file that `json.load` rejects raises its error; otherwise each entry of `interactions` is parsed as an interaction |
| LevelPacks.DoorDefaults | rogue_talk/client/level_pack.py:156-163 | a door entry without `target_level` or `see_through` is a same-level door that blocks sight |
| LevelPacks.StreamDefaults | rogue_talk/client/level_pack.py:186-191 | a stream entry without `radius` has radius 5 |
| LevelPacks.InteractionDefaults | rogue_talk/client/level_pack.py:214-219 | an interaction entry without `hidden` is shown |
| LevelPacks.DoorRequiredFields | rogue_talk/client/level_pack.py:156-161 | a door entry lacking any of `x`, `y`, `target_x`, `target_y` raises KeyError whatever the other fields hold, and an entry that is not an object raises TypeError |
| LevelPacks.DoorSeeThroughTruthy | rogue_talk/client/level_pack.py:162 | any JSON value under `see_through` is stored, and the door lets sight pass exactly when that value is truthy (`1` does) |
| ClientLevel.SeeThroughIndexSpec | rogue_talk/client/level.py:60-68 | the index has an entry at (x, y) exactly when some see-through door stands there, and the entry is the last such door listed |
| ClientLevel.Level.constructor | rogue_talk/client/level.py:24-32 | the dataclass fields as given, with no door index built yet |
| ClientLevel.Level.GetTile | rogue_talk/client/level.py:48-52 | outside the bounds the tile is void; inside it is the stored tile, and a row shorter than `width` raises IndexError |
| ClientLevel.Level.IsWalkable | rogue_talk/client/level.py:54-58 | false outside the bounds; inside, the tile table's verdict on the tile, or the tile lookup's error |
| ClientLevel.Level.GetSeeThroughDoorAt | rogue_talk/client/level.py:60-68 | the first call builds the see-through index and later calls reuse it; the answer is the index entry at (x, y), if any |
| ClientLevel.SeeThroughLookup | rogue_talk/client/level.py:60-68 | a door found by the lookup is see-through and stands at (x, y); none is found exactly when no listed door is a see-through door there |
| ClientLevel.FromBytes | rogue_talk/client/level.py:34-46 | the client decodes the same wire format as the server, failing exactly when that decode fails, with no doors and no index |
| ServerLevel.MaxLen | rogue_talk/server/level.py:57 | the width is at least every line's length and equals the longest line's length |
| ServerLevel.FromString | rogue_talk/server/level.py:51-83 | the nested loops of `from_string` build exactly the level that `Parse` defines |
| ServerLevel.ParseShape | rogue_talk/server/level.py:51-83 | a parsed level is rectangular, has one row per line, is as wide as the longest line, and holds each line's character, void past its end and floor for a spawn marker |
| ServerLevel.NoSpawnTiles | rogue_talk/server/level.py:71-73 | no tile of a parsed level is a spawn marker |
| ServerLevel.ParsedSpawns | rogue_talk/server/level.py:63-76 | the spawn points are exactly the positions of `S` in the text, in row-major order |
| ServerLevel.WalkableIsTileWalkable | rogue_talk/server/level.py:85-96 | walkability is the tile table's verdict on the tile `get_tile` reports, so nothing outside the grid is walkable |
| ServerLevel.GetDoorAt | rogue_talk/server/level.py:110-112 | a door exactly when one is defined at (x, y), and then that door |
| ServerLevel.GetSpawnPosition | rogue_talk/server/level.py:98-108 | with spawn points, the chosen one; otherwise the first walkable tile in row-major order, or the centre when no tile is walkable |
| ServerLevel.ToBytes | rogue_talk/server/level.py:114-124 | the serialization loop produces the shared grid encoding of the level |
| ServerLevel.FromBytes | rogue_talk/server/level.py:126-140 | the deserialization loop produces a level with the decoded grid and no spawn points, doors or streams |
| ServerLevel.BytesRoundTrip | rogue_talk/server/level.py:114-140 | a rectangular level comes back from its bytes with the same width, height and tiles |
| ServerLevel.BytesLength | rogue_talk/server/level.py:114-124 | the bytes of a rectangular level are the header and one byte per tile |
| ServerLevel.ParsedSerializes | rogue_talk/server/level.py:51-124 | a level parsed from ASCII text of at most 65535 lines and columns always serializes |
| Protocol.TypeCode | rogue_talk/common/protocol.py:9-17 | every message type's code lies in 0x01..0x08 |
| Protocol.TypeFromCode | rogue_talk/common/protocol.py:9-17 | `MessageType(b)` is defined exactly for 0x01..0x08 and is the inverse of the type code |
| Protocol.TypeCodeRoundTrip | rogue_talk/common/protocol.py:9-17 | a type's code maps back to the type |
| Protocol.PackU32Checked | rogue_talk/common/protocol.py:58 | `struct.pack(">I", n)` succeeds exactly for 32-bit unsigned values |
| Protocol.WriteMessage | rogue_talk/common/protocol.py:53-61 | the bytes written are a big-endian length of 1 + the payload, the type code and the payload; writing fails when the length does not fit 32 bits |
| Protocol.ReadWritten | rogue_talk/common/protocol.py:42-61 | reading a written message gives back its type and payload and leaves the bytes after it |
| Protocol.ReadIsWritten | rogue_talk/common/protocol.py:42-61 | every successful read consumed exactly one written message |
| Protocol.ZeroLengthRefused | rogue_talk/common/protocol.py:46-47 | a length field of 0 raises ValueError |
| Protocol.ReadAllWritten | rogue_talk/common/protocol.py:42-61 | consecutive messages read back in the order they were written |
| Protocol.DeserializeClientHello | rogue_talk/common/protocol.py:70-72 | fewer than 4 bytes raise `struct.error` |
| Protocol.ClientHelloRoundTrip | rogue_talk/common/protocol.py:65-72 | every name survives `serialize_client_hello` then `deserialize_client_hello`, whatever bytes follow |
| Protocol.SerializeServerHello | rogue_talk/common/protocol.py:76-79 | packing succeeds exactly when every field fits its width, and gives 12 bytes |
| Protocol.DeserializeServerHello | rogue_talk/common/protocol.py:82-83 | unpacking succeeds exactly on 12 bytes and gives fields that fit their widths |
| Protocol.ServerHelloRoundTrip | rogue_talk/common/protocol.py:76-83 | a server hello whose fields fit survives the trip |
| Protocol.SerializePositionUpdate | rogue_talk/common/protocol.py:87-88 | packing succeeds exactly when both coordinates fit 16 bits, and gives 4 bytes |
| Protocol.DeserializePositionUpdate | rogue_talk/common/protocol.py:91-92 | unpacking succeeds exactly on 4 bytes |
| Protocol.PositionUpdateRoundTrip | rogue_talk/common/protocol.py:87-92 | coordinates that fit 16 bits survive the trip |
| Protocol.PlayerHeader | rogue_talk/common/protocol.py:100-102 | the per-player header is 13 bytes |
| Protocol.HeaderRoundTrip | rogue_talk/common/protocol.py:100-115 | the header's fields unpack as packed, the muted flag as a boolean |
| Protocol.EncodePlayer | rogue_talk/common/protocol.py:99-103 | one encoded player is the header and its UTF-8 name |
| Protocol.PlayerParts | rogue_talk/common/protocol.py:99-103 | an encoded player is its header followed by name bytes that decode to its name |
| Protocol.DecodeEncodedPlayer | rogue_talk/common/protocol.py:113-119 | decoding at an offset that holds an encoded player gives that player and the offset past it |
| Protocol.DecodeEncodedPlayers | rogue_talk/common/protocol.py:112-119 | decoding `n` players where `n` encoded players lie gives them all |
| Protocol.WorldStateRoundTrip | rogue_talk/common/protocol.py:96-120 | every list of players whose fields fit survives `serialize_world_state` then `deserialize_world_state` |
| Protocol.SerializeWorldState | rogue_talk/common/protocol.py:96-104 | the append loop produces the encoding `EncodeWorldState` defines |
| Protocol.EncodePlayersAppend | rogue_talk/common/protocol.py:98-103 | the encoding of one more player is appended to what is already there, and a player that does not fit fails the list |
| Protocol.EncodePlayersFails | rogue_talk/common/protocol.py:96-104 | a list fails with `struct.error` as soon as any one player does not fit |
| Protocol.DeserializeWorldState | rogue_talk/common/protocol.py:107-120 | the offset-advancing loop computes the decoding `DecodeWorldState` defines |
| Protocol.SerializeAudioFrame | rogue_talk/common/protocol.py:124-130 | packing succeeds exactly when the fields fit, and gives the 12-byte header plus the opus data |
| Protocol.DeserializeAudioFrame | rogue_talk/common/protocol.py:133-137 | unpacking succeeds exactly on at least 12 bytes |
| Protocol.AudioFrameRoundTrip | rogue_talk/common/protocol.py:124-137 | an audio frame whose fields fit survives the trip, its volume as the 16-bit wire value |
| Protocol.SerializePlayerJoined | rogue_talk/common/protocol.py:141-143 | packing succeeds exactly when the id and the name's byte length fit 32 bits |
| Protocol.DeserializePlayerJoined | rogue_talk/common/protocol.py:146-149 | fewer than 8 bytes raise `struct.error` |
| Protocol.PlayerJoinedRoundTrip | rogue_talk/common/protocol.py:141-149 | an id and a name survive the trip |
| Protocol.SerializePlayerLeft | rogue_talk/common/protocol.py:153-154 | the id packed as a checked 32-bit field |
| Protocol.DeserializePlayerLeft | rogue_talk/common/protocol.py:157-159 | unpacking succeeds exactly on 4 bytes |
| Protocol.PlayerLeftRoundTrip | rogue_talk/common/protocol.py:153-159 | an id that fits 32 bits survives the trip |
| Protocol.SerializeMuteStatus | rogue_talk/common/protocol.py:163-164 | the mute status is one byte |
| Protocol.DeserializeMuteStatus | rogue_talk/common/protocol.py:167-168 | unpacking succeeds exactly on one byte, and any nonzero byte is true |
| Protocol.MuteStatusRoundTrip | rogue_talk/common/protocol.py:163-168 | the mute status survives the trip |
| Utf8.EncodeChar | rogue_talk/common/protocol.py:66 | one character encodes to one to four bytes |
| Utf8.DecodeFirst | rogue_talk/common/protocol.py:72 | a well-formed leading sequence takes one to four bytes of the input |
| Utf8.DecodeFirstOfEncoded | rogue_talk/common/protocol.py:66-72 | the first character decoded from an encoded character is that character, using all its bytes |
| Utf8.RoundTrip | rogue_talk/common/protocol.py:66-72 | decoding the UTF-8 encoding of a string gives the string back |
| Utf8.EncodeOfDecodedFirst | rogue_talk/common/protocol.py:66-72 | the bytes a decoded character occupied are that character's encoding |
| Utf8.DecodeInjective | rogue_talk/common/protocol.py:66-72 | every byte string that decodes is the encoding of what it decodes to, so strict decoding accepts nothing else |
| Utf8.EncodeAscii | rogue_talk/common/protocol.py:66 | ASCII text encodes to one byte per character, the code point itself |
| ServerPlayer.NewPlayer | rogue_talk/server/player.py:17-38 | a new player has the given id, position, level and key, no outbound tracks, and is neither muted nor connected nor awaiting renegotiation |
| WebrtcTracks.Silence | rogue_talk/audio/webrtc_tracks.py:343 | `np.zeros(n)` is `n` zero samples |
| WebrtcTracks.Scale | rogue_talk/audio/webrtc_tracks.py:190 | scaling a frame by the volume multiplies each sample and keeps the length |
| WebrtcTracks.OfferSpec | rogue_talk/audio/webrtc_tracks.py:324-327 | `put_nowait` on a bounded queue appends exactly when there is room and never takes the queue past its bound |
| WebrtcTracks.OfferAllKeepsEarliest | rogue_talk/audio/webrtc_tracks.py:324-327 | frames offered in turn to a bounded queue: the earliest that fit are kept, the rest are lost |
| WebrtcTracks.NewOutboundTrack | rogue_talk/audio/webrtc_tracks.py:300-308 | a new outbound track is inactive, empty and for the given source |
| WebrtcTracks.Activated | rogue_talk/audio/webrtc_tracks.py:310-312 | activation sets the active flag and nothing else |
| WebrtcTracks.Sent | rogue_talk/audio/webrtc_tracks.py:314-327 | an inactive track ignores the frame; an active one counts it, and every counted frame is either queued or dropped |
| WebrtcTracks.OutboundRecv | rogue_talk/audio/webrtc_tracks.py:334-358 | `recv` gives the oldest queued frame, or a frame of silence when the queue is empty, and advances the timestamp by the frame's length |
| WebrtcTracks.SendAll | rogue_talk/audio/webrtc_tracks.py:314-327 | sending frames in turn keeps the track's counters consistent |
| WebrtcTracks.SendAllInactive | rogue_talk/audio/webrtc_tracks.py:321-322 | an inactive track ignores any number of frames |
| WebrtcTracks.SendAllActive | rogue_talk/audio/webrtc_tracks.py:314-327 | an active track counts every frame sent, queues the earliest that fit its ten places and drops the rest |
| WebrtcTracks.ServerOutboundTrack.constructor | rogue_talk/audio/webrtc_tracks.py:300-308 | the object's state is a new inactive, empty track |
| WebrtcTracks.ServerOutboundTrack.Activate | rogue_talk/audio/webrtc_tracks.py:310-312 | the object's state becomes the activated state |
| WebrtcTracks.ServerOutboundTrack.SendAudio | rogue_talk/audio/webrtc_tracks.py:314-332 | the object's state becomes the state `Sent` defines |
| WebrtcTracks.ServerOutboundTrack.Recv | rogue_talk/audio/webrtc_tracks.py:334-358 | the frame and the object's new state are those `OutboundRecv` defines |
| WebrtcTracks.NewRelay | rogue_talk/audio/webrtc_tracks.py:216-225 | a new relay is empty and for the given player |
| WebrtcTracks.RelayReceive | rogue_talk/audio/webrtc_tracks.py:272-278 | a frame arriving in the receive loop is counted and then queued or dropped |
| WebrtcTracks.RelayGetFrame | rogue_talk/audio/webrtc_tracks.py:287-292 | the oldest queued frame, removed, or None exactly when the queue is empty |
| WebrtcTracks.Drained | rogue_talk/server/game_server.py:534-535 | calling `get_audio_frame` until it gives None empties the queue and changes nothing else |
| WebrtcTracks.RelayReceiveAllSpec | rogue_talk/audio/webrtc_tracks.py:248-285 | frames arriving at the relay are all counted; each is queued when there is room and counted as dropped otherwise |
| WebrtcTracks.RelayGetFramesSpec | rogue_talk/audio/webrtc_tracks.py:287-292 | `k` calls of `get_audio_frame` on a relay holding at least `k` frames return its first `k` frames in order and leave the rest queued |
| WebrtcTracks.RelayFifo | rogue_talk/audio/webrtc_tracks.py:272-292 | after any frames arrive at any relay, the queue is the old queue followed by the earliest arrivals that fit, the rest are counted as dropped, and successive `get_audio_frame` calls return exactly those frames in order and then None |
| WebrtcTracks.ServerAudioRelay.constructor | rogue_talk/audio/webrtc_tracks.py:216-225 | the object's state is a new empty relay |
| WebrtcTracks.ServerAudioRelay.Receive | rogue_talk/audio/webrtc_tracks.py:272-283 | the object's state becomes the state `RelayReceive` defines |
| WebrtcTracks.ServerAudioRelay.GetAudioFrame | rogue_talk/audio/webrtc_tracks.py:287-292 | the frame and the object's new state are those `RelayGetFrame` defines |
| WebrtcTracks.ServerAudioRelay.Drain | rogue_talk/server/game_server.py:534-535 | the loop leaves the relay in the drained state |
| WebrtcTracks.PeakLevel | rogue_talk/audio/webrtc_tracks.py:53 | the level bounds every sample's magnitude and is reached by some sample |
| WebrtcTracks.Fed | rogue_talk/audio/webrtc_tracks.py:50-59 | feeding records the frame's peak level, then queues the frame when there is room or counts a drop |
| WebrtcTracks.CaptureRecv | rogue_talk/audio/webrtc_tracks.py:61-92 | `recv` gives the oldest queued frame, or a frame of silence, and advances the timestamp by the frame's length |
| WebrtcTracks.IdleTimestamp | rogue_talk/audio/webrtc_tracks.py:61-92 | an idle capture track received from `n` times returns `n` frames of silence, advances its timestamp by `n` frames and stays empty |
| WebrtcTracks.AudioCaptureTrack.constructor | rogue_talk/audio/webrtc_tracks.py:38-48 | a new capture track is empty, with level 0 and no drops |
| WebrtcTracks.AudioCaptureTrack.FeedAudio | rogue_talk/audio/webrtc_tracks.py:50-59 | the object's state becomes the state `Fed` defines |
| WebrtcTracks.AudioCaptureTrack.Recv | rogue_talk/audio/webrtc_tracks.py:61-92 | the frame and the object's new state are those `CaptureRecv` defines |
| WebrtcTracks.PlaybackReceive | rogue_talk/audio/webrtc_tracks.py:186-192 | a received frame is counted, then queued scaled by the current volume, or dropped when the queue is full |
| WebrtcTracks.PlaybackGetFrame | rogue_talk/audio/webrtc_tracks.py:205-210 | the oldest queued frame, removed, or None exactly when the queue is empty |
| WebrtcTracks.AudioPlaybackTrack.constructor | rogue_talk/audio/webrtc_tracks.py:101-111 | a new playback track is empty, at volume 1.0, with no frames counted |
| WebrtcTracks.AudioPlaybackTrack.SetVolume | rogue_talk/audio/webrtc_tracks.py:117-119 | only the volume changes |
| WebrtcTracks.AudioPlaybackTrack.Receive | rogue_talk/audio/webrtc_tracks.py:186-198 | the object's state becomes the state `PlaybackReceive` defines |
| WebrtcTracks.AudioPlaybackTrack.GetFrame | rogue_talk/audio/webrtc_tracks.py:205-210 | the frame and the object's new state are those `PlaybackGetFrame` defines |
| AudioRouter.BuildTable | rogue_talk/server/audio_router.py:9-21 | the volume table has one entry for each squared distance 0..100 |
| AudioRouter.RootMonotone | rogue_talk/server/audio_router.py:14-21 | non-negative square roots grow with their squares, which is why the table falls with distance |
| AudioRouter.RootBounds | rogue_talk/server/audio_router.py:14-21 | the root of a squared distance past 4 exceeds 2, below 100 is under 10, and at 100 is 10 |
| AudioRouter.TableShape | rogue_talk/server/audio_router.py:9-21 | full volume up to squared distance 4, never increasing with distance, strictly between 0 and 1 below 100, and 0 at 100 |
| AudioRouter.VolumeSymmetric | rogue_talk/server/audio_router.py:24-29 | the volume depends on the offset only through its squared length: mirroring or swapping the axes changes nothing |
| AudioRouter.VolumeByDistance | rogue_talk/server/audio_router.py:9-29 | full volume within squared distance 4, silence from 100 on, a positive volume exactly below 100, and always within 0..1 |
| AudioRouter.VolumeMonotone | rogue_talk/server/audio_router.py:9-29 | a farther listener never hears louder |
| AudioRouter.RebuiltIsHit | rogue_talk/server/audio_router.py:48-92 | a list just rebuilt is reused by the next call when nobody has moved |
| AudioRouter.HitIsClose | rogue_talk/server/audio_router.py:48-92 | whether rebuilt or reused, every listed recipient is present and hears the source within 0.01 of its listed volume, and everyone who hears the source is listed |
| AudioRouter.RecipientCache.constructor | rogue_talk/server/audio_router.py:32-33 | the cache starts empty |
| AudioRouter.RecipientCache.StillValid | rogue_talk/server/audio_router.py:50-76 | the two checking loops decide exactly the reuse condition `CacheHit` |
| AudioRouter.RecipientCache.GetAudioRecipients | rogue_talk/server/audio_router.py:36-92 | a muted source has no recipients; a still-valid entry is returned unchanged; otherwise the list is rebuilt from everyone else who hears the source, cached under the source's position, and never includes the source or anyone twice |
| AudioRouter.RecipientCache.Clear | rogue_talk/server/audio_router.py:95-100 | no id clears every entry; an id removes only that source's entry |
| AudioRouting.AddSource | rogue_talk/server/game_server.py:500-510 | one connected source's pass adds it to the in-range set of exactly the recipients that hear it |
| AudioRouting.SourcesInRange | rogue_talk/server/game_server.py:496-510 | the first phase gives every player the set of connected sources it hears, whether or not they are muted |
| AudioRouting.WithTracks | rogue_talk/server/game_server.py:517-523 | a fresh track is added from each source the player has none from, the existing tracks are kept, and the renegotiation flag is raised exactly when a track was added |
| AudioRouting.WithTracksUnion | rogue_talk/server/game_server.py:517-523 | adding tracks in two batches is adding them at once |
| AudioRouting.Link | rogue_talk/server/game_server.py:518-523 | the track from one source, created and flagged when missing |
| AudioRouting.AddTracks | rogue_talk/server/game_server.py:517-523 | the inner loop of the second phase adds exactly the tracks `WithTracks` defines |
| AudioRouting.CreateTracks | rogue_talk/server/game_server.py:514-523 | the second phase gives every connected recipient a track from each source in range and leaves the others alone |
| AudioRouting.DeliverFrame | rogue_talk/server/game_server.py:552-569 | delivering a scaled frame keeps every track keyed by its source |
| AudioRouting.Delivered | rogue_talk/server/game_server.py:547-569 | delivering a run of frames keeps every track keyed by its source |
| AudioRouting.DeliveredShape | rogue_talk/server/game_server.py:547-569 | delivering frames from a source changes only the track from that source, created and flagged when it was missing |
| AudioRouting.DeliveredTrack | rogue_talk/server/game_server.py:547-569 | the track from the source has been sent every queued frame, scaled by the recipient's volume, in order |
| AudioRouting.SendOne | rogue_talk/server/game_server.py:556-569 | sending one frame to one recipient is the delivery `DeliverFrame` defines |
| AudioRouting.SendFrame | rogue_talk/server/game_server.py:552-569 | one frame goes to each connected recipient on the list, scaled by that recipient's volume; nobody else changes |
| AudioRouting.DrainRelay | rogue_talk/server/game_server.py:534-535 | the drain loop leaves the relay in the drained state |
| AudioRouting.Forward | rogue_talk/server/game_server.py:546-569 | every queued frame is taken from the source's relay, oldest first, and delivered to each connected recipient at its listed volume; players not on the list are untouched |
| AudioRouting.RouteSource | rogue_talk/server/game_server.py:529-569 | a muted source, or one without recipients, has only its relay drained; any other connected source with a relay forwards its queued frames |
| AudioRouting.RoutedFor | rogue_talk/server/game_server.py:529-569 | routing a source either delivers its frames to a player at a volume within 0.01 of what the player hears, or leaves the player as it was, and then the player does not hear that unmuted source |
| AudioRouting.RouteSources | rogue_talk/server/game_server.py:529-569 | the third phase routes every source once, in no particular order |
| AudioRouting.Pruned | rogue_talk/server/game_server.py:575-581 | the tracks from sources outside the range are removed, the others kept, and the flag raised exactly when one was removed |
| AudioRouting.PruneTracks | rogue_talk/server/game_server.py:575-581 | listing the stale tracks and deleting them one by one gives `Pruned` |
| AudioRouting.RemoveStale | rogue_talk/server/game_server.py:571-584 | the last phase prunes every connected recipient to the sources in range and leaves the others alone |
| AudioRouting.CreatedValid | rogue_talk/server/game_server.py:512-526 | the second phase changes nothing the third phase looks at: positions, who hears whom, who speaks, the relays |
| AudioRouting.RoutedKeys | rogue_talk/server/game_server.py:512-584 | after all phases a connected player carries tracks from exactly the sources in range, flagged when they changed |
| AudioRouting.RoutedAtAll | rogue_talk/server/game_server.py:491-584 | one player through the four phases ends in the state `RoutedAt` describes |
| AudioRouting.RouteAllAudio | rogue_talk/server/game_server.py:491-584 | one routing tick leaves every player as `AllRouted` describes: the tracks of the sources in range, every speaking source's frames delivered, and all other fields as they were |
| AudioRouting.HearsMutual | rogue_talk/server/game_server.py:505-510 | hearing is mutual, because the volume depends only on the distance |
| AudioRouting.TracksBothWays | rogue_talk/server/game_server.py:491-584 | after routing, two connected players carry tracks from each other or neither does |
| AudioRouting.NoneInRangeNoTracks | rogue_talk/server/game_server.py:571-584 | a connected player whom no connected player is within hearing of ends with no tracks |
| AudioRouting.VisitOther | rogue_talk/server/game_server.py:466-489 | one iteration of `_setup_initial_tracks` gives the pair a track each way when they are linked, and changes nothing otherwise |
| AudioRouting.LinkedPartner | rogue_talk/server/game_server.py:466-475 | the player and another are linked exactly when the other is a connected partner within hearing |
| AudioRouting.SetupInitialTracks | rogue_talk/server/game_server.py:460-489 | the player gets a track from every partner and each partner one from the player, each side flagged when it gained one; nobody else changes |
| AudioRouting.SetupBothWays | rogue_talk/server/game_server.py:460-489 | after the setup the player and each partner carry tracks from each other, the player gets no track from itself, and every partner is audible |
| ServerMoves.LevelFor | rogue_talk/server/game_server.py:1180 | the player's level by name, the main level when the name is unknown; either way a rectangular level |
| ServerMoves.TilesFor | rogue_talk/server/game_server.py:1181 | the level's own tile table, or the built-in one when it has none |
| ServerMoves.DoorTarget | rogue_talk/server/game_server.py:1117 | a door's non-empty target level, otherwise the current level |
| ServerMoves.DoorTransition | rogue_talk/server/game_server.py:1109-1168 | a door to a level the server lacks sends an ACK of where the player stands and no broadcast; a teleporter moves the player within its level and ACKs the target; a door to another level sends the transition, moves the player there and then ACKs the arrival point |
| ServerMoves.PositionUpdate | rogue_talk/server/game_server.py:1173-1208 | a move that is not to an adjacent, in-bounds, walkable tile is rejected with an ACK of the old position and a broadcast; an accepted move onto a door tile with a door entry is a door transition; any other accepted move is ACKed at the new tile |
| ServerMoves.PositionUpdateShape | rogue_talk/server/game_server.py:1173-1208 | only the player's position and level can change, and the last message sent is always the ACK of where the player ends up |
| ServerMoves.PositionUpdateReach | rogue_talk/server/game_server.py:1173-1208 | an update leaves the player where it was, on the adjacent walkable tile it asked for, or at the target of that tile's door; it only ever moves the player to a level the server has |
| ServerMoves.PositionUpdateBroadcast | rogue_talk/server/game_server.py:1121-1208 | the world state is broadcast after every update except a door into a level the server does not have |
| ServerMoves.PositionUpdateRepeat | rogue_talk/server/game_server.py:1173-1208 | asking again for the tile a plain move reached leaves the player there and sends the same ACK |
| ServerMoves.TeleporterKeepsLevel | rogue_talk/server/game_server.py:1131-1142 | a teleporter, or a door whose target is the current level, keeps the level, moves the player to the target and ACKs it |
| ServerMoves.Authenticate | rogue_talk/server/game_server.py:603-662 | authentication registers nothing, or registers exactly the new name with the key and then admits the player |
| ServerMoves.AuthenticateResults | rogue_talk/server/game_server.py:603-662 | each answer (invalid name, invalid signature, name taken, key mismatch, already connected, success) is given to exactly the attempts that the conditions, taken in order, send to it |
| ServerMoves.AuthenticateRegisters | rogue_talk/server/game_server.py:620-652 | a new player is registered exactly when a valid name and signature arrive for a name nobody has and a key nobody has, and then the name is bound to the key |
| ServerMoves.AuthenticateKeepsKeysUnique | rogue_talk/server/game_server.py:620-652 | registration keeps every key bound to at most one name |
| ServerMoves.AuthenticateReturning | rogue_talk/server/game_server.py:603-662 | a player that got in once is admitted again with the same name and key and a valid signature, registering nothing, once the key is no longer playing |
| UserPaths.PlainUserPath | rogue_talk/server/storage.py:35-37 | a name that is one path component has the directory `users/<name>` |
| UserPaths.PlainGetPublicKey | rogue_talk/server/storage.py:39-47 | for a plain name, `get_public_key` reads `users/<name>/pub`: its bytes when it is a file, an error when it is a directory, None when it is missing |
| UserPaths.PlainRegister | rogue_talk/server/storage.py:61-72 | for a plain name, registration answers false when `users/<name>` exists, and otherwise adds exactly that directory and its key file |
| UserPaths.EntriesOf | rogue_talk/server/storage.py:55 | the entries `iterdir` lists are exactly the directories and files directly in the users directory |
| UserPaths.NameByKeyFound | rogue_talk/server/storage.py:49-59 | a name `get_name_by_key` returns is a listed directory whose key file holds the key |
| UserPaths.NameByKeyNone | rogue_talk/server/storage.py:49-59 | when no listed entry has a `pub` directory, the lookup answers None exactly when no listed directory's key file holds the key |
| UserPaths.NameByKeyPubDir | rogue_talk/server/storage.py:55-58 | an entry whose `pub` is a directory makes the lookup raise when the loop reaches it |
| UserPaths.AuthenticateNewName | rogue_talk/server/game_server.py:620-652 | a valid, signed attempt by a name without a key file, with a key nobody holds, gets what `register_player` answers |
| UserPaths.NestedPath | rogue_talk/server/storage.py:35-37 | the name `n1/n2` has the directory `users/n1/n2` |
| UserPaths.RegisterNested | rogue_talk/server/storage.py:61-72 | registering `n1/n2` in an empty users directory makes both `users/n1` and `users/n1/n2` and writes the key to `users/n1/n2/pub` |
| UserPaths.NestedMkdir | rogue_talk/server/storage.py:69 | `mkdir(parents=True, exist_ok=True)` of `users/n1/n2` in an empty users directory makes `users/n1` first and then `users/n1/n2`, and nothing else |
| UserPaths.NestedFirst | rogue_talk/server/game_server.py:603-652 | a valid, signed first attempt by `n1/n2` on an empty store is admitted, leaves exactly the two new directories and the key file, and the users directory then lists only `n1` |
| UserPaths.DotPath | rogue_talk/server/storage.py:35-37 | the name `.` has the users directory itself as its directory |
| UserPaths.DotDotPath | rogue_talk/server/storage.py:35-37 | the name `..` has the data directory as its directory |
| UserPaths.SlashNameSharesKey | rogue_talk/server/storage.py:35-59 | after `a/b` registers with a key, `c` registers with the same key and both key files hold it; the intended store answers `c` with a key mismatch |
| UserPaths.SlashNameTakesParent | rogue_talk/server/storage.py:61-72 | after `a/b` registers, `a` is refused as a taken name; the intended store admits `a` |
| UserPaths.PubDirectoryBlocksNewPlayers | rogue_talk/server/storage.py:49-59 | after `x/pub` registers, a new player's attempt ends in an exception; the intended store admits the new player |
| UserPaths.DotNamesTaken | rogue_talk/server/storage.py:61-72 | `.` and `..` are refused as taken names in an empty store; the intended store registers either |
| UserPaths.IntendedSecond | rogue_talk/server/game_server.py:620-652 | in the intended store, a second name with the first name's key gets a key mismatch, and one with another key is admitted |
| LevelValidation.WhereSpec | rogue_talk/server/game_server.py:266-270 | a position is selected exactly when it lies in the scanned rows and the condition accepts its cell |
| LevelValidation.Examples | rogue_talk/server/game_server.py:226-227 | at most three examples are kept, the first ones in order |
| LevelValidation.ExamplesAppend | rogue_talk/server/game_server.py:226-227 | a position is kept exactly while fewer than three are kept |
| LevelValidation.UndefinedTiles | rogue_talk/server/game_server.py:218-227 | the first loop reports exactly the characters of the grid the tile table lacks, each with its first three positions in row-major order |
| LevelValidation.OccursSpec | rogue_talk/server/game_server.py:220-223 | a character has occurrences exactly when it appears in the grid, and each occurrence is a position holding it |
| LevelValidation.DoorWarningsSpec | rogue_talk/server/game_server.py:236-263 | a door entry is warned about exactly when its tile is not a door tile, and a same-level teleporter exactly when its target is outside the grid or not walkable; a door to another level is never checked for its target |
| LevelValidation.CheckDoors | rogue_talk/server/game_server.py:235-263 | the second loop collects every door entry's warnings |
| LevelValidation.OrphanDoorTiles | rogue_talk/server/game_server.py:265-274 | the third loop reports the door tiles without a door entry, in row-major order |
| LevelValidation.OrphanSpec | rogue_talk/server/game_server.py:266-270 | a cell is an orphan exactly when it is inside the grid, its tile is a door tile and no door entry is there |
| LevelValidation.ValidateLevel | rogue_talk/server/game_server.py:207-274 | the report holds the undefined tiles with their examples, every door entry's warnings and every orphaned door tile |
| GameServer.Server.constructor | rogue_talk/server/game_server.py:74-100 | a server over the loaded levels with no players, the main level the one named "main", and ids starting at 1 |
| GameServer.Server.HandleDoorTransition | rogue_talk/server/game_server.py:1109-1168 | the player's new state, the messages and the broadcast are those `DoorTransition` decides; no other player changes |
| GameServer.Server.HandlePositionUpdate | rogue_talk/server/game_server.py:1173-1208 | the player's new state, the messages and the broadcast are those `PositionUpdate` decides; no other player changes |
| GameServer.Server.KeyConnected | rogue_talk/server/game_server.py:654-656 | the loop answers true exactly when some connected player has the key |
| GameServer.Server.HandleAuth | rogue_talk/server/game_server.py:603-662 | the answer and the player store afterwards are those `Authenticate` decides |
| GameServer.Server.Join | rogue_talk/server/game_server.py:671-694 | the player gets the next id and starts at its saved position and level, or at the spawn point on "main" when nothing was saved; a state file whose values have the wrong kind raises and adds no one |
| GameServer.Server.Leave | rogue_talk/server/game_server.py:908-926 | the player's position and level are saved, it is removed, the recipient cache is cleared, and the saved state reads back as where it was |
| GameServer.Server.SetupTracks | rogue_talk/server/game_server.py:460-489 | the players afterwards are those `SetupInitialTracks` gives |
| GameServer.Server.RouteAudio | rogue_talk/server/game_server.py:491-584 | the players afterwards are routed as `AllRouted` describes |
| GameServer.LeaveThenJoin | rogue_talk/server/game_server.py:671-680 | a player that leaves and joins again comes back where it left |
| Crypto.DigitValue | rogue_talk/common/crypto.py:70-82 | a hexadecimal digit of either case has its value below 16; any other character has none |
| Crypto.HexDigit | rogue_talk/common/crypto.py:65-77 | each nibble is written as the lowercase digit of that value |
| Crypto.DigitRoundTrip | rogue_talk/common/crypto.py:65-82 | a lowercase digit is written back as itself |
| Crypto.HexShape | rogue_talk/common/crypto.py:65-77 | a serialized key has two lowercase hex digits per byte |
| Crypto.HexRoundTrip | rogue_talk/common/crypto.py:65-82 | deserializing a serialized key, private or public, gives it back |
| Crypto.CanonicalRoundTrip | rogue_talk/common/crypto.py:65-82 | text made of lowercase hex pairs is exactly the serialization of what it reads as |
| Crypto.FromHexOddFails | rogue_talk/common/crypto.py:70-82 | an odd number of hex digits never reads back |
| Crypto.VerifySignature | rogue_talk/common/crypto.py:42-62 | true exactly when the key loads and the signature checks against the nonce followed by the UTF-8 name; every failure answers false |
| Crypto.ChallengeMessageInjective | rogue_talk/common/crypto.py:37-58 | for nonces of one length the signed message determines the nonce and the name, so a signature for one name cannot pass for another |
| Bytes.U16RoundTrip | rogue_talk/common/protocol.py:87-92 | a 16-bit value survives big-endian packing and unpacking |
| Bytes.U16Injective | rogue_talk/common/protocol.py:87-92 | two bytes unpack to a value that packs back to them |
| Bytes.U32RoundTrip | rogue_talk/common/protocol.py:153-159 | a 32-bit value survives big-endian packing and unpacking |
| Bytes.U32Injective | rogue_talk/common/protocol.py:153-159 | four bytes unpack to a value that packs back to them |
| Bytes.Slice | rogue_talk/common/protocol.py:70-72 | a slice clamps bounds past the end, so a short input yields a short slice instead of an error |
| Ascii.EncodeSpec | rogue_talk/server/level.py:121 | `encode("ascii")` succeeds exactly on ASCII text, one byte per character, each the code point |
| Ascii.DecodeSpec | rogue_talk/server/level.py:137 | `decode("ascii")` succeeds exactly on bytes below 0x80, one character per byte |
| Ascii.RoundTrip | rogue_talk/server/level.py:114-140 | ASCII text survives encoding and decoding |
| Ascii.RoundTripBytes | rogue_talk/server/level.py:114-140 | bytes below 0x80 survive decoding and encoding |
| Ascii.EncodeAppend | rogue_talk/server/level.py:119-123 | encoding rows one after another is encoding their concatenation |
| Text.RStrip | rogue_talk/server/level.py:53 | `rstrip` removes exactly the trailing run of the character |
| Text.Split | rogue_talk/server/level.py:53 | `split` gives at least one piece, none containing the separator |
| Text.JoinSplit | rogue_talk/server/level.py:53 | joining the pieces with the separator rebuilds the text |
| Text.ContainsAt | rogue_talk/client/level_pack.py:46 | an occurrence of the substring at any position makes `in` true |
| Text.ContainsOnlyAt | rogue_talk/client/level_pack.py:46 | `in` is true only when the substring occurs at some position |
| Fades.FadeSpec | rogue_talk/client/stream_player.py:343-353 | each frame the volume moves toward the target by at most one step, never overshoots it, and lands on it when within a step |
| JitterBuffers.FirstLater | rogue_talk/client/jitter_buffer.py:46-49 | the insertion point: every packet before it is not later than the new one, and the packet at it is later |
| JitterBuffers.InsertSpec | rogue_talk/client/jitter_buffer.py:42-49 | inserting keeps the packets in timestamp order and adds exactly the new packet |
| JitterBuffers.KeepNewestSpec | rogue_talk/client/jitter_buffer.py:52-53 | dropping the oldest keeps the order and leaves the newest `max_packets` |
| JitterBuffers.AddedSorted | rogue_talk/client/jitter_buffer.py:31-53 | what `add_packet` leaves behind is sorted whenever the buffer was |
| JitterBuffers.AddedPacketKept | rogue_talk/client/jitter_buffer.py:31-53 | into a buffer with room, the packet is added and nothing is lost |
| JitterBuffers.InsertInOrder | rogue_talk/client/jitter_buffer.py:42-49 | the insertion step computes `Insert`: appended when not older than the newest, otherwise placed before the first later packet |
| JitterBuffers.DropOldest | rogue_talk/client/jitter_buffer.py:51-53 | the trimming loop leaves exactly the newest `max_packets` packets |
| JitterBuffers.JitterBuffer.constructor | rogue_talk/client/jitter_buffer.py:21-29 | an empty buffer that has not started, with the given thresholds |
| JitterBuffers.JitterBuffer.AddPacket | rogue_talk/client/jitter_buffer.py:31-53 | a gap of more than 500 ms during playback first resets the buffer; the packet is then inserted in order, the oldest are dropped down to `max_packets`, and the last timestamp is the packet's |
| JitterBuffers.JitterBuffer.GetNextPacket | rogue_talk/client/jitter_buffer.py:55-66 | nothing from an empty buffer, nothing before playback until `min_packets` wait, otherwise the oldest packet, removed, with playback started |
| JitterBuffers.JitterBuffer.Reset | rogue_talk/client/jitter_buffer.py:72-75 | the buffer empties and waits for `min_packets` again |
| Mixer.Fit | rogue_talk/audio/mixer.py:19-23 | a frame is zero-padded or truncated to exactly `FRAME_SIZE` samples, keeping the samples it has |
| Mixer.AddSlot | rogue_talk/audio/mixer.py:35 | adding a slot adds its volume-scaled sample at each position |
| Mixer.ClipAll | rogue_talk/audio/mixer.py:38 | the soft clip is applied to each sample, keeping the length |
| Mixer.TotalRemove | rogue_talk/audio/mixer.py:34-35 | the order of summation over the players does not matter: any slot can be taken out first |
| Mixer.TotalSingle | rogue_talk/audio/mixer.py:34-35 | with one slot the mix is that slot scaled by its volume |
| Mixer.AudioMixer.constructor | rogue_talk/audio/mixer.py:12-13 | a mixer with no slots |
| Mixer.AudioMixer.AddFrame | rogue_talk/audio/mixer.py:15-25 | the player's slot now holds the fitted frame and its volume; the other slots are unchanged |
| Mixer.AudioMixer.Mix | rogue_talk/audio/mixer.py:27-41 | silence without slots, otherwise every sample is the clipped sum of the players' scaled samples; the slots are emptied |
| Mixer.AudioMixer.RemovePlayer | rogue_talk/audio/mixer.py:43-45 | only that player's slot goes, and a missing one is no error |
| InputHandler.GetMovement | rogue_talk/client/input_handler.py:21-34 | whatever the key, a movement is a single step along one axis |
| InputHandler.LowerSingle | rogue_talk/client/input_handler.py:34 | a key's text lowers to one character other than `i` exactly when it is one character that lowers to it |
| InputHandler.LowerCharTo | rogue_talk/client/input_handler.py:34 | the characters lowering to an ASCII letter other than `i` and `k` are that letter and its capital |
| InputHandler.MuteQuitKeys | rogue_talk/client/input_handler.py:37-49 | the mute, quit and show-names keys are `m`, `q` and `n` in either case and nothing else |
| InputHandler.MovementCaseInsensitive | rogue_talk/client/input_handler.py:21-34 | letter keys move the same way in either case |
| InputHandler.ArrowKeys | rogue_talk/client/input_handler.py:24-31 | the arrow keys move one tile up, down, left and right, whatever text they carry |
| InputHandler.MovementKeysOnly | rogue_talk/client/input_handler.py:6-34 | without an arrow-key name a key moves exactly when its text is one of WASD or HJKL in either case, or the KELVIN SIGN, which lowers to `k` |
| AudioCapture.Peak | rogue_talk/client/audio_capture.py:83 | the level of a frame is its largest sample magnitude |
| AudioCapture.Silence | rogue_talk/client/audio_capture.py:87 | `np.zeros(n)` is `n` zero samples |
| AudioCapture.VadStepSpec | rogue_talk/client/audio_capture.py:89-97 | a loud frame is sent and the holdover reset to 25; a quiet one within the holdover is sent and the holdover decremented; a quiet one after it is skipped; the holdover never leaves 0..25 |
| AudioCapture.DisabledGateSendsAll | rogue_talk/client/audio_capture.py:21-22 | with the shipped threshold of 0 every frame read is sent |
| AudioCapture.MutedSendsSilence | rogue_talk/client/audio_capture.py:85-87 | while muted every frame sent is silence of the frame size |
| AudioCapture.HoldoverBounded | rogue_talk/client/audio_capture.py:89-97 | the holdover stays within 0..25 over any run that starts there |
| AudioCapture.AudioCapture.constructor | rogue_talk/client/audio_capture.py:25-39 | a capture that is not muted, with level 0 and no holdover |
| AudioCapture.AudioCapture.SetMuted | rogue_talk/client/audio_capture.py:64-66 | only the mute flag changes |
| AudioCapture.AudioCapture.CaptureFrame | rogue_talk/client/audio_capture.py:70-103 | one pass of the loop gives the frame handed on, if any, and the new state that `Step` defines, or the error it raises with the state unchanged |
| AudioCapture.AudioCapture.CaptureLoop | rogue_talk/client/audio_capture.py:68-103 | the loop over the input sends the frames and ends in the state and error `RunAll` defines |
| TileSoundPlayers.Advance | rogue_talk/client/tile_sound_player.py:193-205 | after one frame a one-shot's cursor moves past the samples copied, at most a frame |
| TileSoundPlayers.UnfinishedMembers | rogue_talk/client/tile_sound_player.py:206-212 | exactly the one-shots that have not reached their end are kept |
| TileSoundPlayers.UnfinishedAppend | rogue_talk/client/tile_sound_player.py:206-212 | removing finished one-shots keeps the others in order |
| TileSoundPlayers.SurvivorsSpec | rogue_talk/client/tile_sound_player.py:193-212 | the one-shots that survive a frame are those with samples left after it, and any with more than a frame left survives |
| TileSoundPlayers.LoopStep | rogue_talk/client/tile_sound_player.py:216-247 | after one frame a loop is faded toward its target, and its cursor wraps forward a frame when it is audible |
| TileSoundPlayers.AmbientMixRemove | rogue_talk/client/tile_sound_player.py:216-247 | the order of summation over the loops does not matter: any loop can be taken out first |
| TileSoundPlayers.AmbientMixSilent | rogue_talk/client/tile_sound_player.py:234-236 | loops that are all silent add nothing to the frame |
| TileSoundPlayers.AddShot | rogue_talk/client/tile_sound_player.py:195-204 | a one-shot adds its next samples, scaled by its volume, to the start of the frame |
| TileSoundPlayers.AddLoop | rogue_talk/client/tile_sound_player.py:243-246 | a loop adds a frame of its samples from the cursor, wrapping around its end, scaled by its volume |
| TileSoundPlayers.ShotsMix | rogue_talk/client/tile_sound_player.py:188-205 | the one-shots' share of a frame is a full frame |
| TileSoundPlayers.ShotsMixSilent | rogue_talk/client/tile_sound_player.py:195-197 | finished one-shots add nothing, so a list of them mixes to silence |
| TileSoundPlayers.PlayShot | rogue_talk/client/tile_sound_player.py:193-205 | one pass of the one-shot loop mixes the samples left, at most a frame, and moves the cursor past them |
| TileSoundPlayers.MixOneShots | rogue_talk/client/tile_sound_player.py:188-212 | the one-shot half of the frame: every one-shot is mixed and advanced, and exactly the finished ones are popped |
| TileSoundPlayers.PopCompleted | rogue_talk/client/tile_sound_player.py:211-212 | popping the completed indices from the back removes exactly the finished one-shots |
| TileSoundPlayers.StepLoop | rogue_talk/client/tile_sound_player.py:216-247 | one pass of the ambient loop fades the loop, marks it for removal when faded out, skips it while silent, and otherwise mixes it and moves its cursor |
| TileSoundPlayers.MixAmbient | rogue_talk/client/tile_sound_player.py:214-251 | the ambient half of the frame: every loop is faded, mixed and advanced, and the faded-out ones are dropped |
| TileSoundPlayers.RemoveSounds | rogue_talk/client/tile_sound_player.py:250-251 | deleting the marked loops leaves the others unchanged |
| TileSoundPlayers.Scan | rogue_talk/client/tile_sound_player.py:134-135 | the scan visits the 7 by 7 square around the player |
| TileSoundPlayers.ScanStep | rogue_talk/client/tile_sound_player.py:134-160 | scan position `row * 7 + col` is the tile at offset (col - 3, row - 3), and the fold takes it next |
| TileSoundPlayers.LoudestSpec | rogue_talk/client/tile_sound_player.py:152-160 | a sound is active exactly when some tile in range contributes it, and no contribution is louder than its entry |
| TileSoundPlayers.LoudestAttained | rogue_talk/client/tile_sound_player.py:152-160 | an active sound's volume is one of its contributions, or 0 |
| TileSoundPlayers.RetargetedSpec | rogue_talk/client/tile_sound_player.py:162-180 | after retargeting a loop plays exactly the sounds that played before and the active ones that are loaded; its target is the active volume, 0 when inactive, and only new loops start silent at the beginning |
| TileSoundPlayers.ScanTile | rogue_talk/client/tile_sound_player.py:136-160 | one pass of the scan skips a tile that is too far or not in sight, and otherwise notes its sound |
| TileSoundPlayers.NearbyVolumeShape | rogue_talk/client/tile_sound_player.py:139-157 | `0.3 * (1 - sqrt(d2) / 4)` is 0.3 on the player's tile, between 0.075 and 0.3 within the scan range, and strictly falls as the squared distance grows |
| TileSoundPlayers.ScanEntry | rogue_talk/client/tile_sound_player.py:136-157 | a scanned tile that contributes is within squared distance 9 and heard at the formula's volume for its distance |
| TileSoundPlayers.ScanVolumes | rogue_talk/client/tile_sound_player.py:134-160 | every sound the scan finds has a volume between 0.075 and 0.3 that is the formula's volume at one of its contributing tiles |
| TileSoundPlayers.ScanNotLouder | rogue_talk/client/tile_sound_player.py:152-160 | a tile contributing a sound makes it active, at no less than the formula's volume at that tile, so the sound takes its nearest tile's volume |
| TileSoundPlayers.ScanNearby | rogue_talk/client/tile_sound_player.py:134-160 | the scan loops, rows outer and columns inner, compute the loudest contribution of every sound |
| TileSoundPlayers.ScanRow | rogue_talk/client/tile_sound_player.py:135-160 | the inner loop adds one row of tiles, left to right |
| TileSoundPlayers.Retarget | rogue_talk/client/tile_sound_player.py:162-180 | the locked part retargets existing loops, then starts the loaded new ones |
| TileSoundPlayers.SetTargets | rogue_talk/client/tile_sound_player.py:164-168 | the first loop sets every loop's target to its sound's active volume, 0 when inactive |
| TileSoundPlayers.AddNewSounds | rogue_talk/client/tile_sound_player.py:171-180 | the second loop adds a silent loop for every active sound not playing whose file is loaded |
| TileSoundPlayers.TileSoundPlayer.constructor | rogue_talk/client/tile_sound_player.py:54-59 | a player with the sound cache, no one-shots and no loops |
| TileSoundPlayers.TileSoundPlayer.OnPlayerMove | rogue_talk/client/tile_sound_player.py:92-113 | a footstep one-shot is appended exactly when the tile has a walking sound that is loaded |
| TileSoundPlayers.TileSoundPlayer.UpdateNearbySounds | rogue_talk/client/tile_sound_player.py:115-180 | the loops follow the loudest nearby sounds that can be heard, and every target volume is 0 or between 0.075 and 0.3 |
| TileSoundPlayers.TileSoundPlayer.GetMixedFrame | rogue_talk/client/tile_sound_player.py:182-253 | every sample is the one-shots' share plus the audible loops' share; finished one-shots and faded-out loops are gone |
| TileSoundPlayers.TileSoundPlayer.Clear | rogue_talk/client/tile_sound_player.py:255-259 | no one-shots and no loops remain |
| StreamPlayers.NewStream | rogue_talk/client/stream_player.py:201-220 | a started stream is silent, running, has an empty queue and no chunk, and keeps the level stream's URL |
| StreamPlayers.InRangeSpec | rogue_talk/client/stream_player.py:175-179 | a level stream is in range exactly when its radius is non-negative and the squared distance is at most the radius squared |
| StreamPlayers.VolumeForBounds | rogue_talk/client/stream_player.py:179-185 | an in-range stream's volume lies between 0.4 / (radius + 1) and 0.4, and is 0.4 on the stream's own tile |
| StreamPlayers.ActiveNext | rogue_talk/client/stream_player.py:175-187 | the set of active URLs grows by a level stream's URL exactly when the player is within its radius |
| StreamPlayers.VisitAllKeys | rogue_talk/client/stream_player.py:175-194 | after the first loop a stream is present exactly when it was before or an in-range level stream plays it |
| StreamPlayers.VisitAllOld | rogue_talk/client/stream_player.py:175-194 | the first loop changes only the target volume of streams already playing, and nothing of a stream no level stream in range plays |
| StreamPlayers.VisitAllNew | rogue_talk/client/stream_player.py:189-191 | a stream the first loop starts is a fresh stream for one of the in-range level streams with that URL |
| StreamPlayers.VisitAllTarget | rogue_talk/client/stream_player.py:184-194 | when several level streams share a URL the target is the volume of the last one in range |
| StreamPlayers.LastHit | rogue_talk/client/stream_player.py:175-194 | every active URL has a last in-range level stream that plays it |
| StreamPlayers.UpdatedSpec | rogue_talk/client/stream_player.py:152-199 | after `update_streams` streams are present exactly when they were or are in range; out-of-range streams fade to target 0 and are otherwise unchanged; in-range ones take the last matching volume; new ones start silent |
| StreamPlayers.UpdatedNoStreams | rogue_talk/client/stream_player.py:165-170 | a level without streams sets every target to 0 and starts nothing |
| StreamPlayers.VisitOne | rogue_talk/client/stream_player.py:176-194 | one pass of the first loop computes the in-range test and the visit the specification function describes |
| StreamPlayers.VisitStreams | rogue_talk/client/stream_player.py:172-194 | the first loop yields the specified streams and exactly the active URLs |
| StreamPlayers.SilenceExcept | rogue_talk/client/stream_player.py:196-199 | streams outside the active set get target 0; the others are unchanged |
| StreamPlayers.PendingPop | rogue_talk/client/stream_player.py:385-390 | taking the next chunk off the queue once the current one is used up loses no pending sample |
| StreamPlayers.BufferedAdvance | rogue_talk/client/stream_player.py:371-383 | advancing `buffer_pos` by `to_copy` drops exactly the samples copied from the chunk |
| StreamPlayers.TakesAfterCopy | rogue_talk/client/stream_player.py:369-396 | copying part of the chunk and then taking the rest equals taking all at once |
| StreamPlayers.PendingAdvance | rogue_talk/client/stream_player.py:371-383 | advancing `buffer_pos` drops exactly the copied samples from the pending ones |
| StreamPlayers.ReadTakes | rogue_talk/client/stream_player.py:366-396 | the fill loop takes the first min(need, pending) samples in order and leaves the rest pending |
| StreamPlayers.ReadState | rogue_talk/client/stream_player.py:366-396 | filling changes only the chunk, the position and the queue, consumes the queue from its front, and stops short only when nothing is left |
| StreamPlayers.AddAtSamples | rogue_talk/client/stream_player.py:376-383 | adding a chunk at `output_pos` right after the samples already added equals adding both at once |
| StreamPlayers.ReadPop | rogue_talk/client/stream_player.py:384-390 | a loop turn that finds the chunk used up pops the next chunk and the result is the same |
| StreamPlayers.ReadCopy | rogue_talk/client/stream_player.py:371-383 | a loop turn on the current chunk copies min(available, needed) samples and the rest comes from the later turns |
| StreamPlayers.FillFrame | rogue_talk/client/stream_player.py:366-396 | the fill loop adds to the frame exactly the samples `Read` takes, at the stream's volume, and leaves the reader state `Read` describes |
| StreamPlayers.StreamMixRemove | rogue_talk/client/stream_player.py:342-396 | the sum over streams does not depend on the order the dictionary is visited in |
| StreamPlayers.StreamStepSpec | rogue_talk/client/stream_player.py:342-396 | one frame fades the volume by one step toward the target, keeps URL, target and running flag, and plays the next FRAME_SIZE pending samples (or all of them) only when audible |
| StreamPlayers.StepStream | rogue_talk/client/stream_player.py:343-396 | one pass of the stream loop marks the stream for removal exactly when it has faded out, and adds its samples to every position of the frame |
| StreamPlayers.RemoveStreams | rogue_talk/client/stream_player.py:398-401 | popping the marked URLs leaves exactly the unmarked streams and returns the marked ones |
| StreamPlayers.MixStreams | rogue_talk/client/stream_player.py:337-401 | every sample of the frame is the sum of all streams' contributions; the streams kept and the ones stopped are those the specification functions give |
| StreamPlayers.AfterFrameValid | rogue_talk/client/stream_player.py:342-401 | the streams kept after a frame keep their URLs and their bounds |
| StreamPlayers.StreamPlayer.constructor | rogue_talk/client/stream_player.py:60-66 | a new player has no streams |
| StreamPlayers.StreamPlayer.UpdateStreams | rogue_talk/client/stream_player.py:152-199 | the new streams are `Updated` of the old ones, whose properties UpdatedSpec states |
| StreamPlayers.StreamPlayer.GetMixedFrame | rogue_talk/client/stream_player.py:331-403 | the frame is the sum of the old streams' contributions; faded-out streams are stopped and removed; the others have faded and consumed what they played |
| StreamPlayers.StreamPlayer.Deliver | rogue_talk/client/stream_player.py:293-300 | a decoded chunk is counted and then queued if the queue has room or dropped and counted; a stream no longer present is untouched |
| StreamPlayers.StreamPlayer.Clear | rogue_talk/client/stream_player.py:405-413 | every reader is told to stop and no stream remains |
| StreamPlayers.Delivered | rogue_talk/client/stream_player.py:293-300 | the frame count rises by one; the chunk is appended below the capacity of 100, else the drop count rises; nothing else changes |
| StreamPlayers.StopAll | rogue_talk/client/stream_player.py:407-409 | every stream is marked not running and is otherwise unchanged |
| BotClient.Replay | rogue_talk/bot/client.py:628-639 | replaying the pending moves in sequence order, each taken only onto a walkable tile, ends at the start or on a walkable tile |
| BotClient.ChainReplay | rogue_talk/bot/client.py:628-639 | replaying a chain of accepted predictions from its start arrives at the predicted end |
| BotClient.ChainSplit | rogue_talk/bot/client.py:628-639 | after any move of a chain, the rest of the chain starts from that move's predicted position |
| BotClient.ChainAgree | rogue_talk/bot/client.py:628-639 | a chain depends only on the pending moves inside its range |
| BotClient.ChainExtend | rogue_talk/bot/client.py:805-812 | a successful move extends the prediction chain by one step to the new position |
| BotClient.Remaining | rogue_talk/bot/client.py:620-623 | after removing the acknowledged moves, exactly the pending moves numbered after the ACK remain, unchanged |
| BotClient.ConfirmedAckKeepsPrediction | rogue_talk/bot/client.py:609-639 | when the server confirms a move where it was predicted, replaying the later moves from there gives the bot's prediction again |
| BotClient.MinKey | rogue_talk/bot/client.py:631 | the first key of `sorted(keys)` is in the set and no larger than any other key |
| BotClient.RemoveAcked | rogue_talk/bot/client.py:620-623 | the removal loop leaves exactly the moves `Remaining` describes |
| BotClient.AckKeys | rogue_talk/bot/client.py:620-623 | pending moves numbered after `lo` up to `hi` less those up to the ACK are the moves after the settled number up to `hi` |
| BotClient.ReplayPending | rogue_talk/bot/client.py:630-639 | the replay loop, visiting the keys in sorted order, ends where `Replay` says |
| BotClient.AckResult | rogue_talk/bot/client.py:609-639 | a rejected move clears every pending move and places the bot at the server's position; otherwise the moves after the ACK stay and are replayed on the server's position when a level is loaded |
| BotClient.Acknowledge | rogue_talk/bot/client.py:613-639 | the removal and replay loops compute the pending moves and the position `AckResult` specifies |
| BotClient.ConfirmedAck | rogue_talk/bot/client.py:609-639 | an ACK confirming a pending move at its predicted position leaves the bot at its predicted position |
| BotClient.RejectedAck | rogue_talk/bot/client.py:613-627 | a rejected ACK drops every pending move and puts the bot where the server says |
| BotClient.FindPlayer | rogue_talk/bot/client.py:592-597 | `get_player` finds nothing exactly when no listed player has the id, and otherwise the first listed player with it |
| BotClient.FindPlayerAt | rogue_talk/bot/client.py:592-597 | the first listed player with the id is the one `get_player` returns |
| BotClient.NearbySnoc | rogue_talk/bot/client.py:714-725 | the loop over the world state adds a player's id exactly when it is another player on the bot's level within Chebyshev distance 10 |
| BotClient.NearbyMembers | rogue_talk/bot/client.py:712-725 | an id is nearby exactly when some listed player with it is in range; the bot itself never is |
| BotClient.AudibleIsNearby | rogue_talk/bot/client.py:719-725 | every offset the server's volume table makes audible is within the bot's range on both axes |
| BotClient.NearbyNotAudible | rogue_talk/bot/client.py:719-725 | the converse fails: a player ten tiles away on one axis is nearby for the bot but gets volume 0 from the server |
| BotClient.SourceIdFromSamples | rogue_talk/bot/client.py:418-423 | the id read from the two leading samples is an unsigned 32-bit value |
| BotClient.SourceIdRoundTrip | rogue_talk/bot/client.py:418-423 | an id written into two 16-bit samples reads back as itself |
| BotClient.SamplesRoundTrip | rogue_talk/bot/client.py:418-423 | two signed 16-bit samples are exactly the samples that carry the id they encode |
| BotClient.TimeoutPartition | rogue_talk/bot/client.py:532-553 | the timeout check splits speakers into those reported and those kept, each kept one heard within the timeout; a second check at the same time reports nobody |
| BotClient.JustHeardStays | rogue_talk/bot/client.py:447-460 | a speaker heard at `now` survives a check at `now` |
| BotClient.Bot.constructor | rogue_talk/bot/client.py:115-185 | a new bot is at (0, 0) on "main" with id 0, no level, no WebRTC, no pending moves, nobody nearby or speaking, and a 0.5 s speaking timeout |
| BotClient.Bot.ServerHello | rogue_talk/bot/client.py:290-307 | the hello sets the id, the spawn position, the level name and the grid, and nothing else |
| BotClient.Bot.Move | rogue_talk/bot/client.py:781-812 | a move succeeds exactly when a level is loaded, WebRTC is connected, a position queue exists and the target is walkable; a refused move changes nothing; a successful one numbers the move, records it as pending and moves the prediction |
| BotClient.Bot.HandlePositionAck | rogue_talk/bot/client.py:609-639 | the ACK leaves the pending moves and position `AckResult` gives, and nothing else changes |
| BotClient.Bot.CheckProximity | rogue_talk/bot/client.py:710-749 | the nearby set is recomputed from the world state; the ids reported as entering and leaving are the set differences |
| BotClient.Bot.HandleWorldState | rogue_talk/bot/client.py:572-603 | the world state is replaced; the bot's own entry overrides its position only when no move is pending; proximity is checked against the new list |
| BotClient.Bot.HandleDoorTransition | rogue_talk/bot/client.py:657-663 | the bot stands at the spawn point on the target level and no move is pending |
| BotClient.Bot.NoteAudio | rogue_talk/bot/client.py:418-460 | the source id comes from the two leading 16-bit samples (0 otherwise); a silence frame changes nothing; another frame records the speaker's time and reports a start exactly when it was not speaking |
| BotClient.Bot.CheckSpeakingTimeouts | rogue_talk/bot/client.py:532-553 | speakers silent for more than the timeout are reported and removed; the rest are kept |

## Left out

- Networking and WebRTC plumbing are I/O and concurrency, so they are not modelled. This covers asyncio streams, aiortc peer connections, SDP offers and answers, renegotiation, ICE, data channels, ping loops and broadcast helpers. Handlers take decoded messages and return the messages they would send.
- `handle_client` is modelled only in its decisions. Reading the challenge and response, writing the results and the connection loop are I/O.
- Threads and locks are not modelled, and each handler runs atomically. This covers the stream reader threads and their HTTP demuxing, `_playback_loop`, the capture thread and the asyncio tasks. A stream reader is represented only by the chunks it queues (`StreamPlayers.StreamPlayer.Deliver`).
- Clocks are parameters: `time.time()` is the `now` argument in the bot's speaking bookkeeping. `recv`'s wait of 0.1 s for a frame is abstracted to "an empty queue gives silence". Capture timestamps are left out.
- Floating point is not modelled; samples, volumes and fades are exact reals. This covers `math.sqrt`: the roots of the server's volume table, of the nearby-sound distances (`TileSoundPlayers.NearbyRoots`) and of the stream distances (`StreamPlayers.RootValid`) are any exact non-negative square roots. It also covers the `tanh` soft clipping of `mix`, taken as a function parameter, linear resampling, the bot's RMS, int16/float conversion, and NumPy dtype conversion and masking.
- AudioRouter.RecipientCache.GetAudioRecipients: the cache can keep a recipient whose volume fell from at most 0.01 to exactly 0. The model states only what holds for every exact root table: reused lists are close to the current volumes, and everyone audible is listed. Whether such a stale recipient occurs depends on the floating-point table values.
- The 16-bit volume field of an audio frame is kept as its raw wire value. Its scaling from a float volume is floating point.
- Ed25519 key generation, signing and signature checking belong to an external library. They are the parameter `lib` of `Crypto.VerifySignature`. `verify_signature`'s mapping of any failure to False is modelled.
- `str.isprintable` depends on the Unicode database and is a parameter of the authentication decision.
- InputHandler.GetMovement: `str.lower` is modelled only for the characters that can lower to an ASCII letter. These are the ASCII capitals, the KELVIN SIGN (U+212A, lowered to 'k') and U+0130 (lowered to 'i' and a combining dot). Every other character is left as it is, which is enough to decide whether a key moves the player.
- LevelPacks.ParseDoors and LevelPacks.ParseDoor: the model converts `x`, `y`, `target_x` and `target_y` to integers and `target_level` to a string or None when a door is parsed. A value of another JSON kind therefore raises TypeError there. Python stores such a value and fails, if at all, only where it is used. A missing key is still a KeyError before any such TypeError. `see_through` is taken by its truth value, which is how it is used.
- LevelPacks.ParseStreams and LevelPacks.ParseStream: a non-integer `x`, `y` or `radius` or a non-string `url` raises TypeError when the stream is parsed, where Python stores it.
- LevelPacks.ParseInteractions and LevelPacks.ParseInteraction: a non-integer `x` or `y` or a non-string `text` raises TypeError when the interaction is parsed, where Python stores it. `hidden` is taken by its truth value.
- Storage.IntOf: Python's `int()` on a string also accepts `_` digit separators and non-ASCII digits. The model accepts only surrounding whitespace (every character `str.isspace` accepts), an optional sign and ASCII decimal digits. JSON numbers are integers here, and floats in `state.json` (which `int()` would truncate) are not modelled.
- `str()` of a JSON container, used when a saved level name is a list or an object, is a parameter (`reprContainer`).
- Storage.PlayerStorage.GetNameByKey, Storage.PlayerStorage.RegisterPlayer, ServerMoves.Authenticate, ServerMoves.AuthenticateResults, ServerMoves.AuthenticateRegisters, ServerMoves.AuthenticateKeepsKeysUnique: these take a name as its own entry of a map from name to directory, which is the store the code evidently intends. The source joins the name onto the users directory as a path, so a name holding `/`, `.` or `..` behaves differently there. Module `UserPaths` models that path store, and "## Findings" lists the differences. For plain names, `UserPaths.PlainGetPublicKey`, `UserPaths.PlainRegister`, `UserPaths.NameByKeyFound` and `UserPaths.NameByKeyNone` show that the path store behaves as the map does.
- UserPaths: the file system keeps directories and files only. Symbolic links, permissions, a full disk and concurrent changes are not modelled. The path store covers the key files that authentication uses; the state files of `get_player_state` and `save_player_state` are modelled only by the map store (`Storage.PlayerStorage`).
- UserPaths.NameByKey: the order in which `iterdir` lists the users directory is the parameter `listing`. When both a matching entry and an entry with a `pub` directory exist, which one the loop meets first depends on that order.
- Level-pack extraction writes into a map from relative path to entry; the tar archive is its list of members. Building packs on the server is not modelled: `_create_tarball_from_folder` needs tarfile, `_compute_level_manifest` needs SHA-256 and `_load_level_packs` is filesystem I/O.
- Dictionary iteration order is not modelled. Dicts are maps, and a loop over one visits its keys in an arbitrary order. Every property is proved for all orders. The order of a rebuilt recipient list is therefore unspecified beyond having no duplicates.
- Per-level tile tables are maps from character to tile definition. The tile definition carries the fields the server constructs from a level's tiles.json, because the shared `TileDef` lacks `is_door`, `walking_sound` and `nearby_sound`.
- `ServerLevel.GetTile` and the level functions that use it require `Rectangular`: every row has `width` characters and there are `height` rows. `from_string` produces this, and so does `from_bytes` from data of at least 4 + width·height bytes, which `to_bytes` of a rectangular level always sends. The server constructor requires this of every loaded level.
- `ClientLevel.Level.GetTile` models the `IndexError` of a short row. The bot and the tile-sound player, which read the client grid without handling that error, require `Complete()` of it: enough rows and columns. `from_bytes` produces complete grids from data of at least 4 + width·height bytes, which `to_bytes` of a rectangular level always sends.
- `ServerLevel.GetSpawnPosition` takes the random choice among spawn points as the index `pick`. The world's own spawn point for new players is the `spawn` argument of `GameServer.Server.Join`, because `server/world.py` is not part of this model.
- The bot's `get_player` lives in a types module that is not part of this model. The model uses `BotClient.FindPlayer` instead: the first listed player with the id.
- Bot callbacks are not modelled; the handlers return the ids entered, left, started and stopped. Also left out: `connect`'s authentication, `_setup_webrtc`, `run`, `move_to` (which needs `bot/pathfinding.py`, not part of this model), `speak_file` and the getters. The flags `webrtcConnected` and `positionQueue` are set by that plumbing and are fields here.
- BotClient.Bot.HandleDoorTransition: the bot's level grid is not replaced after a door transition, and neither is it in the source. Fetching the new level is networking.
- The validation report of `_validate_level` returns the warnings as values instead of printed text. It groups them by kind (undefined tiles with at most three example positions each, door tiles, teleporter targets, orphan door tiles).
- `Level.to_bytes` on a level with non-ASCII tiles raises `UnicodeEncodeError`, which is modelled as a `Failure`.
- Empty sound data is excluded by the tile-sound player's invariant. The source would divide by zero on the looping position of an empty ambient sound.
- The jitter buffer's `max_packets` is a natural number. A negative value would make `popleft` fail on an empty deque.
- Microphone capture is modelled on mono frames given as a sequence of reads. Device selection and both the sounddevice and the PulseAudio backends are I/O.
- Opus encoding and decoding, sound-file loading, audio output devices and the terminal UI are thin wrappers over foreign libraries, or are display code.
- Identity files (`client/identity.py`, `BotIdentity.load_or_create`) and the entry points (`main.py`, `game_client.py`, the piano bot example) are I/O.
- `server/world.py`, `client/viewport.py`, `audio/pcm.py`, `bot/pathfinding.py` and the bot's audio helpers are not part of this model.

## Findings

| source | as written | input that shows it | evidently intended | confidence | as-written member | corrected member |
|---|---|---|---|---|---|---|
| rogue_talk/server/storage.py:35-59 | a player's directory is `users_dir / name`, and `get_name_by_key` reads only the `pub` files directly under `users` | `a/b` registers with key K, then `c` registers with K: both are admitted and both key files hold K | a key is bound to at most one name, so `c` gets KEY_MISMATCH | not executed | UserPaths.SlashNameSharesKey | ServerMoves.AuthenticateKeepsKeysUnique |
| rogue_talk/server/storage.py:61-72 | `register_player` refuses a name whose path exists | `.` names the users directory and `..` the data directory: on an empty store either gets NAME_TAKEN | a valid name nobody has registered is registered | not executed | UserPaths.DotNamesTaken | ServerMoves.AuthenticateRegisters |
| rogue_talk/server/storage.py:61-72 | `mkdir(parents=True)` also makes `users/a` for the name `a/b` | after `a/b` registers, `a` with another key gets NAME_TAKEN | `a` was never registered, so it is registered | not executed | UserPaths.SlashNameTakesParent | ServerMoves.AuthenticateRegisters |
| rogue_talk/server/storage.py:49-59 | `get_name_by_key` reads each entry's `pub` with `read_bytes` | after `x/pub` registers, `users/x/pub` is a directory, so for a new player `y` the lookup raises IsADirectoryError | `y` is registered | not executed | UserPaths.PubDirectoryBlocksNewPlayers | ServerMoves.AuthenticateRegisters |
