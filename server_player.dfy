/**
 * The server's record of a connected player (rogue_talk/server/player.py).
 * Connection handles (streams, the peer connection, the data channel) and
 * the keep-alive clock are left out; the audio relay and the outbound
 * tracks are kept as the state values of module WebrtcTracks.
 */
module ServerPlayer {
  import opened Wrappers
  import opened Bytes
  import opened WebrtcTracks

  datatype Player = Player(
    id: int,
    name: string,
    x: int,
    y: int,
    audioRelay: Option<RelayState>,
    /** source player id -> the track carrying that source's audio to this player */
    outboundTracks: map<int, OutboundTrackState>,
    isMuted: bool,
    currentLevel: string,
    publicKey: seq<byte>,
    webrtcConnected: bool,
    needsRenegotiation: bool)

  /** `Player(id, name, x, y, ..., current_level=..., public_key=...)` with the other fields at their defaults. */
  function NewPlayer(id: int, name: string, x: int, y: int, level: string, key: seq<byte>): (p: Player)
    ensures p.id == id && p.x == x && p.y == y && p.currentLevel == level && p.publicKey == key
    ensures p.outboundTracks == map[] && !p.isMuted && !p.webrtcConnected && !p.needsRenegotiation
  {
    Player(id, name, x, y, None, map[], false, level, key, false, false)
  }
}
