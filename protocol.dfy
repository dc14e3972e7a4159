/**
 * The wire protocol between client and server (rogue_talk/common/protocol.py):
 * length-prefixed framing and the big-endian payload codecs. A stream is a
 * byte sequence; reading returns the message and the bytes that follow it.
 * Python raises `struct.error` when a value does not fit its field or an
 * unpack gets the wrong number of bytes, `ValueError` for a bad length or
 * type, `IncompleteReadError` when the stream ends early and
 * `UnicodeDecodeError` for malformed UTF-8; each is a `Failure` here.
 */
module Protocol {
  import opened Wrappers
  import opened Bytes
  import opened Errors
  import Utf8

  datatype MessageType =
    | ClientHello | ServerHello | PositionUpdate | WorldState
    | AudioFrame | PlayerJoined | PlayerLeft | MuteStatus

  function TypeCode(t: MessageType): (b: byte)
    ensures 0x01 <= b <= 0x08
  {
    match t
    case ClientHello => 0x01
    case ServerHello => 0x02
    case PositionUpdate => 0x03
    case WorldState => 0x04
    case AudioFrame => 0x05
    case PlayerJoined => 0x06
    case PlayerLeft => 0x07
    case MuteStatus => 0x08
  }

  /** `MessageType(b)`; None where the enum raises `ValueError`. */
  function TypeFromCode(b: byte): (r: Option<MessageType>)
    ensures r.Some? <==> 0x01 <= b <= 0x08
    ensures r.Some? ==> TypeCode(r.value) == b
  {
    if b == 0x01 then Some(ClientHello)
    else if b == 0x02 then Some(ServerHello)
    else if b == 0x03 then Some(PositionUpdate)
    else if b == 0x04 then Some(WorldState)
    else if b == 0x05 then Some(AudioFrame)
    else if b == 0x06 then Some(PlayerJoined)
    else if b == 0x07 then Some(PlayerLeft)
    else if b == 0x08 then Some(MuteStatus)
    else None
  }

  lemma TypeCodeRoundTrip(t: MessageType)
    ensures TypeFromCode(TypeCode(t)) == Some(t)
  {
  }

  /** `struct.pack(">I", n)`, failing outside the field's range. */
  function PackU32Checked(n: int): (r: Result<seq<byte>, Error>)
    ensures r.Success? <==> FitsU32(n)
    ensures r.Success? ==> r.value == PackU32(n)
  {
    if FitsU32(n) then Success(PackU32(n)) else Failure(StructError)
  }

  // ---------------------------------------------------------------- framing

  /** `write_message(writer, t, payload)`: the bytes written. */
  function WriteMessage(t: MessageType, payload: seq<byte>): (r: Result<seq<byte>, Error>)
    ensures r.Success? <==> FitsU32(1 + |payload|)
    ensures r.Success? ==>
      (|r.value| == 5 + |payload| && UnpackU32(r.value[..4]) == 1 + |payload| &&
       r.value[4] == TypeCode(t) && r.value[5..] == payload)
  {
    if !FitsU32(1 + |payload|) then Failure(StructError)
    else
      var r := PackU32(1 + |payload|) + [TypeCode(t)] + payload;
      assert r[..4] == PackU32(1 + |payload|);
      U32RoundTrip(1 + |payload|);
      Success(r)
  }

  /**
   * `read_message(reader)`: the type, the payload and the rest of the
   * stream. The payload is read before the type byte is checked.
   */
  function ReadMessage(stream: seq<byte>): (r: Result<(MessageType, seq<byte>, seq<byte>), Error>)
  {
    if |stream| < 4 then Failure(IncompleteRead)
    else
      var length := UnpackU32(stream[..4]);
      if length < 1 then Failure(ValueError)
      else if |stream| < 5 then Failure(IncompleteRead)
      else if |stream| < 4 + length then Failure(IncompleteRead)
      else match TypeFromCode(stream[4])
        case None => Failure(ValueError)
        case Some(t) => Success((t, stream[5..4 + length], stream[4 + length..]))
  }

  /** Reading what was written gives back the type and the payload and leaves the rest. */
  lemma ReadWritten(t: MessageType, payload: seq<byte>, rest: seq<byte>)
    requires WriteMessage(t, payload).Success?
    ensures ReadMessage(WriteMessage(t, payload).value + rest) == Success((t, payload, rest))
  {
    var w := WriteMessage(t, payload).value;
    var s := w + rest;
    assert s[..4] == w[..4];
    assert s[4] == TypeCode(t);
    assert s[5..4 + 1 + |payload|] == payload;
    assert s[4 + 1 + |payload|..] == rest;
  }

  /** Whatever reads successfully is exactly a written message followed by the rest. */
  lemma ReadIsWritten(stream: seq<byte>)
    requires ReadMessage(stream).Success?
    ensures var (t, payload, rest) := ReadMessage(stream).value;
      WriteMessage(t, payload).Success? && stream == WriteMessage(t, payload).value + rest
  {
    var (t, payload, rest) := ReadMessage(stream).value;
    var length := UnpackU32(stream[..4]);
    assert |payload| == length - 1;
    U32Injective(stream[..4]);
    var w := WriteMessage(t, payload).value;
    assert w[..4] == stream[..4];
    assert stream == stream[..4] + [stream[4]] + payload + rest;
  }

  /** A length field of 0 is refused. */
  lemma ZeroLengthRefused(t: byte, rest: seq<byte>)
    ensures ReadMessage([0, 0, 0, 0] + [t] + rest) == Failure(ValueError)
  {
    var s := [0, 0, 0, 0] + [t] + rest;
    assert s[..4] == [0, 0, 0, 0];
  }

  /** The bytes of writing each message in turn. */
  function WriteAll(msgs: seq<(MessageType, seq<byte>)>): (r: Result<seq<byte>, Error>)
  {
    if |msgs| == 0 then Success([])
    else match WriteMessage(msgs[0].0, msgs[0].1)
      case Failure(e) => Failure(e)
      case Success(w) =>
        match WriteAll(msgs[1..])
        case Failure(e) => Failure(e)
        case Success(ws) => Success(w + ws)
  }

  /** Reading `n` messages in turn, with the stream that is left. */
  function ReadN(stream: seq<byte>, n: nat): Result<(seq<(MessageType, seq<byte>)>, seq<byte>), Error>
    decreases n
  {
    if n == 0 then Success(([], stream))
    else match ReadMessage(stream)
      case Failure(e) => Failure(e)
      case Success((t, payload, rest)) =>
        match ReadN(rest, n - 1)
        case Failure(e) => Failure(e)
        case Success((more, left)) => Success(([(t, payload)] + more, left))
  }

  /** Consecutive messages read back in the order they were written. */
  lemma {:induction false} ReadAllWritten(msgs: seq<(MessageType, seq<byte>)>, rest: seq<byte>)
    requires WriteAll(msgs).Success?
    ensures ReadN(WriteAll(msgs).value + rest, |msgs|) == Success((msgs, rest))
  {
    if msgs != [] {
      var w, ws := WriteAllSplit(msgs);
      assert WriteAll(msgs).value + rest == w + (ws + rest);
      ReadWritten(msgs[0].0, msgs[0].1, ws + rest);
      ReadAllWritten(msgs[1..], rest);
      ReadNStep(w + (ws + rest), |msgs|, msgs[0], ws + rest, msgs[1..], rest);
      assert [msgs[0]] + msgs[1..] == msgs;
    } else {
      assert WriteAll(msgs).value + rest == rest;
    }
  }

  lemma WriteAllSplit(msgs: seq<(MessageType, seq<byte>)>) returns (w: seq<byte>, ws: seq<byte>)
    requires msgs != [] && WriteAll(msgs).Success?
    ensures WriteMessage(msgs[0].0, msgs[0].1) == Success(w) && WriteAll(msgs[1..]) == Success(ws)
    ensures WriteAll(msgs).value == w + ws
  {
    w := WriteMessage(msgs[0].0, msgs[0].1).value;
    ws := WriteAll(msgs[1..]).value;
  }

  lemma ReadNStep(stream: seq<byte>, n: nat, m: (MessageType, seq<byte>), rest: seq<byte>,
                  more: seq<(MessageType, seq<byte>)>, left: seq<byte>)
    requires n > 0 && ReadMessage(stream) == Success((m.0, m.1, rest))
    requires ReadN(rest, n - 1) == Success((more, left))
    ensures ReadN(stream, n) == Success(([m] + more, left))
  {
  }

  // ---------------------------------------------------------------- CLIENT_HELLO

  /** `serialize_client_hello(name)` */
  function SerializeClientHello(name: string): (r: Result<seq<byte>, Error>)
  {
    var nameBytes := Utf8.Encode(name);
    if !FitsU32(|nameBytes|) then Failure(StructError)
    else Success(PackU32(|nameBytes|) + nameBytes)
  }

  /** `data[lo:hi].decode("utf-8")` */
  function DecodeSlice(data: seq<byte>, lo: nat, hi: nat): Result<string, Error> {
    match Utf8.Decode(Slice(data, lo, hi))
    case None => Failure(UnicodeDecodeError)
    case Some(s) => Success(s)
  }

  /** `deserialize_client_hello(data)`: a short name field is truncated, not refused. */
  function DeserializeClientHello(data: seq<byte>): (r: Result<string, Error>)
    ensures |data| < 4 ==> r == Failure(StructError)
  {
    if |data| < 4 then Failure(StructError)
    else
      var nameLen := UnpackU32(data[..4]);
      DecodeSlice(data, 4, 4 + nameLen)
  }

  lemma DecodeSliceOf(prefix: seq<byte>, mid: seq<byte>, suffix: seq<byte>, s: string)
    requires Utf8.Decode(mid) == Some(s)
    ensures DecodeSlice(prefix + mid + suffix, |prefix|, |prefix| + |mid|) == Success(s)
  {
    assert (prefix + mid + suffix)[|prefix|..|prefix| + |mid|] == mid;
  }

  lemma EncodedDecodes(s: string)
    ensures Utf8.Decode(Utf8.Encode(s)) == Some(s)
  {
    Utf8.RoundTrip(s);
  }

  /** Any name survives the trip, and bytes after it are ignored. */
  lemma ClientHelloRoundTrip(name: string, extra: seq<byte>)
    requires SerializeClientHello(name).Success?
    ensures DeserializeClientHello(SerializeClientHello(name).value + extra) == Success(name)
  {
    var nb := Utf8.Encode(name);
    var d := SerializeClientHello(name).value + extra;
    assert d[..4] == PackU32(|nb|);
    U32RoundTrip(|nb|);
    EncodedDecodes(name);
    DecodeSliceOf(PackU32(|nb|), nb, extra, name);
    assert d == PackU32(|nb|) + nb + extra;
  }

  // ---------------------------------------------------------------- SERVER_HELLO, POSITION_UPDATE

  datatype ServerHelloMsg = ServerHelloMsg(playerId: int, roomWidth: int, roomHeight: int, spawnX: int, spawnY: int)

  predicate ServerHelloFits(m: ServerHelloMsg) {
    FitsU32(m.playerId) && FitsU16(m.roomWidth) && FitsU16(m.roomHeight) && FitsU16(m.spawnX) && FitsU16(m.spawnY)
  }

  /** `struct.pack(">IHHHH", ...)` */
  function SerializeServerHello(m: ServerHelloMsg): (r: Result<seq<byte>, Error>)
    ensures r.Success? <==> ServerHelloFits(m)
    ensures r.Success? ==> |r.value| == 12
  {
    if !ServerHelloFits(m) then Failure(StructError)
    else Success(PackU32(m.playerId) + PackU16(m.roomWidth) + PackU16(m.roomHeight) + PackU16(m.spawnX) + PackU16(m.spawnY))
  }

  /** `struct.unpack(">IHHHH", data)`: exactly 12 bytes. */
  function DeserializeServerHello(data: seq<byte>): (r: Result<ServerHelloMsg, Error>)
    ensures r.Success? <==> |data| == 12
    ensures r.Success? ==> ServerHelloFits(r.value)
  {
    if |data| != 12 then Failure(StructError)
    else Success(ServerHelloMsg(UnpackU32(data[0..4]), UnpackU16(data[4..6]), UnpackU16(data[6..8]),
                                UnpackU16(data[8..10]), UnpackU16(data[10..12])))
  }

  lemma ServerHelloRoundTrip(m: ServerHelloMsg)
    requires ServerHelloFits(m)
    ensures DeserializeServerHello(SerializeServerHello(m).value) == Success(m)
  {
    var d := SerializeServerHello(m).value;
    assert d[0..4] == PackU32(m.playerId) && d[4..6] == PackU16(m.roomWidth);
    assert d[6..8] == PackU16(m.roomHeight) && d[8..10] == PackU16(m.spawnX) && d[10..12] == PackU16(m.spawnY);
    U32RoundTrip(m.playerId);
    U16RoundTrip(m.roomWidth);
    U16RoundTrip(m.roomHeight);
    U16RoundTrip(m.spawnX);
    U16RoundTrip(m.spawnY);
  }

  /** `struct.pack(">HH", x, y)` */
  function SerializePositionUpdate(x: int, y: int): (r: Result<seq<byte>, Error>)
    ensures r.Success? <==> FitsU16(x) && FitsU16(y)
    ensures r.Success? ==> |r.value| == 4
  {
    if !(FitsU16(x) && FitsU16(y)) then Failure(StructError)
    else Success(PackU16(x) + PackU16(y))
  }

  /** `struct.unpack(">HH", data)`: exactly 4 bytes. */
  function DeserializePositionUpdate(data: seq<byte>): (r: Result<(int, int), Error>)
    ensures r.Success? <==> |data| == 4
  {
    if |data| != 4 then Failure(StructError)
    else Success((UnpackU16(data[0..2]), UnpackU16(data[2..4])))
  }

  lemma PositionUpdateRoundTrip(x: int, y: int)
    requires FitsU16(x) && FitsU16(y)
    ensures DeserializePositionUpdate(SerializePositionUpdate(x, y).value) == Success((x, y))
  {
    var d := SerializePositionUpdate(x, y).value;
    assert d[0..2] == PackU16(x) && d[2..4] == PackU16(y);
    U16RoundTrip(x);
    U16RoundTrip(y);
  }

  // ---------------------------------------------------------------- WORLD_STATE

  datatype PlayerInfo = PlayerInfo(playerId: int, x: int, y: int, isMuted: bool, name: string)

  /** The `>IHHBI` header of one player: id, x, y, muted flag, name length. */
  function PlayerHeader(p: PlayerInfo, nameLen: nat): (r: seq<byte>)
    requires FitsU32(p.playerId) && FitsU16(p.x) && FitsU16(p.y) && FitsU32(nameLen)
    ensures |r| == 13
  {
    PackU32(p.playerId) + PackU16(p.x) + PackU16(p.y) + [if p.isMuted then 1 else 0] + PackU32(nameLen)
  }

  /** The fields of a `>IHHBI` header; `bool(is_muted)` is true for any nonzero byte. */
  function HeaderFields(h: seq<byte>): (int, int, int, bool, nat)
    requires |h| == 13
  {
    (UnpackU32(h[0..4]), UnpackU16(h[4..6]), UnpackU16(h[6..8]), h[8] != 0, UnpackU32(h[9..13]))
  }

  lemma HeaderRoundTrip(p: PlayerInfo, nameLen: nat)
    requires FitsU32(p.playerId) && FitsU16(p.x) && FitsU16(p.y) && FitsU32(nameLen)
    ensures HeaderFields(PlayerHeader(p, nameLen)) == (p.playerId, p.x, p.y, p.isMuted, nameLen)
  {
    var h := PlayerHeader(p, nameLen);
    assert h[0..4] == PackU32(p.playerId) && h[4..6] == PackU16(p.x) && h[6..8] == PackU16(p.y);
    assert h[9..13] == PackU32(nameLen);
    U32RoundTrip(p.playerId);
    U16RoundTrip(p.x);
    U16RoundTrip(p.y);
    U32RoundTrip(nameLen);
  }

  function EncodePlayer(p: PlayerInfo): (r: Result<seq<byte>, Error>)
    ensures r.Success? ==> |r.value| == 13 + |Utf8.Encode(p.name)|
  {
    var nameBytes := Utf8.Encode(p.name);
    if !(FitsU32(p.playerId) && FitsU16(p.x) && FitsU16(p.y) && FitsU32(|nameBytes|)) then Failure(StructError)
    else Success(PlayerHeader(p, |nameBytes|) + nameBytes)
  }

  function EncodePlayers(ps: seq<PlayerInfo>): Result<seq<byte>, Error> {
    if |ps| == 0 then Success([])
    else match EncodePlayer(ps[0])
      case Failure(e) => Failure(e)
      case Success(b) =>
        match EncodePlayers(ps[1..])
        case Failure(e) => Failure(e)
        case Success(bs) => Success(b + bs)
  }

  /** `serialize_world_state(players)` */
  function EncodeWorldState(ps: seq<PlayerInfo>): Result<seq<byte>, Error> {
    if !FitsU32(|ps|) then Failure(StructError)
    else match EncodePlayers(ps)
      case Failure(e) => Failure(e)
      case Success(bs) => Success(PackU32(|ps|) + bs)
  }

  /** One player at `offset`: its header, then its name; with the offset after it. */
  function DecodePlayerAt(data: seq<byte>, offset: nat): Result<(PlayerInfo, nat), Error> {
    var header := Slice(data, offset, offset + 13);
    if |header| != 13 then Failure(StructError)
    else
      var (id, x, y, muted, nameLen) := HeaderFields(header);
      match DecodeSlice(data, offset + 13, offset + 13 + nameLen)
      case Failure(e) => Failure(e)
      case Success(name) => Success((PlayerInfo(id, x, y, muted, name), offset + 13 + nameLen))
  }

  /** The `n` players starting at `offset`, as the loop of `deserialize_world_state` reads them. */
  function DecodePlayers(data: seq<byte>, offset: nat, n: nat): Result<seq<PlayerInfo>, Error>
    decreases n, 1
  {
    if n == 0 then Success([]) else DecodeSomePlayers(data, offset, n)
  }

  /** At least one player: the one at `offset`, then the others after it. */
  function DecodeSomePlayers(data: seq<byte>, offset: nat, n: nat): Result<seq<PlayerInfo>, Error>
    requires n > 0
    decreases n, 0
  {
    match DecodePlayerAt(data, offset)
    case Failure(e) => Failure(e)
    case Success((p, next)) => Prepend([p], DecodePlayers(data, next, n - 1))
  }

  /** `deserialize_world_state(data)` */
  function DecodeWorldState(data: seq<byte>): Result<seq<PlayerInfo>, Error> {
    var countField := Slice(data, 0, 4);
    if |countField| != 4 then Failure(StructError)
    else DecodePlayers(data, 4, UnpackU32(countField))
  }

  lemma DecodeEncodedPlayer(data: seq<byte>, offset: nat, p: PlayerInfo, b: seq<byte>)
    requires EncodePlayer(p) == Success(b) && At(data, offset, b)
    ensures DecodePlayerAt(data, offset) == Success((p, offset + |b|))
  {
    var nb := PlayerParts(p, b);
    AtSplit(data, offset, PlayerHeader(p, |nb|), nb);
    HeaderAt(data, offset, p, |nb|);
    NameAt(data, offset + 13, nb, p.name);
    DecodePlayerAtFrom(data, offset, p, |nb|);
  }

  /** An encoded player is its header followed by name bytes that decode to its name. */
  lemma PlayerParts(p: PlayerInfo, b: seq<byte>) returns (nb: seq<byte>)
    requires EncodePlayer(p) == Success(b)
    ensures FitsU32(p.playerId) && FitsU16(p.x) && FitsU16(p.y) && FitsU32(|nb|)
    ensures b == PlayerHeader(p, |nb|) + nb && Utf8.Decode(nb) == Some(p.name)
  {
    nb := Utf8.Encode(p.name);
    EncodedDecodes(p.name);
  }

  lemma HeaderAt(data: seq<byte>, offset: nat, p: PlayerInfo, nameLen: nat)
    requires FitsU32(p.playerId) && FitsU16(p.x) && FitsU16(p.y) && FitsU32(nameLen)
    requires At(data, offset, PlayerHeader(p, nameLen))
    ensures |Slice(data, offset, offset + 13)| == 13
    ensures HeaderFields(Slice(data, offset, offset + 13)) == (p.playerId, p.x, p.y, p.isMuted, nameLen)
  {
    AtSlice(data, offset, PlayerHeader(p, nameLen));
    HeaderRoundTrip(p, nameLen);
  }

  lemma NameAt(data: seq<byte>, offset: nat, nb: seq<byte>, name: string)
    requires At(data, offset, nb) && Utf8.Decode(nb) == Some(name)
    ensures DecodeSlice(data, offset, offset + |nb|) == Success(name)
  {
    AtSlice(data, offset, nb);
  }

  lemma DecodePlayerAtFrom(data: seq<byte>, offset: nat, p: PlayerInfo, nameLen: nat)
    requires |Slice(data, offset, offset + 13)| == 13
    requires HeaderFields(Slice(data, offset, offset + 13)) == (p.playerId, p.x, p.y, p.isMuted, nameLen)
    requires DecodeSlice(data, offset + 13, offset + 13 + nameLen) == Success(p.name)
    ensures DecodePlayerAt(data, offset) == Success((p, offset + 13 + nameLen))
  {
  }

  lemma DecodePlayersChain(data: seq<byte>, offset: nat, ps: seq<PlayerInfo>, next: nat)
    requires ps != [] && DecodePlayerAt(data, offset) == Success((ps[0], next))
    requires DecodePlayers(data, next, |ps[1..]|) == Success(ps[1..])
    ensures DecodePlayers(data, offset, |ps|) == Success(ps)
  {
    assert [ps[0]] + ps[1..] == ps;
  }

  lemma {:induction false} DecodeEncodedPlayers(data: seq<byte>, offset: nat, ps: seq<PlayerInfo>, bs: seq<byte>)
    requires EncodePlayers(ps) == Success(bs) && At(data, offset, bs)
    ensures DecodePlayers(data, offset, |ps|) == Success(ps)
    decreases |ps|
  {
    if ps != [] {
      var b, rest := EncodePlayersSplit(ps, bs);
      AtSplit(data, offset, b, rest);
      DecodeEncodedPlayer(data, offset, ps[0], b);
      DecodeEncodedPlayers(data, offset + |b|, ps[1..], rest);
      DecodePlayersChain(data, offset, ps, offset + |b|);
    }
  }

  lemma EncodePlayersSplit(ps: seq<PlayerInfo>, bs: seq<byte>) returns (b: seq<byte>, rest: seq<byte>)
    requires ps != [] && EncodePlayers(ps) == Success(bs)
    ensures EncodePlayer(ps[0]) == Success(b) && EncodePlayers(ps[1..]) == Success(rest) && bs == b + rest
  {
    b := EncodePlayer(ps[0]).value;
    rest := EncodePlayers(ps[1..]).value;
  }

  /** `b` occurs in `data` at `offset`, element by element. */
  predicate At<T(==)>(data: seq<T>, offset: nat, b: seq<T>)
    decreases |b|, 1
  {
    if |b| == 0 then offset <= |data| else AtNonEmpty(data, offset, b)
  }

  predicate AtNonEmpty<T(==)>(data: seq<T>, offset: nat, b: seq<T>)
    requires b != []
    decreases |b|, 0
  {
    offset < |data| && data[offset] == b[0] && At(data, offset + 1, b[1..])
  }

  lemma {:induction false} AtSlice<T>(data: seq<T>, offset: nat, b: seq<T>)
    requires At(data, offset, b)
    ensures offset + |b| <= |data| && Slice(data, offset, offset + |b|) == b
    decreases |b|
  {
    if b != [] {
      AtSlice(data, offset + 1, b[1..]);
      assert data[offset..offset + |b|] == [data[offset]] + data[offset + 1..offset + |b|];
    }
  }

  lemma {:induction false} AtSplit<T>(data: seq<T>, offset: nat, a: seq<T>, b: seq<T>)
    requires At(data, offset, a + b)
    ensures At(data, offset, a) && At(data, offset + |a|, b)
    decreases |a|
  {
    if a == [] {
      assert a + b == b;
    } else {
      assert (a + b)[1..] == a[1..] + b;
      AtSplit(data, offset + 1, a[1..], b);
    }
  }

  lemma {:induction false} AtMiddle<T>(prefix: seq<T>, b: seq<T>, suffix: seq<T>)
    ensures At(prefix + b + suffix, |prefix|, b)
    decreases |b|
  {
    if b != [] {
      assert prefix + b + suffix == (prefix + [b[0]]) + b[1..] + suffix;
      AtMiddle(prefix + [b[0]], b[1..], suffix);
    }
  }

  /** Every list of players whose fields fit survives the trip. */
  lemma WorldStateRoundTrip(ps: seq<PlayerInfo>)
    requires EncodeWorldState(ps).Success?
    ensures DecodeWorldState(EncodeWorldState(ps).value) == Success(ps)
  {
    var bs := EncodePlayers(ps).value;
    var data := EncodeWorldState(ps).value;
    assert Slice(data, 0, 4) == PackU32(|ps|);
    U32RoundTrip(|ps|);
    AtMiddle(PackU32(|ps|), bs, []);
    assert data == PackU32(|ps|) + bs + [];
    DecodeEncodedPlayers(data, 4, ps, bs);
  }

  /** `serialize_world_state` as the source writes it: a loop appending to `result`. */
  method SerializeWorldState(players: seq<PlayerInfo>) returns (r: Result<seq<byte>, Error>)
    ensures r == EncodeWorldState(players)
  {
    if !FitsU32(|players|) {
      return Failure(StructError);
    }
    var result := PackU32(|players|);
    var i: nat := 0;
    while i < |players|
      invariant 0 <= i <= |players|
      invariant EncodePlayers(players[..i]).Success?
      invariant result == PackU32(|players|) + EncodePlayers(players[..i]).value
    {
      var b := EncodePlayer(players[i]);
      SerializeNext(players, i);
      if b.Failure? {
        return Failure(StructError);
      }
      result := result + b.value;
      i := i + 1;
    }
    assert players[..i] == players;
    return Success(result);
  }

  /** One pass of the loop of `SerializeWorldState`: the next player either fails the whole encoding or extends it. */
  lemma SerializeNext(players: seq<PlayerInfo>, i: nat)
    requires i < |players| && EncodePlayers(players[..i]).Success?
    ensures EncodePlayer(players[i]).Failure? ==> EncodeWorldState(players) == Failure(StructError)
    ensures EncodePlayer(players[i]).Success? ==>
      EncodePlayers(players[..i + 1]) == Success(EncodePlayers(players[..i]).value + EncodePlayer(players[i]).value)
  {
    EncodePlayersAppend(players[..i], players[i]);
    assert players[..i + 1] == players[..i] + [players[i]];
    if EncodePlayer(players[i]).Failure? {
      EncodePlayersFails(players, i);
    }
  }

  lemma {:induction false} EncodePlayersAppend(ps: seq<PlayerInfo>, p: PlayerInfo)
    requires EncodePlayers(ps).Success?
    ensures EncodePlayer(p).Success? ==>
      EncodePlayers(ps + [p]) == Success(EncodePlayers(ps).value + EncodePlayer(p).value)
    ensures EncodePlayer(p).Failure? ==> EncodePlayers(ps + [p]).Failure?
    decreases |ps|
  {
    if ps == [] {
      assert [p][1..] == [];
      if EncodePlayer(p).Success? {
        assert EncodePlayer(p).value + [] == [] + EncodePlayer(p).value;
      }
    } else {
      assert (ps + [p])[0] == ps[0] && (ps + [p])[1..] == ps[1..] + [p];
      EncodePlayersAppend(ps[1..], p);
      var b0 := EncodePlayer(ps[0]).value;
      var bs := EncodePlayers(ps[1..]).value;
      if EncodePlayer(p).Success? {
        assert EncodePlayers(ps + [p]) == Success(b0 + (bs + EncodePlayer(p).value));
        assert b0 + (bs + EncodePlayer(p).value) == (b0 + bs) + EncodePlayer(p).value;
      }
    }
  }

  /** Encoding fails as a whole once any player does not fit. */
  lemma {:induction false} EncodePlayersFails(ps: seq<PlayerInfo>, i: nat)
    requires i < |ps| && EncodePlayer(ps[i]).Failure?
    ensures EncodePlayers(ps) == Failure(StructError) && EncodeWorldState(ps) == Failure(StructError)
    decreases i
  {
    if i > 0 {
      EncodePlayersFails(ps[1..], i - 1);
    }
  }

  /** `deserialize_world_state` as the source writes it: a loop advancing `offset`. */
  method DeserializeWorldState(data: seq<byte>) returns (r: Result<seq<PlayerInfo>, Error>)
    ensures r == DecodeWorldState(data)
  {
    var countField := Slice(data, 0, 4);
    if |countField| != 4 {
      return Failure(StructError);
    }
    var numPlayers := UnpackU32(countField);
    var offset: nat := 4;
    var players: seq<PlayerInfo> := [];
    var left: nat := numPlayers;
    ghost var whole := DecodeWorldState(data);
    PrependNothing(whole);
    while left > 0
      invariant whole == Prepend(players, DecodePlayers(data, offset, left))
    {
      var step := DecodePlayerAt(data, offset);
      if step.Failure? {
        DecodePlayersStop(data, offset, left, players, step.error);
        return Failure(step.error);
      }
      var p, next := step.value.0, step.value.1;
      DecodePlayersAdvance(data, offset, left, players, p, next);
      players := players + [p];
      offset := next;
      left := left - 1;
    }
    assert players + [] == players;
    return Success(players);
  }

  /** Players already read in front of the outcome of reading the rest. */
  function Prepend(ps: seq<PlayerInfo>, r: Result<seq<PlayerInfo>, Error>): Result<seq<PlayerInfo>, Error> {
    match r
    case Failure(e) => Failure(e)
    case Success(more) => Success(ps + more)
  }

  lemma DecodePlayersAdvance(data: seq<byte>, offset: nat, m: nat, players: seq<PlayerInfo>, p: PlayerInfo, next: nat)
    requires m > 0 && DecodePlayerAt(data, offset) == Success((p, next))
    ensures Prepend(players, DecodePlayers(data, offset, m)) == Prepend(players + [p], DecodePlayers(data, next, m - 1))
  {
    PrependTwice(players, p, DecodePlayers(data, next, m - 1));
  }

  lemma DecodePlayersStop(data: seq<byte>, offset: nat, m: nat, players: seq<PlayerInfo>, e: Error)
    requires m > 0 && DecodePlayerAt(data, offset) == Failure(e)
    ensures Prepend(players, DecodePlayers(data, offset, m)) == Failure(e)
  {
  }

  lemma PrependNothing(r: Result<seq<PlayerInfo>, Error>)
    ensures Prepend([], r) == r
  {
    if r.Success? { assert [] + r.value == r.value; }
  }

  lemma PrependTwice(ps: seq<PlayerInfo>, p: PlayerInfo, r: Result<seq<PlayerInfo>, Error>)
    ensures Prepend(ps, Prepend([p], r)) == Prepend(ps + [p], r)
  {
    if r.Success? { assert ps + ([p] + r.value) == (ps + [p]) + r.value; }
  }

  // ---------------------------------------------------------------- AUDIO_FRAME

  /** An audio frame with its volume as the 16-bit value on the wire. */
  datatype AudioFrameMsg = AudioFrameMsg(playerId: int, timestampMs: int, volumeWire: int, opusData: seq<byte>)

  predicate AudioFrameFits(f: AudioFrameMsg) {
    FitsU32(f.playerId) && FitsU32(f.timestampMs) && FitsU16(f.volumeWire) && FitsU16(|f.opusData|)
  }

  /** `serialize_audio_frame`, from the volume's wire value on. */
  function SerializeAudioFrame(f: AudioFrameMsg): (r: Result<seq<byte>, Error>)
    ensures r.Success? <==> AudioFrameFits(f)
    ensures r.Success? ==> |r.value| == 12 + |f.opusData|
  {
    if !AudioFrameFits(f) then Failure(StructError)
    else Success(PackU32(f.playerId) + PackU32(f.timestampMs) + PackU16(f.volumeWire)
                 + PackU16(|f.opusData|) + f.opusData)
  }

  /** `deserialize_audio_frame` up to the volume's wire value; the opus data is a clamped slice. */
  function DeserializeAudioFrame(data: seq<byte>): (r: Result<AudioFrameMsg, Error>)
    ensures r.Success? <==> |data| >= 12
  {
    var head := Slice(data, 0, 10);
    var lenField := Slice(data, 10, 12);
    if |head| != 10 || |lenField| != 2 then Failure(StructError)
    else
      var opusLen := UnpackU16(lenField);
      Success(AudioFrameMsg(UnpackU32(head[0..4]), UnpackU32(head[4..8]), UnpackU16(head[8..10]),
                            Slice(data, 12, 12 + opusLen)))
  }

  /** Where each field of a serialized audio frame lies. */
  lemma AudioFrameFields(f: AudioFrameMsg)
    requires AudioFrameFits(f)
    ensures var d := SerializeAudioFrame(f).value;
      Slice(d, 0, 10)[0..4] == PackU32(f.playerId) && Slice(d, 0, 10)[4..8] == PackU32(f.timestampMs) &&
      Slice(d, 0, 10)[8..10] == PackU16(f.volumeWire) && Slice(d, 10, 12) == PackU16(|f.opusData|) &&
      Slice(d, 12, 12 + |f.opusData|) == f.opusData
  {
    var d := SerializeAudioFrame(f).value;
    var h := PackU32(f.playerId) + PackU32(f.timestampMs) + PackU16(f.volumeWire);
    var l := PackU16(|f.opusData|);
    assert d == h + l + f.opusData;
    assert Slice(d, 0, 10) == h;
    assert Slice(d, 10, 12) == l;
    assert Slice(d, 12, 12 + |f.opusData|) == f.opusData;
    assert h[0..4] == PackU32(f.playerId) && h[4..8] == PackU32(f.timestampMs) && h[8..10] == PackU16(f.volumeWire);
  }

  lemma AudioFrameRoundTrip(f: AudioFrameMsg)
    requires AudioFrameFits(f)
    ensures DeserializeAudioFrame(SerializeAudioFrame(f).value) == Success(f)
  {
    AudioFrameFields(f);
    U32RoundTrip(f.playerId);
    U32RoundTrip(f.timestampMs);
    U16RoundTrip(f.volumeWire);
    U16RoundTrip(|f.opusData|);
  }

  // ---------------------------------------------------------------- PLAYER_JOINED, PLAYER_LEFT, MUTE_STATUS

  /** `serialize_player_joined(player_id, name)` */
  function SerializePlayerJoined(playerId: int, name: string): (r: Result<seq<byte>, Error>)
    ensures r.Success? <==> FitsU32(playerId) && FitsU32(|Utf8.Encode(name)|)
  {
    var nameBytes := Utf8.Encode(name);
    if !(FitsU32(playerId) && FitsU32(|nameBytes|)) then Failure(StructError)
    else Success(PackU32(playerId) + PackU32(|nameBytes|) + nameBytes)
  }

  /** `deserialize_player_joined(data)` */
  function DeserializePlayerJoined(data: seq<byte>): (r: Result<(int, string), Error>)
    ensures |data| < 8 ==> r == Failure(StructError)
  {
    var head := Slice(data, 0, 8);
    if |head| != 8 then Failure(StructError)
    else
      var nameLen := UnpackU32(head[4..8]);
      match DecodeSlice(data, 8, 8 + nameLen)
      case Failure(e) => Failure(e)
      case Success(name) => Success((UnpackU32(head[0..4]), name))
  }

  lemma PlayerJoinedRoundTrip(playerId: int, name: string)
    requires SerializePlayerJoined(playerId, name).Success?
    ensures DeserializePlayerJoined(SerializePlayerJoined(playerId, name).value) == Success((playerId, name))
  {
    var nb := Utf8.Encode(name);
    var d := SerializePlayerJoined(playerId, name).value;
    var head := Slice(d, 0, 8);
    assert head[0..4] == PackU32(playerId) && head[4..8] == PackU32(|nb|);
    U32RoundTrip(playerId);
    U32RoundTrip(|nb|);
    EncodedDecodes(name);
    assert d == (PackU32(playerId) + PackU32(|nb|)) + nb + [];
    DecodeSliceOf(PackU32(playerId) + PackU32(|nb|), nb, [], name);
  }

  /** `struct.pack(">I", player_id)` */
  function SerializePlayerLeft(playerId: int): (r: Result<seq<byte>, Error>)
    ensures r == PackU32Checked(playerId)
  {
    PackU32Checked(playerId)
  }

  /** `struct.unpack(">I", data)[0]`: exactly 4 bytes. */
  function DeserializePlayerLeft(data: seq<byte>): (r: Result<int, Error>)
    ensures r.Success? <==> |data| == 4
  {
    if |data| != 4 then Failure(StructError) else Success(UnpackU32(data))
  }

  lemma PlayerLeftRoundTrip(playerId: int)
    requires FitsU32(playerId)
    ensures DeserializePlayerLeft(SerializePlayerLeft(playerId).value) == Success(playerId)
  {
    U32RoundTrip(playerId);
  }

  function SerializeMuteStatus(isMuted: bool): (r: seq<byte>)
    ensures |r| == 1
  {
    [if isMuted then 1 else 0]
  }

  /** `bool(struct.unpack("B", data)[0])`: exactly one byte, any nonzero value is true. */
  function DeserializeMuteStatus(data: seq<byte>): (r: Result<bool, Error>)
    ensures r.Success? <==> |data| == 1
  {
    if |data| != 1 then Failure(StructError) else Success(data[0] != 0)
  }

  lemma MuteStatusRoundTrip(isMuted: bool, b: byte)
    ensures DeserializeMuteStatus(SerializeMuteStatus(isMuted)) == Success(isMuted)
    ensures DeserializeMuteStatus([b]) == Success(b != 0)
  {
  }
}
