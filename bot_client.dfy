/**
 * The bot client's bookkeeping (rogue_talk/bot/client.py): client-side
 * prediction of its own moves and their reconciliation with the server's
 * acknowledgements, the set of nearby players whose changes it reports, and
 * the players it currently hears speaking.
 */
module BotClient {
  import opened Wrappers
  import ClientLevel
  import opened Constants
  import AudioRouter
  import Collections

  /** `(dx, dy, new_x, new_y)`: a move sent to the server and not yet acknowledged. */
  datatype PendingMove = PendingMove(dx: int, dy: int, x: int, y: int)

  /** A player as a world state lists it. */
  datatype BotPlayer = BotPlayer(playerId: int, x: int, y: int, isMuted: bool, name: string, level: string)

  type Moves = map<int, PendingMove>

  /** `is_walkable` answers True. */
  predicate Walkable(level: ClientLevel.Level, x: int, y: int) {
    level.IsWalkable(x, y) == Success(true)
  }

  // ---------------------------------------------------------------- prediction and replay

  predicate HasMoves(moves: Moves, first: int, last: int) {
    forall s :: first <= s <= last ==> s in moves
  }

  /**
   * The moves `first .. last`, in sequence order, replayed from `pos`: each
   * one is taken when its target is walkable and skipped otherwise. The
   * result is the start or a walkable tile.
   */
  function Replay(level: ClientLevel.Level, moves: Moves, first: int, last: int, pos: (int, int)): (r: (int, int))
    requires HasMoves(moves, first, last)
    ensures r == pos || Walkable(level, r.0, r.1)
    decreases last - first
  {
    if first > last then pos
    else
      var m := moves[first];
      var next := (pos.0 + m.dx, pos.1 + m.dy);
      Replay(level, moves, first + 1, last, if Walkable(level, next.0, next.1) then next else pos)
  }

  /**
   * The moves `lo+1 .. hi` lead one after the other from `start` to `end`:
   * each stored target is the previous position plus the move's offset, and
   * is walkable. This is what a run of successful `move` calls leaves.
   */
  predicate Chained(level: ClientLevel.Level, moves: Moves, lo: int, hi: int, start: (int, int), end: (int, int))
    decreases hi - lo
  {
    if lo >= hi then start == end
    else
      lo + 1 in moves &&
      var m := moves[lo + 1];
      m.x == start.0 + m.dx && m.y == start.1 + m.dy && Walkable(level, m.x, m.y) &&
      Chained(level, moves, lo + 1, hi, (m.x, m.y), end)
  }

  /** Replaying a chain from its start arrives at its end. */
  lemma {:induction false} ChainReplay(level: ClientLevel.Level, moves: Moves, lo: int, hi: int, start: (int, int),
                                       end: (int, int))
    requires Chained(level, moves, lo, hi, start, end)
    ensures HasMoves(moves, lo + 1, hi) && Replay(level, moves, lo + 1, hi, start) == end
    decreases hi - lo
  {
    if lo < hi {
      var m := moves[lo + 1];
      ChainReplay(level, moves, lo + 1, hi, (m.x, m.y), end);
    }
  }

  /** The tail of a chain after move `k` is a chain from move `k`'s target. */
  lemma {:induction false} ChainSplit(level: ClientLevel.Level, moves: Moves, lo: int, k: int, hi: int,
                                      start: (int, int), end: (int, int))
    requires Chained(level, moves, lo, hi, start, end) && lo < k <= hi
    ensures k in moves && Chained(level, moves, k, hi, (moves[k].x, moves[k].y), end)
    decreases k - lo
  {
    var m := moves[lo + 1];
    if k > lo + 1 {
      ChainSplit(level, moves, lo + 1, k, hi, (m.x, m.y), end);
    }
  }

  /** A chain depends only on the moves inside its range. */
  lemma {:induction false} ChainAgree(level: ClientLevel.Level, p: Moves, q: Moves, lo: int, hi: int,
                                      start: (int, int), end: (int, int))
    requires Chained(level, p, lo, hi, start, end)
    requires forall s :: lo < s <= hi && s in p ==> s in q && q[s] == p[s]
    ensures Chained(level, q, lo, hi, start, end)
    decreases hi - lo
  {
    if lo < hi {
      var m := p[lo + 1];
      ChainAgree(level, p, q, lo + 1, hi, (m.x, m.y), end);
    }
  }

  /** A successful move extends the chain by one step, to the new prediction. */
  lemma {:induction false} ChainExtend(level: ClientLevel.Level, p: Moves, lo: int, hi: int, start: (int, int),
                                       end: (int, int), m: PendingMove)
    requires Chained(level, p, lo, hi, start, end) && lo <= hi
    requires m.x == end.0 + m.dx && m.y == end.1 + m.dy && Walkable(level, m.x, m.y)
    ensures Chained(level, p[hi + 1 := m], lo, hi + 1, start, (m.x, m.y))
    decreases hi - lo
  {
    if lo < hi {
      var m0 := p[lo + 1];
      ChainExtend(level, p, lo + 1, hi, (m0.x, m0.y), end, m);
    }
  }

  /** The ACK's removal: the pending moves after `seqNo`. */
  function Remaining(moves: Moves, seqNo: int): (r: Moves)
    ensures forall s :: s in r <==> s in moves && s > seqNo
    ensures forall s :: s in r ==> r[s] == moves[s]
  {
    map s | s in moves && s > seqNo :: moves[s]
  }

  /** The server put the acknowledged move somewhere other than where it was predicted to land. */
  predicate Rejected(moves: Moves, seqNo: int, sx: int, sy: int) {
    seqNo in moves && (moves[seqNo].x != sx || moves[seqNo].y != sy)
  }

  /**
   * A confirmed acknowledgement keeps the prediction: when the pending moves
   * chain from `start` to `predicted` and the server places move `seqNo`
   * where it was predicted, replaying the moves after it from there arrives
   * at `predicted` again.
   */
  lemma ConfirmedAckKeepsPrediction(level: ClientLevel.Level, moves: Moves, lo: int, hi: int, start: (int, int),
                                    predicted: (int, int), seqNo: int)
    requires Chained(level, moves, lo, hi, start, predicted) && lo < seqNo <= hi
    ensures seqNo in moves && HasMoves(Remaining(moves, seqNo), seqNo + 1, hi)
    ensures Replay(level, Remaining(moves, seqNo), seqNo + 1, hi, (moves[seqNo].x, moves[seqNo].y)) == predicted
  {
    ChainSplit(level, moves, lo, seqNo, hi, start, predicted);
    var target := (moves[seqNo].x, moves[seqNo].y);
    var rest := Remaining(moves, seqNo);
    ChainAgree(level, moves, rest, seqNo, hi, target, predicted);
    ChainReplay(level, rest, seqNo, hi, target, predicted);
  }

  /** The first key of `sorted(keys)`. */
  method MinKey(keys: set<int>) returns (k: int)
    requires keys != {}
    ensures k in keys && forall j :: j in keys ==> k <= j
  {
    k := Collections.Pick(keys);
    var rest := keys - {k};
    while rest != {}
      invariant rest <= keys && k in keys
      invariant forall j :: j in keys && j !in rest ==> k <= j
      decreases rest
    {
      var j := Collections.Pick(rest);
      if j < k {
        k := j;
      }
      rest := rest - {j};
    }
  }

  /** The removal loop of the `POSITION_ACK` branch: every pending move up to `seqNo` is deleted. */
  method RemoveAcked(moves: Moves, seqNo: int) returns (r: Moves)
    ensures r == Remaining(moves, seqNo)
  {
    r := moves;
    var toRemove := set s | s in moves && s <= seqNo;
    while toRemove != {}
      invariant toRemove <= r.Keys && forall s :: s in toRemove ==> s <= seqNo
      invariant forall s :: s in r <==> s in moves && (s > seqNo || s in toRemove)
      invariant forall s :: s in r ==> r[s] == moves[s]
      decreases toRemove
    {
      var s := Collections.Pick(toRemove);
      r := r - {s};
      toRemove := toRemove - {s};
    }
    assert forall s :: s in r <==> s in Remaining(moves, seqNo);
  }

  /** The newest sequence number no longer pending once `seqNo` is acknowledged. */
  function AckSettled(lo: int, hi: int, seqNo: int): int {
    if seqNo >= hi then hi else if seqNo > lo then seqNo else lo
  }

  /** The moves after `lo` up to `hi`, less those up to `seqNo`, are the moves after `AckSettled` up to `hi`. */
  lemma AckKeys(moves: Moves, lo: int, hi: int, seqNo: int)
    requires lo <= hi && forall s :: s in moves <==> lo < s <= hi
    ensures lo <= AckSettled(lo, hi, seqNo) <= hi
    ensures forall s :: s in Remaining(moves, seqNo) <==> AckSettled(lo, hi, seqNo) < s <= hi
  {
  }

  /**
   * The replay loop of the `POSITION_ACK` branch: the pending moves, which
   * are the numbers after `first` up to `last`, taken in sorted order from
   * the server's position.
   */
  method ReplayPending(grid: ClientLevel.Level, moves: Moves, ghost first: int, last: int, sx: int, sy: int)
    returns (px: int, py: int)
    requires moves != map[] && grid.Complete()
    requires forall s :: s in moves <==> first < s <= last
    ensures (px, py) == Replay(grid, moves, first + 1, last, (sx, sy))
  {
    var s := MinKey(moves.Keys);
    assert first + 1 in moves;
    px, py := sx, sy;
    while s <= last
      invariant first + 1 <= s <= last + 1
      invariant Replay(grid, moves, first + 1, last, (sx, sy)) == Replay(grid, moves, s, last, (px, py))
      decreases last - s
    {
      var m := moves[s];
      var newX, newY := px + m.dx, py + m.dy;
      var walkable := grid.IsWalkable(newX, newY);
      if walkable == Success(true) {
        px, py := newX, newY;
      }
      s := s + 1;
    }
  }

  /** What a `POSITION_ACK` leaves: the moves still pending, the newest settled number and the position. */
  datatype Ack = Ack(pending: Moves, settled: int, pos: (int, int))

  /**
   * The `POSITION_ACK` branch on the pending moves, which are the numbers
   * after `lo` up to `hi`: a rejected move clears them all, otherwise the
   * ones after `seqNo` stay; the position is the server's, with the moves
   * still pending replayed on it when there is a level.
   */
  function AckResult(level: Option<ClientLevel.Level>, moves: Moves, lo: int, hi: int, seqNo: int, sx: int, sy: int): (a: Ack)
    requires lo <= hi && (forall s :: s in moves <==> lo < s <= hi)
    ensures lo <= a.settled <= hi && (forall s :: s in a.pending <==> a.settled < s <= hi)
    ensures a.pending == (if Rejected(moves, seqNo, sx, sy) then map[] else Remaining(moves, seqNo))
    ensures forall s :: s in a.pending ==> s > seqNo && a.pending[s] == moves[s]
    ensures Rejected(moves, seqNo, sx, sy) || level.None? ==> a.pos == (sx, sy)
    ensures !Rejected(moves, seqNo, sx, sy) && level.Some? ==>
      HasMoves(a.pending, a.settled + 1, hi) && a.pos == Replay(level.value, a.pending, a.settled + 1, hi, (sx, sy))
  {
    AckKeys(moves, lo, hi, seqNo);
    if Rejected(moves, seqNo, sx, sy) then Ack(map[], hi, (sx, sy))
    else
      var rest := Remaining(moves, seqNo);
      var first := AckSettled(lo, hi, seqNo);
      Ack(rest, first, if level.None? then (sx, sy) else Replay(level.value, rest, first + 1, hi, (sx, sy)))
  }

  /** The `POSITION_ACK` branch's loops, computing `AckResult`. */
  method Acknowledge(level: Option<ClientLevel.Level>, moves: Moves, ghost lo: int, hi: int, seqNo: int, sx: int, sy: int)
    returns (pending: Moves, px: int, py: int)
    requires 0 <= lo <= hi && (forall s :: s in moves <==> lo < s <= hi)
    requires level.Some? ==> level.value.Complete()
    ensures var a := AckResult(level, moves, lo, hi, seqNo, sx, sy); pending == a.pending && (px, py) == a.pos
  {
    var rejected := seqNo in moves && (moves[seqNo].x != sx || moves[seqNo].y != sy);
    pending := RemoveAcked(moves, seqNo);
    px, py := sx, sy;
    if rejected {
      RejectedAck(level, moves, lo, hi, seqNo, sx, sy);
      pending := map[];
      return;
    }
    AcceptedAck(level, moves, lo, hi, seqNo, sx, sy);
    if pending != map[] && level.Some? {
      px, py := ReplayPending(level.value, pending, AckSettled(lo, hi, seqNo), hi, sx, sy);
    }
  }

  /** An accepted acknowledgement keeps the later moves and replays them when there are some and a level. */
  lemma AcceptedAck(level: Option<ClientLevel.Level>, moves: Moves, lo: int, hi: int, seqNo: int, sx: int, sy: int)
    requires lo <= hi && (forall s :: s in moves <==> lo < s <= hi)
    requires !Rejected(moves, seqNo, sx, sy)
    ensures var a := AckResult(level, moves, lo, hi, seqNo, sx, sy); var rest := Remaining(moves, seqNo);
      a.pending == rest &&
      (level.None? || rest == map[] ==> a.pos == (sx, sy)) &&
      (level.Some? && rest != map[] ==>
        (forall s :: s in rest <==> AckSettled(lo, hi, seqNo) < s <= hi) &&
        a.pos == Replay(level.value, rest, AckSettled(lo, hi, seqNo) + 1, hi, (sx, sy)))
  {
    AckKeys(moves, lo, hi, seqNo);
    var rest := Remaining(moves, seqNo);
    if rest == map[] {
      assert AckSettled(lo, hi, seqNo) + 1 !in rest;
    }
  }

  /**
   * An acknowledgement that confirms a pending move where it was predicted
   * leaves the bot where it was, whenever the pending moves chain from some
   * `start` to the predicted position.
   */
  lemma ConfirmedAck(level: ClientLevel.Level, moves: Moves, lo: int, hi: int, start: (int, int),
                     predicted: (int, int), seqNo: int, sx: int, sy: int)
    requires lo <= hi && (forall s :: s in moves <==> lo < s <= hi)
    requires Chained(level, moves, lo, hi, start, predicted) && seqNo in moves && !Rejected(moves, seqNo, sx, sy)
    ensures AckResult(Some(level), moves, lo, hi, seqNo, sx, sy).pos == predicted
  {
    AckKeys(moves, lo, hi, seqNo);
    assert AckSettled(lo, hi, seqNo) == seqNo;
    ConfirmedAckKeepsPrediction(level, moves, lo, hi, start, predicted, seqNo);
  }

  /** A rejected acknowledgement drops every pending move and puts the bot where the server says. */
  lemma RejectedAck(level: Option<ClientLevel.Level>, moves: Moves, lo: int, hi: int, seqNo: int, sx: int, sy: int)
    requires lo <= hi && (forall s :: s in moves <==> lo < s <= hi)
    requires Rejected(moves, seqNo, sx, sy)
    ensures AckResult(level, moves, lo, hi, seqNo, sx, sy) == Ack(map[], hi, (sx, sy))
  {
  }

  // ---------------------------------------------------------------- the world state

  /** `get_player(player_id)`: the first listed player with that id. */
  function FindPlayer(players: seq<BotPlayer>, id: int): (r: Option<BotPlayer>)
    ensures r.None? <==> forall i :: 0 <= i < |players| ==> players[i].playerId != id
    ensures r.Some? ==> exists i :: (0 <= i < |players| && players[i] == r.value && r.value.playerId == id &&
      forall j :: 0 <= j < i ==> players[j].playerId != id)
    decreases |players|
  {
    if |players| == 0 then None
    else if players[0].playerId == id then Some(players[0])
    else
      var r := FindPlayer(players[1..], id);
      assert forall i :: 0 < i < |players| ==> players[i] == players[1..][i - 1];
      r
  }

  /** The list's first player with id `id` stands at index `i`. */
  lemma FindPlayerAt(players: seq<BotPlayer>, id: int, i: int)
    requires 0 <= i < |players| && players[i].playerId == id
    requires forall j :: 0 <= j < i ==> players[j].playerId != id
    ensures FindPlayer(players, id) == Some(players[i])
  {
    var r := FindPlayer(players, id);
    var k :| 0 <= k < |players| && players[k] == r.value && r.value.playerId == id &&
      forall j :: 0 <= j < k ==> players[j].playerId != id;
    assert !(k < i) && !(i < k);
  }

  function Abs(n: int): nat { if n < 0 then -n else n }

  /** `max(abs(dx), abs(dy))`, the Chebyshev distance. */
  function Chebyshev(dx: int, dy: int): nat { if Abs(dx) < Abs(dy) then Abs(dy) else Abs(dx) }

  /** Another player on the bot's level within `AUDIO_MAX_DISTANCE` tiles. */
  predicate InRange(p: BotPlayer, me: int, level: string, pos: (int, int)) {
    p.playerId != me && p.level == level && Chebyshev(p.x - pos.0, p.y - pos.1) <= AUDIO_MAX_DISTANCE
  }

  /** The ids of the players of `world` in range of the bot `me` at `pos` on `level`. */
  function Nearby(world: seq<BotPlayer>, me: int, level: string, pos: (int, int)): set<int> {
    set i | 0 <= i < |world| && InRange(world[i], me, level, pos) :: world[i].playerId
  }

  lemma NearbySnoc(world: seq<BotPlayer>, i: int, me: int, level: string, pos: (int, int))
    requires 0 <= i < |world|
    ensures Nearby(world[..i + 1], me, level, pos) ==
      Nearby(world[..i], me, level, pos) + (if InRange(world[i], me, level, pos) then {world[i].playerId} else {})
  {
    var a, b := world[..i + 1], world[..i];
    assert forall j :: 0 <= j < i ==> a[j] == b[j];
    assert a[i] == world[i];
  }

  /**
   * An id is nearby exactly when some listed player with that id is in
   * range; in particular the bot itself and players on other levels never
   * are.
   */
  lemma NearbyMembers(world: seq<BotPlayer>, me: int, level: string, pos: (int, int), id: int)
    ensures id in Nearby(world, me, level, pos) <==>
      exists i :: 0 <= i < |world| && world[i].playerId == id && InRange(world[i], me, level, pos)
    ensures id in Nearby(world, me, level, pos) ==> id != me
  {
  }

  /** An offset of more than `AUDIO_MAX_DISTANCE` on one axis alone squares to more than 100. */
  lemma SquareBound(n: int)
    ensures Abs(n) > AUDIO_MAX_DISTANCE ==> n * n > 100
  {
    if Abs(n) > AUDIO_MAX_DISTANCE {
      var a := Abs(n);
      assert n * n == a * a;
      assert a * a >= 11 * a;
    }
  }

  /**
   * The bot's range contains the server's hearing range: whenever the
   * server's volume table gives a non-zero volume for an offset, the offset
   * is within `AUDIO_MAX_DISTANCE` tiles on both axes.
   */
  lemma AudibleIsNearby(table: seq<real>, dx: int, dy: int)
    requires |table| == AudioRouter.MAX_DISTANCE_SQ + 1
    requires AudioRouter.GetVolume(table, dx, dy) != 0.0
    ensures Chebyshev(dx, dy) <= AUDIO_MAX_DISTANCE
  {
    SquareBound(dx);
    SquareBound(dy);
    assert dx * dx >= 0 && dy * dy >= 0;
  }

  /**
   * The converse fails: a player ten tiles away along one axis counts as
   * nearby for the bot, while the server's table gives it volume 0.
   */
  lemma NearbyNotAudible(roots: seq<real>)
    requires AudioRouter.IsRootTable(roots)
    ensures Chebyshev(10, 0) <= AUDIO_MAX_DISTANCE
    ensures AudioRouter.GetVolume(AudioRouter.BuildTable(roots), 10, 0) == 0.0
  {
    AudioRouter.TableShape(roots);
  }

  // ---------------------------------------------------------------- speaking

  /** `int(s0 & 0xFFFF) | (int(s1 & 0xFFFF) << 16)`: the halves do not overlap, so the `|` is a sum. */
  function SourceIdFromSamples(s0: int, s1: int): (id: int)
    ensures 0 <= id < 0x1_0000_0000
  {
    s0 % 0x10000 + (s1 % 0x10000) * 0x10000
  }

  predicate IsInt16(s: int) { -0x8000 <= s < 0x8000 }

  /** An unsigned 16-bit value read back as a signed sample. */
  function Signed16(u: int): (s: int)
    requires 0 <= u < 0x10000
    ensures IsInt16(s) && s % 0x10000 == u
  {
    if u >= 0x8000 then u - 0x10000 else u
  }

  /** The two leading samples that carry the id `id`: its low half, then its high half. */
  function SamplesForId(id: int): (s: (int, int))
    requires 0 <= id < 0x1_0000_0000
    ensures IsInt16(s.0) && IsInt16(s.1)
  {
    (Signed16(id % 0x10000), Signed16(id / 0x10000))
  }

  /** An id written into two samples reads back as itself. */
  lemma SourceIdRoundTrip(id: int)
    requires 0 <= id < 0x1_0000_0000
    ensures SourceIdFromSamples(SamplesForId(id).0, SamplesForId(id).1) == id
  {
    var lo, hi := id % 0x10000, id / 0x10000;
    assert id == lo + hi * 0x10000;
    assert 0 <= hi < 0x10000;
  }

  /** Two signed 16-bit samples are written back by the id they carry. */
  lemma SamplesRoundTrip(s0: int, s1: int)
    requires IsInt16(s0) && IsInt16(s1)
    ensures SamplesForId(SourceIdFromSamples(s0, s1)) == (s0, s1)
  {
    var lo, hi := s0 % 0x10000, s1 % 0x10000;
    var id := SourceIdFromSamples(s0, s1);
    assert id == lo + hi * 0x10000 && 0 <= lo < 0x10000;
    assert id % 0x10000 == lo && id / 0x10000 == hi;
  }

  /** The speakers whose last frame is more than `timeout` seconds older than `now`. */
  function TimedOut(speaking: map<int, real>, now: real, timeout: real): set<int> {
    set id | id in speaking && now - speaking[id] > timeout
  }

  /** The speakers left after the timed-out ones are removed. */
  function StillSpeaking(speaking: map<int, real>, now: real, timeout: real): map<int, real> {
    map id | id in speaking && now - speaking[id] <= timeout :: speaking[id]
  }

  /**
   * A timeout check splits the speakers in two: the ones it reports, and the
   * ones it keeps, each heard within `timeout` of `now`; a second check at the
   * same time reports no one.
   */
  lemma TimeoutPartition(speaking: map<int, real>, now: real, timeout: real)
    ensures TimedOut(speaking, now, timeout) !! StillSpeaking(speaking, now, timeout).Keys
    ensures TimedOut(speaking, now, timeout) + StillSpeaking(speaking, now, timeout).Keys == speaking.Keys
    ensures forall id :: id in StillSpeaking(speaking, now, timeout) ==>
      StillSpeaking(speaking, now, timeout)[id] == speaking[id] && now - speaking[id] <= timeout
    ensures TimedOut(StillSpeaking(speaking, now, timeout), now, timeout) == {}
  {
  }

  /** A frame heard at `now` keeps its speaker through a check at `now`, for any non-negative timeout. */
  lemma JustHeardStays(speaking: map<int, real>, id: int, now: real, timeout: real)
    requires timeout >= 0.0
    ensures id in StillSpeaking(speaking[id := now], now, timeout)
  {
  }

  // ---------------------------------------------------------------- the bot

  class Bot {
    const name: string
    var playerId: int
    var x: int
    var y: int
    var currentLevel: string
    var level: Option<ClientLevel.Level>
    var webrtcConnected: bool
    /** `_position_queue`: None until the bot runs; updates `(seq, x, y)` waiting to be sent. */
    var positionQueue: Option<seq<(int, int, int)>>
    var moveSeq: int
    var pendingMoves: Moves
    var worldState: seq<BotPlayer>
    var previousNearby: set<int>
    /** `_speaking_players`: each speaker's last frame time. */
    var speaking: map<int, real>
    const speakingTimeout: real
    /** The newest sequence number that is no longer pending. */
    ghost var settled: int

    /**
     * The pending moves are exactly the sequence numbers after `settled` up
     * to the last one issued, so they are replayed in sequence order by
     * counting up; the level's rows are complete.
     */
    ghost predicate Valid()
      reads this
    {
      0 <= settled <= moveSeq && (forall s :: s in pendingMoves <==> settled < s <= moveSeq) &&
      (level.Some? ==> level.value.Complete())
    }

    /** A bot that has not connected yet. */
    constructor (name: string)
      ensures Valid() && this.name == name && speakingTimeout == 0.5
      ensures playerId == 0 && x == 0 && y == 0 && currentLevel == "main" && level == None
      ensures !webrtcConnected && positionQueue == None
      ensures moveSeq == 0 && pendingMoves == map[] && worldState == [] && previousNearby == {} && speaking == map[]
    {
      this.name := name;
      playerId, x, y := 0, 0, 0;
      currentLevel := "main";
      level := None;
      webrtcConnected := false;
      positionQueue := None;
      moveSeq := 0;
      pendingMoves := map[];
      worldState := [];
      previousNearby := {};
      speaking := map[];
      speakingTimeout := 0.5;
      settled := 0;
    }

    /** The `SERVER_HELLO` part of `connect`: the id, the spawn position and the level. */
    method ServerHello(id: int, spawnX: int, spawnY: int, grid: ClientLevel.Level, levelName: string)
      requires Valid() && grid.Complete()
      modifies this
      ensures Valid()
      ensures playerId == id && x == spawnX && y == spawnY && level == Some(grid) && currentLevel == levelName
      ensures webrtcConnected == old(webrtcConnected) && positionQueue == old(positionQueue)
      ensures moveSeq == old(moveSeq) && pendingMoves == old(pendingMoves) && settled == old(settled)
      ensures worldState == old(worldState) && previousNearby == old(previousNearby) && speaking == old(speaking)
    {
      playerId, x, y := id, spawnX, spawnY;
      level := Some(grid);
      currentLevel := levelName;
    }

    /**
     * `move(direction)`: refused, with nothing changed, without a level, a
     * WebRTC connection or a position queue, or when the target is not
     * walkable; otherwise the move is numbered, remembered as pending, taken
     * in the prediction and queued for the server.
     */
    method Move(dx: int, dy: int) returns (ok: bool)
      requires Valid()
      modifies this
      ensures Valid()
      ensures ok <==> level.Some? && webrtcConnected && positionQueue.Some? && Walkable(level.value, old(x) + dx, old(y) + dy)
      ensures !ok ==> unchanged(this)
      ensures ok ==>
        moveSeq == old(moveSeq) + 1 && settled == old(settled) &&
        pendingMoves == old(pendingMoves)[moveSeq := PendingMove(dx, dy, old(x) + dx, old(y) + dy)] &&
        x == old(x) + dx && y == old(y) + dy &&
        old(positionQueue).Some? && positionQueue == Some(old(positionQueue).value + [(moveSeq, x, y)])
      ensures playerId == old(playerId) && currentLevel == old(currentLevel) && level == old(level)
      ensures webrtcConnected == old(webrtcConnected)
      ensures worldState == old(worldState) && previousNearby == old(previousNearby) && speaking == old(speaking)
    {
      if level.None? || !webrtcConnected || positionQueue.None? {
        return false;
      }
      var newX, newY := x + dx, y + dy;
      var walkable := level.value.IsWalkable(newX, newY);
      if walkable != Success(true) {
        return false;
      }
      moveSeq := moveSeq + 1;
      var seqNo := moveSeq;
      var m := PendingMove(dx, dy, newX, newY);
      pendingMoves := pendingMoves[seqNo := m];
      x, y := newX, newY;
      positionQueue := Some(positionQueue.value + [(seqNo, newX, newY)]);
      ok := true;
    }

    /**
     * The `POSITION_ACK` branch: the moves up to `seqNo` stop being pending,
     * all of them do when the acknowledged move landed elsewhere than
     * predicted, and the position becomes the server's with the remaining
     * moves replayed on it.
     */
    method HandlePositionAck(seqNo: int, sx: int, sy: int)
      requires Valid()
      modifies this
      ensures Valid()
      ensures var a := AckResult(level, old(pendingMoves), old(settled), old(moveSeq), seqNo, sx, sy);
        pendingMoves == a.pending && settled == a.settled && (x, y) == a.pos
      ensures moveSeq == old(moveSeq) && playerId == old(playerId) && currentLevel == old(currentLevel) && level == old(level)
      ensures webrtcConnected == old(webrtcConnected) && positionQueue == old(positionQueue)
      ensures worldState == old(worldState) && previousNearby == old(previousNearby) && speaking == old(speaking)
    {
      ghost var a := AckResult(level, pendingMoves, settled, moveSeq, seqNo, sx, sy);
      var pending, px, py := Acknowledge(level, pendingMoves, settled, moveSeq, seqNo, sx, sy);
      pendingMoves := pending;
      settled := a.settled;
      x, y := px, py;
    }

    /**
     * `_check_proximity_changes`: the nearby set is recomputed from the
     * world state; the players that entered and those that left range are
     * reported.
     */
    method CheckProximity() returns (entered: set<int>, left: set<int>)
      modifies this
      ensures previousNearby == Nearby(worldState, playerId, currentLevel, (x, y))
      ensures entered == previousNearby - old(previousNearby) && left == old(previousNearby) - previousNearby
      ensures playerId == old(playerId) && x == old(x) && y == old(y) && currentLevel == old(currentLevel)
      ensures level == old(level) && webrtcConnected == old(webrtcConnected) && positionQueue == old(positionQueue)
      ensures moveSeq == old(moveSeq) && pendingMoves == old(pendingMoves) && settled == old(settled)
      ensures worldState == old(worldState) && speaking == old(speaking)
    {
      var world, me, here, pos := worldState, playerId, currentLevel, (x, y);
      var current: set<int> := {};
      for i := 0 to |world|
        invariant current == Nearby(world[..i], me, here, pos)
        modifies {}
      {
        var p := world[i];
        NearbySnoc(world, i, me, here, pos);
        if p.playerId != me && p.level == here {
          var dx, dy := Abs(p.x - pos.0), Abs(p.y - pos.1);
          var distance := if dx < dy then dy else dx;
          if distance <= AUDIO_MAX_DISTANCE {
            current := current + {p.playerId};
          }
        }
      }
      assert world[..|world|] == world;
      entered := current - previousNearby;
      left := previousNearby - current;
      previousNearby := current;
    }

    /**
     * The `WORLD_STATE` branch: the list is kept, the bot's own entry moves
     * it only when no move is pending, and proximity is checked against the
     * new list.
     */
    method HandleWorldState(players: seq<BotPlayer>) returns (entered: set<int>, left: set<int>)
      requires Valid()
      modifies this
      ensures Valid()
      ensures worldState == players
      ensures old(pendingMoves) != map[] || FindPlayer(players, playerId).None? ==> x == old(x) && y == old(y)
      ensures old(pendingMoves) == map[] && FindPlayer(players, playerId).Some? ==>
        x == FindPlayer(players, playerId).value.x && y == FindPlayer(players, playerId).value.y
      ensures previousNearby == Nearby(players, playerId, currentLevel, (x, y))
      ensures entered == previousNearby - old(previousNearby) && left == old(previousNearby) - previousNearby
      ensures playerId == old(playerId) && currentLevel == old(currentLevel) && level == old(level)
      ensures webrtcConnected == old(webrtcConnected) && positionQueue == old(positionQueue)
      ensures moveSeq == old(moveSeq) && pendingMoves == old(pendingMoves) && speaking == old(speaking)
    {
      worldState := players;
      if pendingMoves == map[] {
        var i: nat := 0;
        while i < |players|
          invariant 0 <= i <= |players| && x == old(x) && y == old(y)
          invariant forall j :: 0 <= j < i ==> players[j].playerId != playerId
          decreases |players| - i
        {
          if players[i].playerId == playerId {
            FindPlayerAt(players, playerId, i);
            x, y := players[i].x, players[i].y;
            break;
          }
          i := i + 1;
        }
      }
      entered, left := CheckProximity();
    }

    /**
     * The `DOOR_TRANSITION` branch: the bot stands at the spawn point on the
     * target level and nothing is pending any more; the level grid is not
     * replaced.
     */
    method HandleDoorTransition(targetLevel: string, spawnX: int, spawnY: int)
      requires Valid()
      modifies this
      ensures Valid()
      ensures x == spawnX && y == spawnY && currentLevel == targetLevel && pendingMoves == map[]
      ensures moveSeq == old(moveSeq) && playerId == old(playerId) && level == old(level)
      ensures webrtcConnected == old(webrtcConnected) && positionQueue == old(positionQueue)
      ensures worldState == old(worldState) && previousNearby == old(previousNearby) && speaking == old(speaking)
    {
      x, y := spawnX, spawnY;
      currentLevel := targetLevel;
      pendingMoves := map[];
      settled := moveSeq;
    }

    /**
     * The speaking bookkeeping of `_handle_incoming_audio` for one frame: the
     * source id comes from the first two samples of a 16-bit frame of at
     * least two samples, and is 0 otherwise; 0 is a silence frame and changes
     * nothing. A source not already speaking starts speaking.
     */
    method NoteAudio(samples: seq<int>, isInt16: bool, now: real) returns (source: int, starts: bool)
      modifies this
      ensures source == if isInt16 && |samples| >= 2 then SourceIdFromSamples(samples[0], samples[1]) else 0
      ensures source == 0 ==> !starts && speaking == old(speaking)
      ensures source != 0 ==> speaking == old(speaking)[source := now] && (starts <==> source !in old(speaking))
      ensures playerId == old(playerId) && x == old(x) && y == old(y) && currentLevel == old(currentLevel)
      ensures level == old(level) && webrtcConnected == old(webrtcConnected) && positionQueue == old(positionQueue)
      ensures moveSeq == old(moveSeq) && pendingMoves == old(pendingMoves) && settled == old(settled)
      ensures worldState == old(worldState) && previousNearby == old(previousNearby)
    {
      source := if isInt16 && |samples| >= 2 then SourceIdFromSamples(samples[0], samples[1]) else 0;
      if source == 0 {
        return source, false;
      }
      var wasSpeaking := source in speaking;
      speaking := speaking[source := now];
      starts := !wasSpeaking;
    }

    /**
     * One round of `_check_speaking_timeouts`: the speakers silent for more
     * than the timeout are collected, then removed.
     */
    method CheckSpeakingTimeouts(now: real) returns (stopped: set<int>)
      modifies this
      ensures stopped == TimedOut(old(speaking), now, speakingTimeout)
      ensures speaking == StillSpeaking(old(speaking), now, speakingTimeout)
      ensures playerId == old(playerId) && x == old(x) && y == old(y) && currentLevel == old(currentLevel)
      ensures level == old(level) && webrtcConnected == old(webrtcConnected) && positionQueue == old(positionQueue)
      ensures moveSeq == old(moveSeq) && pendingMoves == old(pendingMoves) && settled == old(settled)
      ensures worldState == old(worldState) && previousNearby == old(previousNearby)
    {
      var before := speaking;
      var collected: set<int> := {};
      var rest := before.Keys;
      while rest != {}
        invariant rest <= before.Keys
        modifies {}
        invariant forall id :: id in collected <==> id in before && id !in rest && now - before[id] > speakingTimeout
        decreases rest
      {
        var id := Collections.Pick(rest);
        if now - before[id] > speakingTimeout {
          collected := collected + {id};
        }
        rest := rest - {id};
      }
      assert forall id :: id in collected <==> id in TimedOut(before, now, speakingTimeout);
      stopped := collected;
      var remaining := before;
      var toDelete := collected;
      while toDelete != {}
        invariant toDelete <= collected
        modifies {}
        invariant forall id :: id in remaining <==> id in before && (id !in collected || id in toDelete)
        invariant forall id :: id in remaining ==> remaining[id] == before[id]
        decreases toDelete
      {
        var id := Collections.Pick(toDelete);
        remaining := remaining - {id};
        toDelete := toDelete - {id};
      }
      ghost var still := StillSpeaking(before, now, speakingTimeout);
      assert forall id :: id in remaining <==> id in still;
      assert forall id :: id in remaining ==> remaining[id] == still[id];
      assert remaining.Keys == still.Keys;
      speaking := remaining;
    }
  }
}
