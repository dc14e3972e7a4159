/**
 * The server's per-tick reconciliation of outbound audio tracks
 * (`_route_all_audio` and `_setup_initial_tracks` in
 * rogue_talk/server/game_server.py). The players are the server's map
 * from id to player record; each phase is a method over that map, and
 * what a tick achieves is stated as predicates relating the map before
 * and after it.
 */
module AudioRouting {
  import opened Wrappers
  import opened WebrtcTracks
  import opened ServerPlayer
  import opened AudioRouter
  import Collections

  type Players = map<int, Player>

  predicate TracksValid(p: Player) {
    forall k :: k in p.outboundTracks ==> OutboundValid(p.outboundTracks[k])
  }

  /** Records are keyed by their ids and every outbound queue is within its bound. */
  predicate PlayersValid(players: Players) {
    KeyedById(players) && forall id :: id in players ==> TracksValid(players[id])
  }

  /** Recipient `r` should carry a track from source `s`: two different connected players, `r` within hearing. */
  predicate Hears(table: seq<real>, players: Players, r: int, s: int)
    requires |table| == MAX_DISTANCE_SQ + 1 && r in players && s in players
  {
    r != s && players[r].webrtcConnected && players[s].webrtcConnected &&
    VolumeFrom(table, players[s], players[r]) > 0.0
  }

  /** `sources_in_range[r]`: the sources recipient `r` should have tracks from. */
  function InRange(table: seq<real>, players: Players, r: int): set<int>
    requires |table| == MAX_DISTANCE_SQ + 1 && r in players
  {
    set s | s in players && Hears(table, players, r, s)
  }

  /** The track a recipient has from `s`, or the one that would be created for it. */
  function TrackOr(p: Player, s: int): OutboundTrackState {
    if s in p.outboundTracks then p.outboundTracks[s] else NewOutboundTrack(s)
  }

  // ---------------------------------------------------------------- phase 1: who should hear whom

  /** One source's pass over the recipients, adding the source to each recipient that hears it. */
  method AddSource(table: seq<real>, players: Players, inRange: map<int, set<int>>, s: int)
      returns (r: map<int, set<int>>)
    requires |table| == MAX_DISTANCE_SQ + 1 && KeyedById(players)
    requires s in players && players[s].webrtcConnected && inRange.Keys == players.Keys
    ensures r.Keys == inRange.Keys
    ensures forall id :: id in r ==> r[id] == if Hears(table, players, id, s) then inRange[id] + {s} else inRange[id]
  {
    r := inRange;
    var source := players[s];
    var rest := players.Keys;
    while rest != {}
      invariant rest <= players.Keys && r.Keys == inRange.Keys
      invariant forall id :: id in r ==>
        r[id] == if id !in rest && Hears(table, players, id, s) then inRange[id] + {s} else inRange[id]
      decreases rest
    {
      var id := Collections.Pick(rest);
      var recipient := players[id];
      if recipient.id != source.id && recipient.webrtcConnected {
        var volume := GetVolume(table, recipient.x - source.x, recipient.y - source.y);
        if volume > 0.0 && recipient.id in r {
          r := r[recipient.id := r[recipient.id] + {source.id}];
        }
      }
      rest := rest - {id};
    }
  }

  /** The first phase: `sources_in_range` for every player. */
  method SourcesInRange(table: seq<real>, players: Players) returns (inRange: map<int, set<int>>)
    requires |table| == MAX_DISTANCE_SQ + 1 && KeyedById(players)
    ensures inRange.Keys == players.Keys
    ensures forall id :: id in inRange ==> inRange[id] == InRange(table, players, id)
  {
    inRange := map id | id in players :: {};
    var rest := players.Keys;
    while rest != {}
      invariant rest <= players.Keys && inRange.Keys == players.Keys
      invariant forall id, s :: id in inRange ==>
        (s in inRange[id] <==> s in players && s !in rest && Hears(table, players, id, s))
      decreases rest
    {
      var s := Collections.Pick(rest);
      if players[s].webrtcConnected {
        inRange := AddSource(table, players, inRange, s);
      }
      rest := rest - {s};
    }
    forall id | id in inRange ensures inRange[id] == InRange(table, players, id) {
      assert forall s :: s in inRange[id] <==> s in InRange(table, players, id);
    }
  }

  // ---------------------------------------------------------------- phase 2: create missing tracks

  /** `p` with a fresh track from each of `sources` it has none from, flagged when any was added. */
  function WithTracks(p: Player, sources: set<int>): (r: Player)
    ensures r.outboundTracks.Keys == p.outboundTracks.Keys + sources
    ensures forall k :: k in r.outboundTracks ==> r.outboundTracks[k] == TrackOr(p, k)
    ensures r.needsRenegotiation <==> p.needsRenegotiation || !(sources <= p.outboundTracks.Keys)
    ensures r == p.(outboundTracks := r.outboundTracks, needsRenegotiation := r.needsRenegotiation)
    ensures TracksValid(p) ==> TracksValid(r)
  {
    p.(outboundTracks := map k | k in p.outboundTracks.Keys + sources :: TrackOr(p, k),
       needsRenegotiation := p.needsRenegotiation || !(sources <= p.outboundTracks.Keys))
  }

  /** Tracks added in two batches are the tracks added at once. */
  lemma WithTracksUnion(p: Player, a: set<int>, b: set<int>)
    ensures WithTracks(WithTracks(p, a), b) == WithTracks(p, a + b)
  {
    var q := WithTracks(WithTracks(p, a), b);
    assert q.outboundTracks == WithTracks(p, a + b).outboundTracks;
  }

  /** The track from `s`, created and flagged when missing. */
  method Link(p: Player, s: int) returns (q: Player)
    ensures q == WithTracks(p, {s})
  {
    q := p;
    if s !in p.outboundTracks {
      q := p.(outboundTracks := p.outboundTracks[s := NewOutboundTrack(s)], needsRenegotiation := true);
    }
    assert q.outboundTracks == WithTracks(p, {s}).outboundTracks;
  }

  /** The inner loop of the second phase, for one recipient. */
  method AddTracks(p: Player, sources: set<int>) returns (r: Player)
    ensures r == WithTracks(p, sources)
  {
    r := p;
    var rest := sources;
    assert WithTracks(p, {}) == p by {
      assert WithTracks(p, {}).outboundTracks == p.outboundTracks;
    }
    while rest != {}
      invariant rest <= sources
      invariant r == WithTracks(p, sources - rest)
      decreases rest
    {
      var s := Collections.Pick(rest);
      r := Link(r, s);
      WithTracksUnion(p, sources - rest, {s});
      assert sources - (rest - {s}) == (sources - rest) + {s};
      rest := rest - {s};
    }
  }

  /** The second phase: every connected recipient gets a track from each source in range. */
  method CreateTracks(players: Players, inRange: map<int, set<int>>) returns (r: Players)
    requires inRange.Keys == players.Keys
    ensures r.Keys == players.Keys
    ensures forall id :: id in r ==>
      r[id] == if players[id].webrtcConnected then WithTracks(players[id], inRange[id]) else players[id]
  {
    r := players;
    var rest := players.Keys;
    while rest != {}
      invariant rest <= players.Keys && r.Keys == players.Keys
      invariant forall id :: id in r ==>
        r[id] == if id !in rest && players[id].webrtcConnected then WithTracks(players[id], inRange[id]) else players[id]
      decreases rest
    {
      var id := Collections.Pick(rest);
      if r[id].webrtcConnected {
        var p := AddTracks(r[id], inRange[id]);
        r := r[id := p];
      }
      rest := rest - {id};
    }
  }

  // ---------------------------------------------------------------- phase 3: route the frames

  /** One scaled frame sent on recipient `p`'s track from `s`, the track made and flagged first if missing. */
  function DeliverFrame(p: Player, s: int, f: Frame): (r: Player)
    requires TracksValid(p)
    ensures TracksValid(r)
  {
    p.(outboundTracks := p.outboundTracks[s := Sent(TrackOr(p, s), f)],
       needsRenegotiation := p.needsRenegotiation || s !in p.outboundTracks)
  }

  function ScaleAll(frames: seq<Frame>, volume: real): (r: seq<Frame>)
    ensures |r| == |frames| && forall i :: 0 <= i < |frames| ==> r[i] == Scale(frames[i], volume)
  {
    seq(|frames|, i requires 0 <= i < |frames| => Scale(frames[i], volume))
  }

  /** `frames`, scaled by `volume`, delivered to `p` one after another. */
  function Delivered(p: Player, s: int, frames: seq<Frame>, volume: real): (r: Player)
    requires TracksValid(p)
    ensures TracksValid(r)
    decreases |frames|
  {
    if |frames| == 0 then p
    else DeliverFrame(Delivered(p, s, frames[..|frames| - 1], volume), s, Scale(frames[|frames| - 1], volume))
  }

  lemma {:induction false} SendAllSnoc(t: OutboundTrackState, fs: seq<Frame>, f: Frame)
    requires OutboundValid(t)
    ensures SendAll(t, fs + [f]) == Sent(SendAll(t, fs), f)
    decreases |fs|
  {
    if fs == [] {
      assert SendAll(Sent(t, f), []) == Sent(t, f);
    } else {
      assert (fs + [f])[1..] == fs[1..] + [f];
      SendAllSnoc(Sent(t, fs[0]), fs[1..], f);
    }
  }

  /** Delivering frames from `s` changes only the track from `s` and the flag, which it raises when that track is new. */
  lemma {:induction false} DeliveredShape(p: Player, s: int, frames: seq<Frame>, volume: real)
    requires TracksValid(p) && frames != []
    ensures var r := Delivered(p, s, frames, volume);
      r.outboundTracks.Keys == p.outboundTracks.Keys + {s} &&
      (forall k :: k in p.outboundTracks && k != s ==> r.outboundTracks[k] == p.outboundTracks[k]) &&
      (r.needsRenegotiation <==> p.needsRenegotiation || s !in p.outboundTracks) &&
      r == p.(outboundTracks := r.outboundTracks, needsRenegotiation := r.needsRenegotiation)
    decreases |frames|
  {
    var n := |frames|;
    if n > 1 {
      DeliveredShape(p, s, frames[..n - 1], volume);
    }
  }

  /** The track from `s` has been sent every frame, scaled, in order. */
  lemma {:induction false} DeliveredTrack(p: Player, s: int, frames: seq<Frame>, volume: real)
    requires TracksValid(p) && frames != []
    ensures s in Delivered(p, s, frames, volume).outboundTracks
    ensures Delivered(p, s, frames, volume).outboundTracks[s] == SendAll(TrackOr(p, s), ScaleAll(frames, volume))
    decreases |frames|
  {
    var n := |frames|;
    var init := frames[..n - 1];
    var g := Scale(frames[n - 1], volume);
    var t := TrackOr(p, s);
    if n == 1 {
      assert ScaleAll(frames, volume) == [g];
      assert Delivered(p, s, frames, volume) == DeliverFrame(p, s, g);
      assert SendAll(t, [g]) == SendAll(Sent(t, g), []);
    } else {
      DeliveredTrack(p, s, init, volume);
      var q := Delivered(p, s, init, volume);
      assert Delivered(p, s, frames, volume) == DeliverFrame(q, s, g);
      assert TrackOr(q, s) == SendAll(t, ScaleAll(init, volume));
      SendAllSnoc(t, ScaleAll(init, volume), g);
      assert ScaleAll(init, volume) + [g] == ScaleAll(frames, volume);
    }
  }

  /** Sending one frame to one recipient, as the inner loop does. */
  method SendOne(p: Player, s: int, f: Frame) returns (q: Player)
    requires TracksValid(p)
    ensures q == DeliverFrame(p, s, f)
  {
    q := p;
    var track: OutboundTrackState;
    if s in q.outboundTracks {
      track := q.outboundTracks[s];
    } else {
      track := NewOutboundTrack(s);
      q := q.(outboundTracks := q.outboundTracks[s := track], needsRenegotiation := true);
    }
    q := q.(outboundTracks := q.outboundTracks[s := Sent(track, f)]);
    assert q.outboundTracks == p.outboundTracks[s := Sent(TrackOr(p, s), f)];
  }

  /** The recipients named in `rs` are players with valid tracks, each named once, and not the source. */
  predicate RecipientsOk(players: Players, s: int, rs: Recipients) {
    NoDupIds(rs) && s !in Ids(rs) &&
    forall j :: 0 <= j < |rs| ==> rs[j].0 in players && TracksValid(players[rs[j].0])
  }

  /** What a recipient `(id, volume)` of source `s` becomes when frame `f` is sent to it. */
  function SentTo(p: Player, s: int, f: Frame, volume: real): Player
    requires TracksValid(p)
  {
    if p.webrtcConnected then DeliverFrame(p, s, Scale(f, volume)) else p
  }

  /** The first `i` recipients have been sent the frame, and nobody else has changed. */
  ghost predicate SendProgress(players: Players, s: int, f: Frame, rs: Recipients, r: Players, i: nat)
    requires RecipientsOk(players, s, rs)
  {
    i <= |rs| && r.Keys == players.Keys &&
    (forall j :: 0 <= j < i ==> r[rs[j].0] == SentTo(players[rs[j].0], s, f, rs[j].1)) &&
    (forall j :: i <= j < |rs| ==> r[rs[j].0] == players[rs[j].0]) &&
    (forall id :: id in players && id !in Ids(rs) ==> r[id] == players[id])
  }

  lemma SendNext(players: Players, s: int, f: Frame, rs: Recipients, r: Players, i: nat)
    requires RecipientsOk(players, s, rs) && SendProgress(players, s, f, rs, r, i) && i < |rs|
    ensures r[rs[i].0] == players[rs[i].0]
    ensures SendProgress(players, s, f, rs, r[rs[i].0 := SentTo(players[rs[i].0], s, f, rs[i].1)], i + 1)
  {
    var r2 := r[rs[i].0 := SentTo(players[rs[i].0], s, f, rs[i].1)];
    forall j | 0 <= j < |rs| && j != i ensures r2[rs[j].0] == r[rs[j].0] {
      assert rs[j].0 != rs[i].0;
    }
    forall id | id in players && id !in Ids(rs) ensures r2[id] == players[id] {
      assert id != rs[i].0;
    }
  }

  /** One frame of source `s` to each connected recipient, scaled by that recipient's volume. */
  method SendFrame(players: Players, s: int, f: Frame, rs: Recipients) returns (r: Players)
    requires RecipientsOk(players, s, rs)
    ensures r.Keys == players.Keys
    ensures forall j :: 0 <= j < |rs| ==>
      r[rs[j].0] == if players[rs[j].0].webrtcConnected then DeliverFrame(players[rs[j].0], s, Scale(f, rs[j].1))
                    else players[rs[j].0]
    ensures forall id :: id in players && id !in Ids(rs) ==> r[id] == players[id]
  {
    r := players;
    var i: nat := 0;
    while i < |rs|
      invariant SendProgress(players, s, f, rs, r, i)
    {
      var (rid, volume) := rs[i];
      SendNext(players, s, f, rs, r, i);
      var recipient := r[rid];
      if recipient.webrtcConnected {
        recipient := SendOne(recipient, s, Scale(f, volume));
        r := r[rid := recipient];
      }
      i := i + 1;
    }
  }

  /** `while relay.get_audio_frame() is not None: pass` */
  method DrainRelay(relay: RelayState) returns (r: RelayState)
    ensures r == Drained(relay)
  {
    r := relay;
    while true
      invariant r == relay.(queue := r.queue)
      decreases |r.queue|
    {
      var (next, frame) := RelayGetFrame(r);
      r := next;
      if frame.None? {
        break;
      }
    }
  }

  /** The frame loop after `k` of the source's queued frames have gone out. */
  ghost predicate ForwardProgress(players: Players, s: int, rs: Recipients, k: nat, r: Players)
    requires s in players && players[s].audioRelay.Some? && RecipientsOk(players, s, rs)
  {
    var relay0 := players[s].audioRelay.value;
    var frames := relay0.queue;
    k <= |frames| && r.Keys == players.Keys &&
    r[s] == players[s].(audioRelay := Some(relay0.(queue := frames[k..]))) &&
    RecipientsOk(r, s, rs) &&
    (forall j :: 0 <= j < |rs| ==>
      r[rs[j].0] == if players[rs[j].0].webrtcConnected then Delivered(players[rs[j].0], s, frames[..k], rs[j].1)
                    else players[rs[j].0]) &&
    (forall id :: id in players && id != s && id !in Ids(rs) ==> r[id] == players[id])
  }

  lemma ForwardNext(players: Players, s: int, rs: Recipients, k: nat, r: Players, r2: Players)
    requires s in players && players[s].audioRelay.Some? && RecipientsOk(players, s, rs)
    requires ForwardProgress(players, s, rs, k, r) && k < |players[s].audioRelay.value.queue|
    requires var f := players[s].audioRelay.value.queue[k];
      r2.Keys == r.Keys &&
      (forall j :: 0 <= j < |rs| ==>
        r2[rs[j].0] == if r[rs[j].0].webrtcConnected then DeliverFrame(r[rs[j].0], s, Scale(f, rs[j].1)) else r[rs[j].0]) &&
      (forall id :: id in r && id !in Ids(rs) ==> r2[id] == r[id])
    ensures ForwardProgress(players, s, rs, k + 1, r2[s := r[s].(audioRelay := Some(r[s].audioRelay.value.(queue := players[s].audioRelay.value.queue[k + 1..])))])
  {
    ForwardRecipientsNext(players, s, rs, k, r, r2);
  }

  /** The recipients' part of `ForwardNext`: each connected one has now received frame `k` as well. */
  lemma ForwardRecipientsNext(players: Players, s: int, rs: Recipients, k: nat, r: Players, r2: Players)
    requires s in players && players[s].audioRelay.Some? && RecipientsOk(players, s, rs)
    requires ForwardProgress(players, s, rs, k, r) && k < |players[s].audioRelay.value.queue|
    requires var f := players[s].audioRelay.value.queue[k];
      r2.Keys == r.Keys &&
      forall j :: 0 <= j < |rs| ==>
        r2[rs[j].0] == if r[rs[j].0].webrtcConnected then DeliverFrame(r[rs[j].0], s, Scale(f, rs[j].1)) else r[rs[j].0]
    ensures forall j :: 0 <= j < |rs| ==>
      r2[rs[j].0] == if players[rs[j].0].webrtcConnected then Delivered(players[rs[j].0], s, players[s].audioRelay.value.queue[..k + 1], rs[j].1)
                     else players[rs[j].0]
  {
    var frames := players[s].audioRelay.value.queue;
    assert frames[..k + 1][..k] == frames[..k];
    forall j | 0 <= j < |rs|
      ensures r2[rs[j].0] == if players[rs[j].0].webrtcConnected then Delivered(players[rs[j].0], s, frames[..k + 1], rs[j].1)
                             else players[rs[j].0]
    {
      var id := rs[j].0;
      if players[id].webrtcConnected {
        if k > 0 {
          DeliveredShape(players[id], s, frames[..k], rs[j].1);
        }
      }
    }
  }

  /**
   * The frame loop for a source with recipients: every queued frame is
   * taken from the relay, oldest first, and sent to each connected
   * recipient.
   */
  method Forward(players: Players, s: int, rs: Recipients) returns (r: Players)
    requires s in players && players[s].audioRelay.Some? && RecipientsOk(players, s, rs)
    ensures r.Keys == players.Keys
    ensures r[s] == players[s].(audioRelay := Some(Drained(players[s].audioRelay.value)))
    ensures forall j :: 0 <= j < |rs| ==>
      r[rs[j].0] == if players[rs[j].0].webrtcConnected
                    then Delivered(players[rs[j].0], s, players[s].audioRelay.value.queue, rs[j].1)
                    else players[rs[j].0]
    ensures forall id :: id in players && id != s && id !in Ids(rs) ==> r[id] == players[id]
  {
    ghost var frames := players[s].audioRelay.value.queue;
    r := players;
    ghost var k: nat := 0;
    while true
      invariant ForwardProgress(players, s, rs, k, r)
      decreases |frames| - k
    {
      var (relay, frame) := RelayGetFrame(r[s].audioRelay.value);
      if frame.None? {
        r := r[s := r[s].(audioRelay := Some(relay))];
        break;
      }
      ghost var before := r;
      var sent := SendFrame(r, s, frame.value, rs);
      r := sent[s := r[s].(audioRelay := Some(relay))];
      ForwardNext(players, s, rs, k, before, sent);
      k := k + 1;
    }
    assert frames[..k] == frames;
  }

  /** A source takes part in the frame phase when it is connected and has a relay. */
  predicate Active(p: Player) {
    p.webrtcConnected && p.audioRelay.Some?
  }

  /** A source that has frames to forward: active, not muted, with a non-empty queue. */
  predicate Speaks(p: Player) {
    Active(p) && !p.isMuted && p.audioRelay.value.queue != []
  }

  /** The relay once the frame phase is over: drained for an active source, otherwise as it was. */
  function RelayAfter(p: Player): Option<RelayState> {
    if Active(p) then Some(Drained(p.audioRelay.value)) else p.audioRelay
  }

  /**
   * What routing source `s` does to the players: the source's relay is
   * drained; each connected recipient in `rs` is delivered the queued
   * frames at its listed volume; every other player is untouched. The
   * list is empty for a muted or inactive source; otherwise it names
   * every other player at volume > 0, each at a volume within 0.01 of
   * what it hears.
   */
  ghost predicate SourceRouted(table: seq<real>, players: Players, s: int, rs: Recipients, r: Players)
    requires |table| == MAX_DISTANCE_SQ + 1 && s in players
  {
    r.Keys == players.Keys &&
    r[s] == players[s].(audioRelay := RelayAfter(players[s])) &&
    ((!Active(players[s]) || players[s].isMuted) ==> rs == []) &&
    RecipientsOk(players, s, rs) &&
    (forall j :: 0 <= j < |rs| ==> Abs(VolumeFrom(table, players[s], players[rs[j].0]) - rs[j].1) <= 0.01) &&
    (Active(players[s]) && !players[s].isMuted ==>
      forall id :: id in players && id != s && VolumeFrom(table, players[s], players[id]) > 0.0 ==> id in Ids(rs)) &&
    (forall j :: 0 <= j < |rs| ==>
      r[rs[j].0] == if players[rs[j].0].webrtcConnected
                    then Delivered(players[rs[j].0], s, players[s].audioRelay.value.queue, rs[j].1)
                    else players[rs[j].0]) &&
    (forall id :: id in players && id != s && id !in Ids(rs) ==> r[id] == players[id])
  }

  /**
   * One iteration of the frame phase: a muted source, or one whose
   * recipient list comes back empty, only has its relay drained; any
   * other active source forwards its queued frames.
   */
  method RouteSource(table: seq<real>, cache: RecipientCache, players: Players, s: int) returns (r: Players, rs: Recipients)
    requires |table| == MAX_DISTANCE_SQ + 1 && PlayersValid(players) && s in players && cache.Valid()
    modifies cache
    ensures cache.Valid()
    ensures SourceRouted(table, players, s, rs, r)
  {
    r, rs := players, [];
    var source := players[s];
    if !source.webrtcConnected || source.audioRelay.None? {
      return;
    }
    if source.isMuted {
      var drained := DrainRelay(source.audioRelay.value);
      r := players[s := source.(audioRelay := Some(drained))];
      return;
    }
    rs := cache.GetAudioRecipients(table, source, players);
    HitIsClose(table, source, players, rs);
    if rs == [] {
      var drained := DrainRelay(source.audioRelay.value);
      r := players[s := source.(audioRelay := Some(drained))];
      return;
    }
    r := Forward(players, s, rs);
  }

  /** Fields other than the relay, the tracks and the flag are as they were. */
  predicate SameRecord(p: Player, q: Player) {
    q == p.(audioRelay := q.audioRelay, outboundTracks := q.outboundTracks, needsRenegotiation := q.needsRenegotiation)
  }

  /** Tracks were only added, never without the flag, and the flag was not cleared. */
  predicate TracksGrown(p: Player, q: Player) {
    p.outboundTracks.Keys <= q.outboundTracks.Keys &&
    (p.needsRenegotiation ==> q.needsRenegotiation) &&
    (q.outboundTracks.Keys != p.outboundTracks.Keys ==> q.needsRenegotiation)
  }

  /** The track from `k` is as it was, present or absent. */
  predicate SameTrack(p: Player, q: Player, k: int) {
    (k in p.outboundTracks <==> k in q.outboundTracks) &&
    (k in p.outboundTracks ==> q.outboundTracks[k] == p.outboundTracks[k])
  }

  /**
   * Recipient `id` has been sent all the frames source `k` had queued, in
   * order, on its track from `k`, scaled by a volume within 0.01 of what
   * it hears.
   */
  ghost predicate Forwarded(table: seq<real>, before: Players, after: Players, id: int, k: int)
    requires |table| == MAX_DISTANCE_SQ + 1 && id in before && k in before && id in after
    requires before[k].audioRelay.Some? && TracksValid(before[id])
  {
    k in after[id].outboundTracks &&
    exists v: real :: Abs(v - VolumeFrom(table, before[k], before[id])) <= 0.01 &&
      after[id].outboundTracks[k] == SendAll(TrackOr(before[id], k), ScaleAll(before[k].audioRelay.value.queue, v))
  }

  /** Player `id` during the frame phase, with the sources in `rest` still to come. */
  ghost predicate ProgressAt(table: seq<real>, players: Players, rest: set<int>, r: Players, id: int)
    requires |table| == MAX_DISTANCE_SQ + 1 && PlayersValid(players) && id in players && id in r
  {
    SameRecord(players[id], r[id]) && TracksGrown(players[id], r[id]) && TracksValid(r[id]) &&
    r[id].audioRelay == (if id in rest then players[id].audioRelay else RelayAfter(players[id])) &&
    (!players[id].webrtcConnected ==> r[id] == players[id]) &&
    (forall k :: k !in players || k in rest || !Speaks(players[k]) ==> SameTrack(players[id], r[id], k)) &&
    (forall k :: k in players && k !in rest && Hears(table, players, id, k) && Speaks(players[k]) ==>
      Forwarded(table, players, r, id, k))
  }

  ghost predicate RoutingProgress(table: seq<real>, players: Players, rest: set<int>, r: Players)
    requires |table| == MAX_DISTANCE_SQ + 1 && PlayersValid(players)
  {
    rest <= players.Keys && r.Keys == players.Keys &&
    forall id :: id in players ==> ProgressAt(table, players, rest, r, id)
  }

  lemma ProgressValid(table: seq<real>, players: Players, rest: set<int>, r: Players)
    requires |table| == MAX_DISTANCE_SQ + 1 && PlayersValid(players)
    requires RoutingProgress(table, players, rest, r)
    ensures PlayersValid(r)
    ensures forall id :: id in r ==>
      r[id].x == players[id].x && r[id].y == players[id].y &&
      r[id].webrtcConnected == players[id].webrtcConnected && r[id].isMuted == players[id].isMuted
  {
    forall id | id in r ensures ProgressAt(table, players, rest, r, id) { }
  }

  /** What the rest of the frame phase relies on about one player so far. */
  lemma ProgressFacts(table: seq<real>, players: Players, rest: set<int>, r: Players, id: int)
    requires |table| == MAX_DISTANCE_SQ + 1 && PlayersValid(players) && id in players
    requires RoutingProgress(table, players, rest, r)
    ensures id in r && ProgressAt(table, players, rest, r, id)
    ensures SameRecord(players[id], r[id]) && TracksValid(r[id])
    ensures id in rest ==> r[id].audioRelay == players[id].audioRelay
  {
  }

  /** A player the source did not touch: only the source's own track entry in the bookkeeping moves on. */
  lemma StepUntouched(table: seq<real>, players: Players, rest: set<int>, r: Players, s: int, r2: Players, id: int)
    requires |table| == MAX_DISTANCE_SQ + 1 && PlayersValid(players) && s in rest && id in players
    requires id in r && id in r2 && id != s && r2[id] == r[id]
    requires ProgressAt(table, players, rest, r, id)
    requires !(s in players && Hears(table, players, id, s) && Speaks(players[s]))
    ensures ProgressAt(table, players, rest - {s}, r2, id)
  {
    forall k | k in players && k !in rest - {s} && Hears(table, players, id, k) && Speaks(players[k])
      ensures Forwarded(table, players, r2, id, k)
    {
      assert Forwarded(table, players, r, id, k);
    }
  }

  /** The source itself: its relay is drained and nothing else about it changes. */
  lemma StepSelf(table: seq<real>, players: Players, rest: set<int>, r: Players, r2: Players, s: int)
    requires |table| == MAX_DISTANCE_SQ + 1 && PlayersValid(players) && s in rest && s in players
    requires s in r && s in r2 && r2[s] == r[s].(audioRelay := RelayAfter(players[s]))
    requires ProgressAt(table, players, rest, r, s)
    ensures ProgressAt(table, players, rest - {s}, r2, s)
  {
    forall k | k in players && k !in rest - {s} && Hears(table, players, s, k) && Speaks(players[k])
      ensures Forwarded(table, players, r2, s, k)
    {
      assert Forwarded(table, players, r, s, k);
    }
  }

  /** A connected recipient of a speaking source: the queued frames arrive on its track from the source. */
  lemma StepRecipient(table: seq<real>, players: Players, rest: set<int>, r: Players, s: int, v: real, r2: Players, id: int)
    requires |table| == MAX_DISTANCE_SQ + 1 && PlayersValid(players) && s in rest && s in players && id in players
    requires id in r && id in r2 && id != s && Speaks(players[s]) && TracksValid(r[id]) && players[id].webrtcConnected
    requires Abs(VolumeFrom(table, players[s], players[id]) - v) <= 0.01
    requires r2[id] == Delivered(r[id], s, players[s].audioRelay.value.queue, v)
    requires ProgressAt(table, players, rest, r, id)
    ensures ProgressAt(table, players, rest - {s}, r2, id)
  {
    RecipientKept(table, players, rest, r, s, v, r2[id], id);
    forall k | k in players && k !in rest - {s} && Hears(table, players, id, k) && Speaks(players[k])
      ensures Forwarded(table, players, r2, id, k)
    {
      if k != s {
        assert Forwarded(table, players, r, id, k);
        assert r2[id].outboundTracks[k] == r[id].outboundTracks[k];
      } else {
        assert Abs(v - VolumeFrom(table, players[s], players[id])) <= 0.01;
      }
    }
  }

  /** The delivery to a recipient changes only its track from the source (and the flag when that track is new). */
  lemma RecipientKept(table: seq<real>, players: Players, rest: set<int>, r: Players, s: int, v: real, q: Player, id: int)
    requires |table| == MAX_DISTANCE_SQ + 1 && PlayersValid(players) && s in rest && s in players && id in players
    requires id in r && id != s && Speaks(players[s]) && TracksValid(r[id]) && players[id].webrtcConnected
    requires q == Delivered(r[id], s, players[s].audioRelay.value.queue, v)
    requires ProgressAt(table, players, rest, r, id)
    ensures SameRecord(players[id], q) && TracksGrown(players[id], q) && TracksValid(q)
    ensures q.audioRelay == r[id].audioRelay
    ensures forall k :: k !in players || k in rest - {s} || !Speaks(players[k]) ==> SameTrack(players[id], q, k)
    ensures forall k :: k in r[id].outboundTracks && k != s ==>
      k in q.outboundTracks && q.outboundTracks[k] == r[id].outboundTracks[k]
    ensures s in q.outboundTracks &&
      q.outboundTracks[s] == SendAll(TrackOr(players[id], s), ScaleAll(players[s].audioRelay.value.queue, v))
  {
    var frames := players[s].audioRelay.value.queue;
    DeliveredShape(r[id], s, frames, v);
    DeliveredTrack(r[id], s, frames, v);
    assert SameTrack(players[id], r[id], s);
    assert TrackOr(r[id], s) == TrackOr(players[id], s);
  }

  /**
   * What routing source `s` did to player `id`: either it delivered the
   * queued frames at a volume `v` close to what `id` hears of `s`, or it
   * left `id` as it was and `id` does not hear an unmuted `s`.
   */
  lemma RoutedFor(table: seq<real>, r: Players, s: int, rs: Recipients, r2: Players, id: int) returns (hit: bool, v: real)
    requires |table| == MAX_DISTANCE_SQ + 1 && s in r && id in r && id != s && TracksValid(r[id])
    requires SourceRouted(table, r, s, rs, r2)
    ensures id in r2
    ensures hit ==> (Active(r[s]) && !r[s].isMuted && r[id].webrtcConnected &&
      Abs(VolumeFrom(table, r[s], r[id]) - v) <= 0.01 &&
      r2[id] == Delivered(r[id], s, r[s].audioRelay.value.queue, v))
    ensures !hit ==> (r2[id] == r[id] &&
      !(Active(r[s]) && !r[s].isMuted && r[id].webrtcConnected && VolumeFrom(table, r[s], r[id]) > 0.0))
  {
    hit, v := false, 0.0;
    if id in Ids(rs) {
      var j :| 0 <= j < |rs| && rs[j].0 == id;
      if r[id].webrtcConnected {
        hit, v := true, rs[j].1;
      }
    }
  }

  lemma StepAt(table: seq<real>, players: Players, rest: set<int>, r: Players, s: int, r2: Players, id: int, hit: bool, v: real)
    requires |table| == MAX_DISTANCE_SQ + 1 && PlayersValid(players) && s in rest && id in players && s in players
    requires id in r && s in r && id in r2 && id != s
    requires ProgressAt(table, players, rest, r, id) && ProgressAt(table, players, rest, r, s)
    requires hit ==> (Active(r[s]) && !r[s].isMuted && r[id].webrtcConnected &&
      Abs(VolumeFrom(table, r[s], r[id]) - v) <= 0.01 &&
      r2[id] == Delivered(r[id], s, r[s].audioRelay.value.queue, v))
    requires !hit ==> (r2[id] == r[id] &&
      !(Active(r[s]) && !r[s].isMuted && r[id].webrtcConnected && VolumeFrom(table, r[s], r[id]) > 0.0))
    ensures ProgressAt(table, players, rest - {s}, r2, id)
  {
    assert VolumeFrom(table, r[s], r[id]) == VolumeFrom(table, players[s], players[id]);
    if hit && Speaks(players[s]) {
      StepRecipient(table, players, rest, r, s, v, r2, id);
    } else {
      assert r2[id] == r[id];
      StepUntouched(table, players, rest, r, s, r2, id);
    }
  }

  lemma RoutingStep(table: seq<real>, players: Players, rest: set<int>, r: Players, s: int, rs: Recipients, r2: Players)
    requires |table| == MAX_DISTANCE_SQ + 1 && PlayersValid(players) && s in rest
    requires RoutingProgress(table, players, rest, r)
    requires SourceRouted(table, r, s, rs, r2)
    ensures RoutingProgress(table, players, rest - {s}, r2)
  {
    ProgressFacts(table, players, rest, r, s);
    forall id | id in players ensures ProgressAt(table, players, rest - {s}, r2, id) {
      ProgressFacts(table, players, rest, r, id);
      if id == s {
        StepSelf(table, players, rest, r, r2, s);
      } else {
        var hit, v := RoutedFor(table, r, s, rs, r2, id);
        StepAt(table, players, rest, r, s, r2, id, hit, v);
      }
    }
  }

  /** The third phase: every source in turn, in no particular order. */
  method RouteSources(table: seq<real>, cache: RecipientCache, players: Players) returns (r: Players)
    requires |table| == MAX_DISTANCE_SQ + 1 && PlayersValid(players) && cache.Valid()
    modifies cache
    ensures cache.Valid()
    ensures RoutingProgress(table, players, {}, r)
  {
    r := players;
    var rest := players.Keys;
    while rest != {}
      invariant cache.Valid() && RoutingProgress(table, players, rest, r)
      decreases rest
    {
      var s := Collections.Pick(rest);
      ProgressValid(table, players, rest, r);
      ghost var before := r;
      var rs;
      r, rs := RouteSource(table, cache, r, s);
      RoutingStep(table, players, rest, before, s, rs, r);
      rest := rest - {s};
    }
  }

  // ---------------------------------------------------------------- phase 4: remove stale tracks

  /** `p` without the tracks from sources outside `keep`, flagged when any was removed. */
  function Pruned(p: Player, keep: set<int>): (r: Player)
    ensures r.outboundTracks.Keys == p.outboundTracks.Keys * keep
    ensures forall k :: k in r.outboundTracks ==> r.outboundTracks[k] == p.outboundTracks[k]
    ensures r.needsRenegotiation <==> p.needsRenegotiation || !(p.outboundTracks.Keys <= keep)
    ensures r == p.(outboundTracks := r.outboundTracks, needsRenegotiation := r.needsRenegotiation)
    ensures TracksValid(p) ==> TracksValid(r)
  {
    p.(outboundTracks := map k | k in p.outboundTracks && k in keep :: p.outboundTracks[k],
       needsRenegotiation := p.needsRenegotiation || !(p.outboundTracks.Keys <= keep))
  }

  /** The inner loop of the last phase: list the stale tracks, then delete them one by one. */
  method PruneTracks(p: Player, keep: set<int>) returns (r: Player)
    ensures r == Pruned(p, keep)
  {
    var toRemove := set k | k in p.outboundTracks && k !in keep;
    r := p;
    var rest := toRemove;
    while rest != {}
      invariant rest <= toRemove
      invariant r == p.(outboundTracks := p.outboundTracks - (toRemove - rest),
                        needsRenegotiation := p.needsRenegotiation || rest != toRemove)
      decreases rest
    {
      var k := Collections.Pick(rest);
      r := r.(outboundTracks := r.outboundTracks - {k}, needsRenegotiation := true);
      assert toRemove - (rest - {k}) == (toRemove - rest) + {k};
      rest := rest - {k};
    }
    assert toRemove == p.outboundTracks.Keys - keep;
    assert r.outboundTracks == p.outboundTracks - toRemove;
    assert forall k :: k in r.outboundTracks <==> k in p.outboundTracks && k in keep;
    assert r.outboundTracks == Pruned(p, keep).outboundTracks;
  }

  /** The last phase: connected recipients lose the tracks from sources no longer in range. */
  method RemoveStale(players: Players, inRange: map<int, set<int>>) returns (r: Players)
    requires inRange.Keys == players.Keys
    ensures r.Keys == players.Keys
    ensures forall id :: id in r ==>
      r[id] == if players[id].webrtcConnected then Pruned(players[id], inRange[id]) else players[id]
  {
    r := players;
    var rest := players.Keys;
    while rest != {}
      invariant rest <= players.Keys && r.Keys == players.Keys
      invariant forall id :: id in r ==>
        r[id] == if id !in rest && players[id].webrtcConnected then Pruned(players[id], inRange[id]) else players[id]
      decreases rest
    {
      var id := Collections.Pick(rest);
      if r[id].webrtcConnected {
        var p := PruneTracks(r[id], inRange[id]);
        r := r[id := p];
      }
      rest := rest - {id};
    }
  }

  // ---------------------------------------------------------------- the four phases together

  /**
   * What routing does to one player, stated against the players before
   * the call: a disconnected player is untouched; a connected one ends with
   * exactly the tracks from the sources it hears, the flag set when that
   * changed its tracks, every speaking source's queued frames on its track
   * and the other tracks as they were; every active source's relay is
   * drained, and nothing outside the audio state changes.
   */
  ghost predicate RoutedAt(table: seq<real>, before: Players, after: Players, id: int)
    requires |table| == MAX_DISTANCE_SQ + 1 && PlayersValid(before) && id in before && id in after
  {
    SameRecord(before[id], after[id]) && TracksValid(after[id]) &&
    after[id].audioRelay == RelayAfter(before[id]) &&
    (!before[id].webrtcConnected ==> after[id] == before[id]) &&
    (before[id].webrtcConnected ==>
      after[id].outboundTracks.Keys == InRange(table, before, id) &&
      (before[id].needsRenegotiation || before[id].outboundTracks.Keys != InRange(table, before, id) ==>
        after[id].needsRenegotiation) &&
      (forall k :: k in InRange(table, before, id) && !Speaks(before[k]) ==>
        after[id].outboundTracks[k] == TrackOr(before[id], k)) &&
      (forall k :: k in InRange(table, before, id) && Speaks(before[k]) ==>
        Forwarded(table, before, after, id, k)))
  }

  ghost predicate AllRouted(table: seq<real>, before: Players, after: Players)
    requires |table| == MAX_DISTANCE_SQ + 1 && PlayersValid(before)
  {
    after.Keys == before.Keys && forall id :: id in before ==> RoutedAt(table, before, after, id)
  }

  /** Phase 2 leaves everything phase 3 looks at as it was. */
  lemma CreatedValid(table: seq<real>, players: Players, inRange: map<int, set<int>>, b: Players)
    requires |table| == MAX_DISTANCE_SQ + 1 && PlayersValid(players) && inRange.Keys == players.Keys
    requires b.Keys == players.Keys
    requires forall id :: id in b ==>
      b[id] == if players[id].webrtcConnected then WithTracks(players[id], inRange[id]) else players[id]
    ensures PlayersValid(b)
    ensures forall x, y :: x in b && y in b ==> (Hears(table, b, x, y) <==> Hears(table, players, x, y))
    ensures forall k :: k in b ==> (Speaks(b[k]) <==> Speaks(players[k])) && b[k].audioRelay == players[k].audioRelay
  {
  }

  /** A speaking source's frames, forwarded in phase 3, survive phase 4 on the same track. */
  lemma ForwardedKept(table: seq<real>, players: Players, b: Players, c: Players, r: Players, id: int, k: int)
    requires |table| == MAX_DISTANCE_SQ + 1 && PlayersValid(players) && PlayersValid(b)
    requires id in players && k in players && id in b && k in b && id in c && id in r
    requires Speaks(players[k]) && b[k].audioRelay == players[k].audioRelay
    requires b[k].x == players[k].x && b[k].y == players[k].y
    requires b[id].x == players[id].x && b[id].y == players[id].y
    requires k in b[id].outboundTracks && b[id].outboundTracks[k] == TrackOr(players[id], k)
    requires Forwarded(table, b, c, id, k)
    requires k in r[id].outboundTracks && r[id].outboundTracks[k] == c[id].outboundTracks[k]
    ensures Forwarded(table, players, r, id, k)
  {
    var v :| Abs(v - VolumeFrom(table, b[k], b[id])) <= 0.01 &&
      c[id].outboundTracks[k] == SendAll(TrackOr(b[id], k), ScaleAll(b[k].audioRelay.value.queue, v));
    assert VolumeFrom(table, b[k], b[id]) == VolumeFrom(table, players[k], players[id]);
  }

  /** A connected player's tracks after phase 4: exactly those in range, flagged when they changed. */
  lemma RoutedKeys(P: Player, B: Player, C: Player, R: Player, range: set<int>)
    requires B == WithTracks(P, range) && R == Pruned(C, range) && TracksGrown(B, C)
    ensures R.outboundTracks.Keys == range
    ensures P.needsRenegotiation || P.outboundTracks.Keys != range ==> R.needsRenegotiation
  {
    if P.outboundTracks.Keys != range {
      assert B.outboundTracks.Keys != P.outboundTracks.Keys || C.outboundTracks.Keys != range;
    }
  }

  /** One player through all four phases. */
  lemma RoutedAtAll(table: seq<real>, players: Players, a: map<int, set<int>>, b: Players, c: Players, r: Players, id: int)
    requires |table| == MAX_DISTANCE_SQ + 1 && PlayersValid(players) && id in players
    requires a.Keys == players.Keys && forall i :: i in a ==> a[i] == InRange(table, players, i)
    requires b.Keys == players.Keys
    requires forall i :: i in b ==>
      b[i] == if players[i].webrtcConnected then WithTracks(players[i], a[i]) else players[i]
    requires PlayersValid(b) && RoutingProgress(table, b, {}, c)
    requires forall x, y :: x in b && y in b ==> (Hears(table, b, x, y) <==> Hears(table, players, x, y))
    requires forall k :: k in b ==> (Speaks(b[k]) <==> Speaks(players[k])) && b[k].audioRelay == players[k].audioRelay
    requires r.Keys == c.Keys
    requires forall i :: i in r ==> r[i] == if c[i].webrtcConnected then Pruned(c[i], a[i]) else c[i]
    ensures RoutedAt(table, players, r, id)
  {
    assert ProgressAt(table, b, {}, c, id);
    var P, B, C, R := players[id], b[id], c[id], r[id];
    if P.webrtcConnected {
      var range := InRange(table, players, id);
      RoutedKeys(P, B, C, R, range);
      forall k | k in range && !Speaks(players[k])
        ensures R.outboundTracks[k] == TrackOr(P, k)
      {
        assert SameTrack(B, C, k);
      }
      forall k | k in range && Speaks(players[k])
        ensures Forwarded(table, players, r, id, k)
      {
        assert Hears(table, b, id, k);
        assert ProgressAt(table, b, {}, c, k);
        ForwardedKept(table, players, b, c, r, id, k);
      }
    }
  }

  /**
   * `_route_all_audio`: who hears whom, the tracks that are missing, the
   * queued frames of every speaking source, then the stale tracks removed.
   */
  method RouteAllAudio(table: seq<real>, cache: RecipientCache, players: Players) returns (r: Players)
    requires |table| == MAX_DISTANCE_SQ + 1 && PlayersValid(players) && cache.Valid()
    modifies cache
    ensures cache.Valid()
    ensures AllRouted(table, players, r)
  {
    var a := SourcesInRange(table, players);
    var b := CreateTracks(players, a);
    CreatedValid(table, players, a, b);
    var c := RouteSources(table, cache, b);
    r := RemoveStale(c, a);
    forall id | id in players ensures RoutedAt(table, players, r, id) {
      RoutedAtAll(table, players, a, b, c, r, id);
    }
  }

  /** Hearing is mutual: the volume depends only on the distance. */
  lemma HearsMutual(table: seq<real>, players: Players, x: int, y: int)
    requires |table| == MAX_DISTANCE_SQ + 1 && x in players && y in players
    ensures Hears(table, players, x, y) <==> Hears(table, players, y, x)
  {
    var p, q := players[x], players[y];
    assert (p.x - q.x) * (p.x - q.x) == (q.x - p.x) * (q.x - p.x);
    assert (p.y - q.y) * (p.y - q.y) == (q.y - p.y) * (q.y - p.y);
  }

  /** After routing, two connected players carry tracks from each other or neither does. */
  lemma TracksBothWays(table: seq<real>, before: Players, after: Players, x: int, y: int)
    requires |table| == MAX_DISTANCE_SQ + 1 && PlayersValid(before) && AllRouted(table, before, after)
    requires x in before && y in before && before[x].webrtcConnected && before[y].webrtcConnected
    ensures y in after[x].outboundTracks <==> x in after[y].outboundTracks
  {
    assert RoutedAt(table, before, after, x) && RoutedAt(table, before, after, y);
    HearsMutual(table, before, x, y);
  }

  /** A connected player nobody is within hearing of ends with no tracks at all. */
  lemma NoneInRangeNoTracks(table: seq<real>, before: Players, after: Players, id: int)
    requires |table| == MAX_DISTANCE_SQ + 1 && PlayersValid(before) && AllRouted(table, before, after)
    requires id in before && before[id].webrtcConnected
    requires forall o :: o in before && o != id && before[o].webrtcConnected ==>
      VolumeFrom(table, before[o], before[id]) == 0.0
    ensures after[id].outboundTracks == map[]
  {
    assert RoutedAt(table, before, after, id);
    assert InRange(table, before, id) == {};
  }

  // ---------------------------------------------------------------- initial tracks

  /** The players a newly connected player exchanges tracks with. */
  function Partners(table: seq<real>, players: Players, id: int): set<int>
    requires |table| == MAX_DISTANCE_SQ + 1 && id in players
  {
    set o | o in players && o != id && players[o].webrtcConnected &&
      GetVolume(table, players[o].x - players[id].x, players[o].y - players[id].y) > 0.0
  }

  /** Whether `_setup_initial_tracks` links the player `id` with `other`. */
  predicate Linked(table: seq<real>, player: Player, other: Player)
    requires |table| == MAX_DISTANCE_SQ + 1
  {
    other.id != player.id && other.webrtcConnected &&
    GetVolume(table, other.x - player.x, other.y - player.y) > 0.0
  }

  /** One iteration of `_setup_initial_tracks`: the pair's tracks each way. */
  method VisitOther(table: seq<real>, players: Players, id: int, oid: int) returns (r: Players)
    requires |table| == MAX_DISTANCE_SQ + 1 && id in players && oid in players
    requires players[id].id == id && players[oid].id == oid
    ensures var linked := Linked(table, players[id], players[oid]);
      r == if linked then players[id := WithTracks(players[id], {oid})][oid := WithTracks(players[oid], {id})]
           else players
  {
    r := players;
    var other := players[oid];
    var player := players[id];
    if other.id != player.id && other.webrtcConnected {
      var volume := GetVolume(table, other.x - player.x, other.y - player.y);
      if volume > 0.0 {
        player := Link(player, other.id);
        other := Link(other, player.id);
        r := r[id := player][oid := other];
      }
    }
  }

  /** The loop of `_setup_initial_tracks` before visiting the players in `rest`, linking with `partners`. */
  ghost predicate SetupProgress(players: Players, id: int, partners: set<int>, rest: set<int>, r: Players)
    requires id in players
  {
    rest <= players.Keys && r.Keys == players.Keys &&
    r[id] == WithTracks(players[id], partners - rest) &&
    forall o :: o in r && o != id ==>
      r[o] == if o !in rest && o in partners then WithTracks(players[o], {id}) else players[o]
  }

  /** The player and another one are linked exactly when the other is a partner. */
  lemma LinkedPartner(table: seq<real>, players: Players, id: int, p: Player, oid: int)
    requires |table| == MAX_DISTANCE_SQ + 1 && KeyedById(players) && id in players && oid in players && oid != id
    requires p.x == players[id].x && p.y == players[id].y && p.id == id
    ensures Linked(table, p, players[oid]) <==> oid in Partners(table, players, id)
  {
  }

  /** Visiting a partner gives both sides a track from the other. */
  lemma SetupStepLinked(players: Players, id: int, partners: set<int>, rest: set<int>, r: Players, oid: int, r2: Players)
    requires id in players && oid in rest && oid != id && oid in partners
    requires SetupProgress(players, id, partners, rest, r)
    requires r2 == r[id := WithTracks(r[id], {oid})][oid := WithTracks(r[oid], {id})]
    ensures SetupProgress(players, id, partners, rest - {oid}, r2)
  {
    WithTracksUnion(players[id], partners - rest, {oid});
    assert partners - (rest - {oid}) == (partners - rest) + {oid};
  }

  /** Visiting the player itself or a non-partner changes nothing. */
  lemma SetupStepUnlinked(players: Players, id: int, partners: set<int>, rest: set<int>, r: Players, oid: int)
    requires id in players && oid in rest && oid !in partners
    requires SetupProgress(players, id, partners, rest, r)
    ensures SetupProgress(players, id, partners, rest - {oid}, r)
  {
    assert partners - (rest - {oid}) == partners - rest;
  }

  lemma SetupStep(table: seq<real>, players: Players, id: int, rest: set<int>, r: Players, oid: int, r2: Players)
    requires |table| == MAX_DISTANCE_SQ + 1 && KeyedById(players) && id in players && oid in rest
    requires SetupProgress(players, id, Partners(table, players, id), rest, r)
    requires r2 == if Linked(table, r[id], r[oid]) then r[id := WithTracks(r[id], {oid})][oid := WithTracks(r[oid], {id})] else r
    ensures SetupProgress(players, id, Partners(table, players, id), rest - {oid}, r2)
  {
    var partners := Partners(table, players, id);
    if oid == id {
      assert id !in partners;
      SetupStepUnlinked(players, id, partners, rest, r, oid);
    } else {
      assert r[oid] == players[oid];
      LinkedPartner(table, players, id, r[id], oid);
      if oid in partners {
        SetupStepLinked(players, id, partners, rest, r, oid, r2);
      } else {
        SetupStepUnlinked(players, id, partners, rest, r, oid);
      }
    }
  }

  /**
   * `_setup_initial_tracks(player)`: a track each way between the player
   * and every connected player within hearing, each side flagged when it
   * gained one.
   */
  method SetupInitialTracks(table: seq<real>, players: Players, id: int) returns (r: Players)
    requires |table| == MAX_DISTANCE_SQ + 1 && KeyedById(players) && id in players
    ensures r.Keys == players.Keys
    ensures r[id] == WithTracks(players[id], Partners(table, players, id))
    ensures forall o :: o in r && o != id ==>
      r[o] == if o in Partners(table, players, id) then WithTracks(players[o], {id}) else players[o]
  {
    r := players;
    var rest := players.Keys;
    SetupStart(table, players, id);
    while rest != {}
      invariant SetupProgress(players, id, Partners(table, players, id), rest, r)
      decreases rest
    {
      var oid := Collections.Pick(rest);
      SetupVisitable(table, players, id, rest, r, oid);
      ghost var before := r;
      r := VisitOther(table, r, id, oid);
      SetupStep(table, players, id, rest, before, oid, r);
      rest := rest - {oid};
    }
  }

  lemma SetupStart(table: seq<real>, players: Players, id: int)
    requires |table| == MAX_DISTANCE_SQ + 1 && KeyedById(players) && id in players
    ensures SetupProgress(players, id, Partners(table, players, id), players.Keys, players)
  {
    assert WithTracks(players[id], {}) == players[id] by {
      assert WithTracks(players[id], {}).outboundTracks == players[id].outboundTracks;
    }
    assert Partners(table, players, id) - players.Keys == {};
  }

  /** The players still to visit keep their ids, so the visit's precondition holds. */
  lemma SetupVisitable(table: seq<real>, players: Players, id: int, rest: set<int>, r: Players, oid: int)
    requires |table| == MAX_DISTANCE_SQ + 1 && KeyedById(players) && id in players && oid in rest
    requires SetupProgress(players, id, Partners(table, players, id), rest, r)
    ensures id in r && oid in r && r[id].id == id && r[oid].id == oid
  {
    if oid != id {
      assert r[oid] == players[oid];
    }
  }

  /** After the initial setup the player and each partner hear each other, and the player never gets a track from itself. */
  lemma SetupBothWays(table: seq<real>, players: Players, id: int, r: Players)
    requires |table| == MAX_DISTANCE_SQ + 1 && KeyedById(players) && id in players
    requires r.Keys == players.Keys
    requires r[id] == WithTracks(players[id], Partners(table, players, id))
    requires forall o :: o in r && o != id ==>
      r[o] == if o in Partners(table, players, id) then WithTracks(players[o], {id}) else players[o]
    ensures forall o :: o in Partners(table, players, id) ==>
      o in r[id].outboundTracks && id in r[o].outboundTracks
    ensures id in r[id].outboundTracks <==> id in players[id].outboundTracks
    ensures forall o :: o in players && o != id && players[o].webrtcConnected && o in Partners(table, players, id) ==>
      GetVolume(table, players[id].x - players[o].x, players[id].y - players[o].y) > 0.0
  {
    forall o | o in players && o != id && o in Partners(table, players, id)
      ensures GetVolume(table, players[id].x - players[o].x, players[id].y - players[o].y) > 0.0
    {
      VolumeSymmetric(table, players[o].x - players[id].x, players[o].y - players[id].y);
      assert GetVolume(table, players[id].x - players[o].x, players[id].y - players[o].y)
        == GetVolume(table, -(players[o].x - players[id].x), -(players[o].y - players[id].y));
      VolumeSymmetric(table, -(players[o].x - players[id].x), players[o].y - players[id].y);
    }
  }
}
