/**
 * The bounded frame queues and counters of the WebRTC audio tracks
 * (rogue_talk/audio/webrtc_tracks.py). Each track's state is a value with
 * functions giving its transitions (the server keeps its relays and
 * outbound tracks inside player records, so it uses these values), and a
 * class per track updates its fields in place as the source's objects do.
 * Samples are exact reals; a frame is a sequence of them.
 */
module WebrtcTracks {
  import opened Wrappers
  import opened Constants

  type Frame = seq<real>

  const CAPTURE_QUEUE_SIZE: nat := 10
  const PLAYBACK_QUEUE_SIZE: nat := 50
  const RELAY_QUEUE_SIZE: nat := 10
  const OUTBOUND_QUEUE_SIZE: nat := 10

  /** `np.zeros(n)` */
  function Silence(n: nat): (r: Frame)
    ensures |r| == n && forall i :: 0 <= i < n ==> r[i] == 0.0
  {
    seq(n, _ => 0.0)
  }

  /** `frame * volume` */
  function Scale(f: Frame, volume: real): (r: Frame)
    ensures |r| == |f| && forall i :: 0 <= i < |f| ==> r[i] == f[i] * volume
  {
    seq(|f|, i requires 0 <= i < |f| => f[i] * volume)
  }

  /** `put_nowait` on a queue bounded by `cap`: the queue after the call. */
  function Offer(q: seq<Frame>, cap: nat, f: Frame): seq<Frame> {
    if |q| < cap then q + [f] else q
  }

  /** Offering never takes a queue past its bound, and appends exactly when there is room. */
  lemma OfferSpec(q: seq<Frame>, cap: nat, f: Frame)
    ensures |q| <= cap ==> |Offer(q, cap, f)| <= cap
    ensures |q| < cap <==> Offer(q, cap, f) == q + [f]
    ensures |q| >= cap <==> Offer(q, cap, f) == q
  {
  }

  /** Offering each of `fs` in turn. */
  function OfferAll(q: seq<Frame>, cap: nat, fs: seq<Frame>): seq<Frame>
    decreases |fs|
  {
    if |fs| == 0 then q else OfferAll(Offer(q, cap, fs[0]), cap, fs[1..])
  }

  /** Frames offered to a bounded queue: the queue keeps the earliest that fit, the rest are lost. */
  lemma {:induction false} OfferAllKeepsEarliest(q: seq<Frame>, cap: nat, fs: seq<Frame>)
    requires |q| <= cap
    ensures var n := if |q| + |fs| <= cap then |fs| else cap - |q|;
      OfferAll(q, cap, fs) == q + fs[..n]
    decreases |fs|
  {
    if fs != [] {
      var q' := Offer(q, cap, fs[0]);
      OfferAllKeepsEarliest(q', cap, fs[1..]);
      if |q| < cap {
        assert q' + fs[1..][..(if |q'| + |fs| - 1 <= cap then |fs| - 1 else cap - |q'|)]
          == q + fs[..(if |q| + |fs| <= cap then |fs| else cap - |q|)];
      } else {
        assert fs[..0] == [] && fs[1..][..0] == [];
      }
    }
  }

  // ---------------------------------------------------------------- ServerOutboundTrack

  /** A server-side track carrying one source's audio to one client. */
  datatype OutboundTrackState = OutboundTrackState(
    sourcePlayerId: int, queue: seq<Frame>, timestamp: nat,
    active: bool, dropCount: nat, frameCount: nat)

  predicate OutboundValid(t: OutboundTrackState) {
    |t.queue| <= OUTBOUND_QUEUE_SIZE
  }

  /** `ServerOutboundTrack(source_player_id)`: inactive, empty, counters at 0. */
  function NewOutboundTrack(sourcePlayerId: int): (t: OutboundTrackState)
    ensures OutboundValid(t) && !t.active && t.queue == [] && t.sourcePlayerId == sourcePlayerId
  {
    OutboundTrackState(sourcePlayerId, [], 0, false, 0, 0)
  }

  function Activated(t: OutboundTrackState): (r: OutboundTrackState)
    ensures r.active && r == t.(active := true)
  {
    t.(active := true)
  }

  /** `send_audio`: ignored until activated, then counted and queued or dropped. */
  function Sent(t: OutboundTrackState, f: Frame): (r: OutboundTrackState)
    requires OutboundValid(t)
    ensures OutboundValid(r)
    ensures !t.active ==> r == t
    ensures t.active ==> r.frameCount == t.frameCount + 1
    // every counted frame is dropped or queued
    ensures r.frameCount - r.dropCount - |r.queue| == t.frameCount - t.dropCount - |t.queue|
    ensures r.sourcePlayerId == t.sourcePlayerId && r.active == t.active && r.timestamp == t.timestamp
  {
    if !t.active then t
    else
      var full := |t.queue| >= OUTBOUND_QUEUE_SIZE;
      t.(frameCount := t.frameCount + 1,
         queue := Offer(t.queue, OUTBOUND_QUEUE_SIZE, f),
         dropCount := if full then t.dropCount + 1 else t.dropCount)
  }

  /** `recv`: the oldest queued frame, or a frame of silence, advancing the timestamp by its length. */
  function OutboundRecv(t: OutboundTrackState): (r: (OutboundTrackState, Frame))
    ensures t.queue != [] ==> r.1 == t.queue[0] && r.0.queue == t.queue[1..]
    ensures t.queue == [] ==> r.1 == Silence(FRAME_SIZE) && r.0.queue == []
    ensures r.0.timestamp == t.timestamp + |r.1|
    ensures r.0 == t.(queue := r.0.queue, timestamp := r.0.timestamp)
  {
    if t.queue != [] then (t.(queue := t.queue[1..], timestamp := t.timestamp + |t.queue[0]|), t.queue[0])
    else (t.(timestamp := t.timestamp + FRAME_SIZE), Silence(FRAME_SIZE))
  }

  /** Sending each of `fs` in turn. */
  function SendAll(t: OutboundTrackState, fs: seq<Frame>): (r: OutboundTrackState)
    requires OutboundValid(t)
    ensures OutboundValid(r)
    decreases |fs|
  {
    if |fs| == 0 then t else SendAll(Sent(t, fs[0]), fs[1..])
  }

  /** An inactive track ignores any number of frames. */
  lemma {:induction false} SendAllInactive(t: OutboundTrackState, fs: seq<Frame>)
    requires OutboundValid(t) && !t.active
    ensures SendAll(t, fs) == t
    decreases |fs|
  {
    if fs != [] { SendAllInactive(t, fs[1..]); }
  }

  /**
   * An active track with an empty queue that is sent `fs` counts every
   * frame, queues the first ten and drops the rest.
   */
  lemma {:induction false} SendAllActive(t: OutboundTrackState, fs: seq<Frame>)
    requires OutboundValid(t) && t.active
    ensures SendAll(t, fs).frameCount == t.frameCount + |fs|
    ensures SendAll(t, fs).queue == OfferAll(t.queue, OUTBOUND_QUEUE_SIZE, fs)
    ensures SendAll(t, fs).dropCount == t.dropCount + |fs| - (|SendAll(t, fs).queue| - |t.queue|)
    decreases |fs|
  {
    if fs != [] {
      SendAllActive(Sent(t, fs[0]), fs[1..]);
    }
  }

  class ServerOutboundTrack {
    const sourcePlayerId: int
    var queue: seq<Frame>
    var timestamp: nat
    var active: bool
    var dropCount: nat
    var frameCount: nat

    function State(): OutboundTrackState reads this {
      OutboundTrackState(sourcePlayerId, queue, timestamp, active, dropCount, frameCount)
    }

    predicate Valid() reads this { OutboundValid(State()) }

    constructor (sourcePlayerId: int)
      ensures Valid() && State() == NewOutboundTrack(sourcePlayerId)
    {
      this.sourcePlayerId := sourcePlayerId;
      queue, timestamp, active, dropCount, frameCount := [], 0, false, 0, 0;
    }

    method Activate()
      modifies this
      ensures State() == Activated(old(State()))
    {
      active := true;
    }

    method SendAudio(pcm: Frame)
      requires Valid()
      modifies this
      ensures Valid() && State() == Sent(old(State()), pcm)
    {
      if !active {
        return;
      }
      frameCount := frameCount + 1;
      if |queue| < OUTBOUND_QUEUE_SIZE {
        queue := queue + [pcm];
      } else {
        dropCount := dropCount + 1;
      }
    }

    method Recv() returns (frame: Frame)
      requires Valid()
      modifies this
      ensures Valid() && (State(), frame) == OutboundRecv(old(State()))
    {
      if |queue| > 0 {
        frame := queue[0];
        queue := queue[1..];
      } else {
        frame := Silence(FRAME_SIZE);
      }
      timestamp := timestamp + |frame|;
    }
  }

  // ---------------------------------------------------------------- ServerAudioRelay

  /** The server's inbound queue of one player's audio. */
  datatype RelayState = RelayState(playerId: int, queue: seq<Frame>, dropCount: nat, frameCount: nat)

  predicate RelayValid(r: RelayState) {
    |r.queue| <= RELAY_QUEUE_SIZE
  }

  function NewRelay(playerId: int): (r: RelayState)
    ensures RelayValid(r) && r.queue == [] && r.playerId == playerId
  {
    RelayState(playerId, [], 0, 0)
  }

  /** One frame arriving in the receive loop: counted, then queued or dropped. */
  function RelayReceive(r: RelayState, f: Frame): (r': RelayState)
    requires RelayValid(r)
    ensures RelayValid(r') && r'.frameCount == r.frameCount + 1
    ensures r'.frameCount - r'.dropCount - |r'.queue| == r.frameCount - r.dropCount - |r.queue|
    ensures r'.playerId == r.playerId
  {
    var full := |r.queue| >= RELAY_QUEUE_SIZE;
    r.(frameCount := r.frameCount + 1,
       queue := Offer(r.queue, RELAY_QUEUE_SIZE, f),
       dropCount := if full then r.dropCount + 1 else r.dropCount)
  }

  /** `get_audio_frame`: the oldest queued frame, or None when empty. */
  function RelayGetFrame(r: RelayState): (res: (RelayState, Option<Frame>))
    ensures r.queue == [] <==> res.1 == None
    ensures r.queue != [] ==> res.1 == Some(r.queue[0]) && res.0.queue == r.queue[1..]
    ensures r.queue == [] ==> res.0 == r
    ensures res.0 == r.(queue := res.0.queue)
  {
    if |r.queue| == 0 then (r, None) else (r.(queue := r.queue[1..]), Some(r.queue[0]))
  }

  /** The relay after `get_audio_frame` has been called until it returns None. */
  function Drained(r: RelayState): (r': RelayState)
    ensures r' == r.(queue := [])
  {
    r.(queue := [])
  }

  /** The relay after each of `fs` arrived in turn. */
  function RelayReceiveAll(r: RelayState, fs: seq<Frame>): (r': RelayState)
    requires RelayValid(r)
    ensures RelayValid(r')
    decreases |fs|
  {
    if fs == [] then r else RelayReceiveAll(RelayReceive(r, fs[0]), fs[1..])
  }

  /** The relay after `k` calls of `get_audio_frame`, and what the calls returned, in order. */
  function RelayGetFrames(r: RelayState, k: nat): (RelayState, seq<Option<Frame>>)
    decreases k
  {
    if k == 0 then (r, [])
    else
      var next := RelayGetFrames(RelayGetFrame(r).0, k - 1);
      (next.0, [RelayGetFrame(r).1] + next.1)
  }

  /** Each frame of `q` as a returned frame. */
  function Somes(q: seq<Frame>): (r: seq<Option<Frame>>)
    ensures |r| == |q| && forall i :: 0 <= i < |q| ==> r[i] == Some(q[i])
    decreases |q|
  {
    if q == [] then [] else [Some(q[0])] + Somes(q[1..])
  }

  /** Arriving frames are counted; those that find the queue full are dropped, the rest are queued behind it. */
  lemma {:induction false} RelayReceiveAllSpec(r: RelayState, fs: seq<Frame>)
    requires RelayValid(r)
    ensures var r' := RelayReceiveAll(r, fs);
      r'.queue == OfferAll(r.queue, RELAY_QUEUE_SIZE, fs) &&
      r'.frameCount == r.frameCount + |fs| &&
      r'.dropCount == r.dropCount + |fs| - (|r'.queue| - |r.queue|) &&
      r'.playerId == r.playerId
    decreases |fs|
  {
    if fs != [] {
      RelayReceiveAllSpec(RelayReceive(r, fs[0]), fs[1..]);
    }
  }

  /** `k` calls on a relay holding at least `k` frames return its first `k` frames in order and leave the rest. */
  lemma {:induction false} RelayGetFramesSpec(r: RelayState, k: nat)
    requires k <= |r.queue|
    ensures RelayGetFrames(r, k).1 == Somes(r.queue[..k])
    ensures RelayGetFrames(r, k).0 == r.(queue := r.queue[k..])
    decreases k
  {
    if k > 0 {
      var r1 := RelayGetFrame(r).0;
      RelayGetFramesSpec(r1, k - 1);
      assert r1.queue == r.queue[1..];
      assert r.queue[1..][k - 1..] == r.queue[k..];
      assert r.queue[..k] == [r.queue[0]] + r.queue[1..][..k - 1];
    } else {
      assert r.queue[0..] == r.queue;
    }
  }

  /**
   * Frames leave the relay in the order they arrived: after `fs` arrives
   * at any relay, the queue is the old queue followed by the earliest of
   * `fs` that fit; the others are counted as dropped; and successive
   * `get_audio_frame` calls return exactly those frames, in that order,
   * and then None.
   */
  lemma RelayFifo(r: RelayState, fs: seq<Frame>)
    requires RelayValid(r)
    ensures var n := if |r.queue| + |fs| <= RELAY_QUEUE_SIZE then |fs| else RELAY_QUEUE_SIZE - |r.queue|;
      var r' := RelayReceiveAll(r, fs);
      var out := RelayGetFrames(r', |r'.queue|);
      r'.queue == r.queue + fs[..n] && r'.dropCount == r.dropCount + (|fs| - n) &&
      out.1 == Somes(r.queue + fs[..n]) && RelayGetFrame(out.0).1 == None
  {
    RelayReceiveAllSpec(r, fs);
    OfferAllKeepsEarliest(r.queue, RELAY_QUEUE_SIZE, fs);
    var r' := RelayReceiveAll(r, fs);
    RelayGetFramesSpec(r', |r'.queue|);
    assert r'.queue[..|r'.queue|] == r'.queue;
  }

  class ServerAudioRelay {
    const playerId: int
    var queue: seq<Frame>
    var dropCount: nat
    var frameCount: nat

    function State(): RelayState reads this {
      RelayState(playerId, queue, dropCount, frameCount)
    }

    predicate Valid() reads this { RelayValid(State()) }

    constructor (playerId: int)
      ensures Valid() && State() == NewRelay(playerId)
    {
      this.playerId := playerId;
      queue, dropCount, frameCount := [], 0, 0;
    }

    /** One iteration of the receive loop for a decoded frame. */
    method Receive(pcm: Frame)
      requires Valid()
      modifies this
      ensures Valid() && State() == RelayReceive(old(State()), pcm)
    {
      frameCount := frameCount + 1;
      if |queue| < RELAY_QUEUE_SIZE {
        queue := queue + [pcm];
      } else {
        dropCount := dropCount + 1;
      }
    }

    method GetAudioFrame() returns (frame: Option<Frame>)
      requires Valid()
      modifies this
      ensures Valid() && (State(), frame) == RelayGetFrame(old(State()))
    {
      if |queue| == 0 {
        frame := None;
      } else {
        frame := Some(queue[0]);
        queue := queue[1..];
      }
    }

    /** `while relay.get_audio_frame() is not None: pass` */
    method Drain()
      requires Valid()
      modifies this
      ensures Valid() && State() == Drained(old(State()))
    {
      var frame := GetAudioFrame();
      while frame.Some?
        invariant Valid() && State() == old(State()).(queue := queue)
        invariant frame.None? ==> queue == []
        decreases |queue|, frame.Some?
      {
        frame := GetAudioFrame();
      }
    }
  }

  // ---------------------------------------------------------------- AudioCaptureTrack

  /** The client's outgoing microphone track. */
  datatype CaptureTrackState = CaptureTrackState(
    queue: seq<Frame>, timestamp: nat, lastLevel: real, dropCount: nat)

  predicate CaptureValid(t: CaptureTrackState) {
    |t.queue| <= CAPTURE_QUEUE_SIZE
  }

  /** `float(np.abs(pcm).max())`; numpy refuses an empty frame. */
  function PeakLevel(f: Frame): (r: real)
    requires |f| > 0
    ensures forall i :: 0 <= i < |f| ==> -r <= f[i] <= r
    ensures exists i :: 0 <= i < |f| && (f[i] == r || f[i] == -r)
  {
    var a := if f[0] < 0.0 then -f[0] else f[0];
    if |f| == 1 then a
    else
      var m := PeakLevel(f[1..]);
      assert forall i :: 1 <= i < |f| ==> -m <= f[i] <= m by {
        forall i | 1 <= i < |f| ensures -m <= f[i] <= m { assert f[i] == f[1..][i - 1]; }
      }
      var j :| 0 <= j < |f[1..]| && (f[1..][j] == m || f[1..][j] == -m);
      assert f[j + 1] == f[1..][j];
      if a >= m then a else m
  }

  /** `feed_audio`: records the level, then queues or drops the frame. */
  function Fed(t: CaptureTrackState, f: Frame): (r: CaptureTrackState)
    requires CaptureValid(t) && |f| > 0
    ensures CaptureValid(r) && r.lastLevel == PeakLevel(f) && r.timestamp == t.timestamp
    ensures |t.queue| < CAPTURE_QUEUE_SIZE ==> r.queue == t.queue + [f] && r.dropCount == t.dropCount
    ensures |t.queue| >= CAPTURE_QUEUE_SIZE ==> r.queue == t.queue && r.dropCount == t.dropCount + 1
  {
    var full := |t.queue| >= CAPTURE_QUEUE_SIZE;
    t.(lastLevel := PeakLevel(f),
       queue := Offer(t.queue, CAPTURE_QUEUE_SIZE, f),
       dropCount := if full then t.dropCount + 1 else t.dropCount)
  }

  /** `recv`: the oldest queued frame or silence; the timestamp advances by its length. */
  function CaptureRecv(t: CaptureTrackState): (r: (CaptureTrackState, Frame))
    ensures t.queue != [] ==> r.1 == t.queue[0] && r.0.queue == t.queue[1..]
    ensures t.queue == [] ==> r.1 == Silence(FRAME_SIZE) && r.0.queue == []
    ensures r.0.timestamp == t.timestamp + |r.1|
    ensures r.0 == t.(queue := r.0.queue, timestamp := r.0.timestamp)
  {
    if t.queue != [] then (t.(queue := t.queue[1..], timestamp := t.timestamp + |t.queue[0]|), t.queue[0])
    else (t.(timestamp := t.timestamp + FRAME_SIZE), Silence(FRAME_SIZE))
  }

  /** Receiving from an idle capture track `n` times emits `n` frames of silence and advances the timestamp by as many frames. */
  lemma {:induction false} IdleTimestamp(t: CaptureTrackState, n: nat)
    requires t.queue == []
    ensures RecvTimes(t, n).0.timestamp == t.timestamp + n * FRAME_SIZE
    ensures RecvTimes(t, n).0.queue == []
    ensures |RecvTimes(t, n).1| == n && forall i :: 0 <= i < n ==> RecvTimes(t, n).1[i] == Silence(FRAME_SIZE)
    decreases n
  {
    if n > 0 { IdleTimestamp(CaptureRecv(t).0, n - 1); }
  }

  /** The track after `n` calls of `recv`, and the frames they returned, in order. */
  function RecvTimes(t: CaptureTrackState, n: nat): (CaptureTrackState, seq<Frame>)
    decreases n
  {
    if n == 0 then (t, [])
    else
      var next := RecvTimes(CaptureRecv(t).0, n - 1);
      (next.0, [CaptureRecv(t).1] + next.1)
  }

  class AudioCaptureTrack {
    var queue: seq<Frame>
    var timestamp: nat
    var lastLevel: real
    var dropCount: nat

    function State(): CaptureTrackState reads this {
      CaptureTrackState(queue, timestamp, lastLevel, dropCount)
    }

    predicate Valid() reads this { CaptureValid(State()) }

    constructor ()
      ensures Valid() && State() == CaptureTrackState([], 0, 0.0, 0)
    {
      queue, timestamp, lastLevel, dropCount := [], 0, 0.0, 0;
    }

    method FeedAudio(pcm: Frame)
      requires Valid() && |pcm| > 0
      modifies this
      ensures Valid() && State() == Fed(old(State()), pcm)
    {
      lastLevel := PeakLevel(pcm);
      if |queue| < CAPTURE_QUEUE_SIZE {
        queue := queue + [pcm];
      } else {
        dropCount := dropCount + 1;
      }
    }

    method Recv() returns (frame: Frame)
      requires Valid()
      modifies this
      ensures Valid() && (State(), frame) == CaptureRecv(old(State()))
    {
      if |queue| > 0 {
        frame := queue[0];
        queue := queue[1..];
      } else {
        frame := Silence(FRAME_SIZE);
      }
      timestamp := timestamp + |frame|;
    }
  }

  // ---------------------------------------------------------------- AudioPlaybackTrack

  /** A client queue of one remote speaker's audio, scaled by a volume. */
  datatype PlaybackTrackState = PlaybackTrackState(
    queue: seq<Frame>, volume: real, dropCount: nat, frameCount: nat)

  predicate PlaybackValid(t: PlaybackTrackState) {
    |t.queue| <= PLAYBACK_QUEUE_SIZE
  }

  /** One decoded frame in the receive loop: counted, scaled, then queued or dropped. */
  function PlaybackReceive(t: PlaybackTrackState, f: Frame): (r: PlaybackTrackState)
    requires PlaybackValid(t)
    ensures PlaybackValid(r) && r.frameCount == t.frameCount + 1 && r.volume == t.volume
    ensures |t.queue| < PLAYBACK_QUEUE_SIZE ==> r.queue == t.queue + [Scale(f, t.volume)] && r.dropCount == t.dropCount
    ensures |t.queue| >= PLAYBACK_QUEUE_SIZE ==> r.queue == t.queue && r.dropCount == t.dropCount + 1
  {
    var full := |t.queue| >= PLAYBACK_QUEUE_SIZE;
    t.(frameCount := t.frameCount + 1,
       queue := Offer(t.queue, PLAYBACK_QUEUE_SIZE, Scale(f, t.volume)),
       dropCount := if full then t.dropCount + 1 else t.dropCount)
  }

  /** `get_frame`: the oldest queued frame, or None when empty. */
  function PlaybackGetFrame(t: PlaybackTrackState): (res: (PlaybackTrackState, Option<Frame>))
    ensures t.queue == [] <==> res.1 == None
    ensures t.queue != [] ==> res.1 == Some(t.queue[0]) && res.0.queue == t.queue[1..]
    ensures t.queue == [] ==> res.0 == t
    ensures res.0 == t.(queue := res.0.queue)
  {
    if |t.queue| == 0 then (t, None) else (t.(queue := t.queue[1..]), Some(t.queue[0]))
  }

  class AudioPlaybackTrack {
    var queue: seq<Frame>
    var volume: real
    var dropCount: nat
    var frameCount: nat

    function State(): PlaybackTrackState reads this {
      PlaybackTrackState(queue, volume, dropCount, frameCount)
    }

    predicate Valid() reads this { PlaybackValid(State()) }

    constructor ()
      ensures Valid() && State() == PlaybackTrackState([], 1.0, 0, 0)
    {
      queue, volume, dropCount, frameCount := [], 1.0, 0, 0;
    }

    method SetVolume(v: real)
      modifies this
      ensures State() == old(State()).(volume := v)
    {
      volume := v;
    }

    method Receive(pcm: Frame)
      requires Valid()
      modifies this
      ensures Valid() && State() == PlaybackReceive(old(State()), pcm)
    {
      frameCount := frameCount + 1;
      if |queue| < PLAYBACK_QUEUE_SIZE {
        queue := queue + [Scale(pcm, volume)];
      } else {
        dropCount := dropCount + 1;
      }
    }

    method GetFrame() returns (frame: Option<Frame>)
      requires Valid()
      modifies this
      ensures Valid() && (State(), frame) == PlaybackGetFrame(old(State()))
    {
      if |queue| == 0 {
        frame := None;
      } else {
        frame := Some(queue[0]);
        queue := queue[1..];
      }
    }
  }
}
