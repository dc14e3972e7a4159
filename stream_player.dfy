/**
 * Radio streams placed on the map (rogue_talk/client/stream_player.py): each
 * level stream within its radius of the player is started and given a
 * volume that falls with distance; every frame, each stream's volume fades
 * toward its target, faded-out streams are stopped and removed, and audible
 * ones contribute the next samples from their buffered chunk and chunk queue.
 * Samples and volumes are exact reals and the square root of the squared
 * distance is a parameter; the reader threads are represented only by the
 * chunks they have queued.
 */
module StreamPlayers {
  import opened Wrappers
  import opened Constants
  import opened Fades
  import Collections
  import LevelPacks
  import AudioRouter

  type Frame = seq<real>

  const STREAM_BASE_VOLUME: real := 0.4
  const FADE_SPEED: real := 0.05
  /** Below this volume a stream is not mixed. */
  const SILENT_VOLUME: real := 0.001
  /** `queue.Queue(maxsize=100)`: chunks a reader may have waiting. */
  const QUEUE_CAPACITY: nat := 100

  /**
   * A playing stream: where it is, its volumes, whether its reader should
   * keep running, the decoded chunks its reader has queued, the chunk being
   * played and the position in it, and the reader's counters.
   */
  datatype ActiveStream = ActiveStream(
    url: string, x: int, y: int, radius: int,
    targetVolume: real, currentVolume: real, running: bool,
    queue: seq<Frame>, buffer: Option<Frame>, bufferPos: nat,
    dropCount: nat, frameCount: nat)

  predicate StreamValid(s: ActiveStream) {
    |s.queue| <= QUEUE_CAPACITY && (s.buffer.Some? ==> s.bufferPos <= |s.buffer.value|)
  }

  /** `_start_stream(info)`: silent, running, with an empty queue and no chunk yet. */
  function NewStream(info: LevelPacks.StreamInfo): (r: ActiveStream)
    ensures StreamValid(r) && r.url == info.url && r.running && r.currentVolume == 0.0
  {
    ActiveStream(info.url, info.x, info.y, info.radius, 0.0, 0.0, true, [], None, 0, 0, 0)
  }

  function MinNat(a: nat, b: nat): nat { if a <= b then a else b }

  // ---------------------------------------------------------------- update_streams

  /** The player's position and the square root used for distances (`math.sqrt`, floating point in the source). */
  datatype Listener = Listener(x: int, y: int, root: int -> real)

  /** `root` is the exact non-negative square root of every squared distance (and non-negative elsewhere). */
  ghost predicate RootValid(l: Listener) {
    (forall d :: 0.0 <= l.root(d)) &&
    (forall d :: 0 <= d ==> l.root(d) * l.root(d) == d as real)
  }

  function Distance(info: LevelPacks.StreamInfo, l: Listener): real {
    var dx := l.x - info.x;
    var dy := l.y - info.y;
    l.root(dx * dx + dy * dy)
  }

  predicate InRange(info: LevelPacks.StreamInfo, l: Listener) {
    Distance(info, l) <= info.radius as real
  }

  /** Full volume at distance 0, falling linearly toward 0 one tile beyond the radius. */
  function VolumeFor(info: LevelPacks.StreamInfo, l: Listener): real
    requires RootValid(l) && InRange(info, l)
  {
    STREAM_BASE_VOLUME * (1.0 - Distance(info, l) / (info.radius + 1) as real)
  }

  /**
   * A level stream is in range exactly when its radius is non-negative and
   * the squared distance to it is at most the radius squared.
   */
  lemma InRangeSpec(info: LevelPacks.StreamInfo, l: Listener)
    requires RootValid(l)
    ensures var dx, dy := l.x - info.x, l.y - info.y;
      InRange(info, l) <==> 0 <= info.radius && dx * dx + dy * dy <= info.radius * info.radius
  {
    var dx, dy := l.x - info.x, l.y - info.y;
    var d2 := dx * dx + dy * dy;
    SumOfSquares(dx, dy);
    if 0 <= info.radius {
      RootWithin(l.root(d2), d2, info.radius);
    }
  }

  lemma SumOfSquares(dx: int, dy: int)
    ensures 0 <= dx * dx + dy * dy
  {
    assert 0 <= dx * dx && 0 <= dy * dy;
  }

  /** For the exact root `r` of `d2`, `r <= radius` exactly when `d2 <= radius * radius`. */
  lemma RootWithin(r: real, d2: int, radius: int)
    requires 0.0 <= r && r * r == d2 as real && 0 <= radius
    ensures r <= radius as real <==> d2 <= radius * radius
  {
    var rad := radius as real;
    assert (radius * radius) as real == rad * rad;
    AudioRouter.SquareStrict(rad, r);
    AudioRouter.SquareStrict(r, rad);
    if r * r <= rad * rad {
      AudioRouter.RootMonotone(r, rad);
    }
  }

  /**
   * In range, a stream's volume lies between the base volume over
   * `radius + 1` and the base volume, and is the base volume on the
   * stream's own tile.
   */
  lemma VolumeForBounds(info: LevelPacks.StreamInfo, l: Listener)
    requires RootValid(l) && InRange(info, l)
    ensures STREAM_BASE_VOLUME / (info.radius + 1) as real <= VolumeFor(info, l) <= STREAM_BASE_VOLUME
    ensures l.x == info.x && l.y == info.y ==> VolumeFor(info, l) == STREAM_BASE_VOLUME
  {
    var r := Distance(info, l);
    FalloffBounds(r, info.radius as real);
    if l.x == info.x && l.y == info.y {
      assert r * r == 0.0;
      AudioRouter.RootMonotone(r, 0.0);
    }
  }

  lemma FalloffBounds(r: real, rad: real)
    requires 0.0 <= r <= rad
    ensures STREAM_BASE_VOLUME / (rad + 1.0) <= STREAM_BASE_VOLUME * (1.0 - r / (rad + 1.0)) <= STREAM_BASE_VOLUME
  {
    var k := rad + 1.0;
    assert r / k <= rad / k;
    assert rad / k == 1.0 - 1.0 / k;
    assert 0.0 <= r / k;
  }

  /** The level stream is in range and plays `url`. */
  predicate Hits(info: LevelPacks.StreamInfo, url: string, l: Listener) {
    InRange(info, l) && info.url == url
  }

  /** One pass of the first loop: an in-range stream is started if new, then given its volume. */
  function Visit(m: map<string, ActiveStream>, info: LevelPacks.StreamInfo, l: Listener): map<string, ActiveStream>
    requires RootValid(l)
  {
    if InRange(info, l) then
      var s := if info.url in m then m[info.url] else NewStream(info);
      m[info.url := s.(targetVolume := VolumeFor(info, l))]
    else m
  }

  function VisitAll(m: map<string, ActiveStream>, infos: seq<LevelPacks.StreamInfo>, l: Listener): map<string, ActiveStream>
    requires RootValid(l)
    decreases |infos|
  {
    if |infos| == 0 then m else Visit(VisitAll(m, infos[..|infos| - 1], l), infos[|infos| - 1], l)
  }

  /** `active_urls`: the URLs of the level streams in range. */
  function Active(infos: seq<LevelPacks.StreamInfo>, l: Listener): set<string> {
    set i | 0 <= i < |infos| && InRange(infos[i], l) :: infos[i].url
  }

  /** The streams after `update_streams`: the in-range ones visited in order, every other stream's target 0. */
  function Updated(m: map<string, ActiveStream>, infos: seq<LevelPacks.StreamInfo>, l: Listener): map<string, ActiveStream>
    requires RootValid(l)
  {
    var v := VisitAll(m, infos, l);
    map u | u in v :: if u in Active(infos, l) then v[u] else v[u].(targetVolume := 0.0)
  }

  lemma ActiveNext(infos: seq<LevelPacks.StreamInfo>, l: Listener, n: nat)
    requires n < |infos|
    ensures Active(infos[..n + 1], l) == Active(infos[..n], l) + (if InRange(infos[n], l) then {infos[n].url} else {})
  {
    var a, b := infos[..n + 1], infos[..n];
    forall u | u in Active(a, l) ensures u in Active(b, l) + (if InRange(infos[n], l) then {infos[n].url} else {}) {
      var i :| 0 <= i < |a| && InRange(a[i], l) && a[i].url == u;
      if i < n {
        assert b[i] == a[i];
      }
    }
    forall u | u in Active(b, l) ensures u in Active(a, l) {
      var i :| 0 <= i < |b| && InRange(b[i], l) && b[i].url == u;
      assert a[i] == b[i];
    }
    if InRange(infos[n], l) {
      assert a[n] == infos[n];
    }
  }

  /** A stream is present after the visits exactly when it was before or some level stream in range plays it. */
  lemma {:induction false} VisitAllKeys(m: map<string, ActiveStream>, infos: seq<LevelPacks.StreamInfo>, l: Listener, u: string)
    requires RootValid(l)
    ensures u in VisitAll(m, infos, l) <==> u in m || u in Active(infos, l)
    decreases |infos|
  {
    if infos != [] {
      var n := |infos| - 1;
      VisitAllKeys(m, infos[..n], l, u);
      ActiveNext(infos, l, n);
      assert infos[..n + 1] == infos;
    }
  }

  /**
   * Visiting changes only targets of streams already playing, and a stream
   * that no level stream in range plays is left as it was.
   */
  lemma {:induction false} VisitAllOld(m: map<string, ActiveStream>, infos: seq<LevelPacks.StreamInfo>, l: Listener, u: string)
    requires RootValid(l) && u in m
    ensures u in VisitAll(m, infos, l)
    ensures VisitAll(m, infos, l)[u] == m[u].(targetVolume := VisitAll(m, infos, l)[u].targetVolume)
    ensures u !in Active(infos, l) ==> VisitAll(m, infos, l)[u] == m[u]
    decreases |infos|
  {
    if infos != [] {
      var n := |infos| - 1;
      VisitAllOld(m, infos[..n], l, u);
      ActiveNext(infos, l, n);
      assert infos[..n + 1] == infos;
    }
  }

  /** A stream started by the visits is a fresh stream for one of the level streams that play it. */
  lemma {:induction false} VisitAllNew(m: map<string, ActiveStream>, infos: seq<LevelPacks.StreamInfo>, l: Listener, u: string)
    requires RootValid(l) && u !in m && u in VisitAll(m, infos, l)
    ensures
      exists i :: 0 <= i < |infos| && Hits(infos[i], u, l)
        && VisitAll(m, infos, l)[u] == NewStream(infos[i]).(targetVolume := VisitAll(m, infos, l)[u].targetVolume)
    decreases |infos|
  {
    var n := |infos| - 1;
    var init := infos[..n];
    var v := VisitAll(m, init, l);
    if u in v {
      VisitAllNew(m, init, l, u);
      var i :| 0 <= i < |init| && Hits(init[i], u, l) && v[u] == NewStream(init[i]).(targetVolume := v[u].targetVolume);
      assert infos[i] == init[i];
    } else {
      assert Hits(infos[n], u, l);
    }
  }

  /** A stream that some level stream in range plays ends with the volume of the last such level stream. */
  lemma {:induction false} VisitAllTarget(m: map<string, ActiveStream>, infos: seq<LevelPacks.StreamInfo>, l: Listener, u: string, i: nat)
    requires RootValid(l) && i < |infos| && Hits(infos[i], u, l)
    requires forall j :: i < j < |infos| ==> !Hits(infos[j], u, l)
    ensures u in VisitAll(m, infos, l) && VisitAll(m, infos, l)[u].targetVolume == VolumeFor(infos[i], l)
    decreases |infos|
  {
    var n := |infos| - 1;
    var init := infos[..n];
    if i < n {
      assert forall j :: i < j < |init| ==> init[j] == infos[j];
      VisitAllTarget(m, init, l, u, i);
      assert !Hits(infos[n], u, l);
    }
  }

  /** Some last index among those that satisfy `Hits`. */
  lemma LastHit(infos: seq<LevelPacks.StreamInfo>, l: Listener, u: string) returns (i: nat)
    requires u in Active(infos, l)
    ensures i < |infos| && Hits(infos[i], u, l) && forall j :: i < j < |infos| ==> !Hits(infos[j], u, l)
  {
    var k :| 0 <= k < |infos| && InRange(infos[k], l) && infos[k].url == u;
    i := k;
    while i + 1 < |infos| && exists j :: i < j < |infos| && Hits(infos[j], u, l)
      invariant i < |infos| && Hits(infos[i], u, l)
      decreases |infos| - i
    {
      var j :| i < j < |infos| && Hits(infos[j], u, l);
      i := j;
    }
  }

  /**
   * After `update_streams`: a stream is present exactly when it was or an
   * in-range level stream plays it; a stream out of range has target 0 and
   * is otherwise unchanged; one in range has the volume of the last level
   * stream that plays it; only targets of existing streams change, and new
   * streams start silent with an empty queue.
   */
  lemma UpdatedSpec(m: map<string, ActiveStream>, infos: seq<LevelPacks.StreamInfo>, l: Listener, u: string)
    requires RootValid(l)
    ensures u in Updated(m, infos, l) <==> u in m || u in Active(infos, l)
    ensures u in m && u !in Active(infos, l) ==> Updated(m, infos, l)[u] == m[u].(targetVolume := 0.0)
    ensures u in m ==> Updated(m, infos, l)[u] == m[u].(targetVolume := Updated(m, infos, l)[u].targetVolume)
    ensures u in Active(infos, l) ==>
      exists i :: 0 <= i < |infos| && Hits(infos[i], u, l)
        && Updated(m, infos, l)[u].targetVolume == VolumeFor(infos[i], l)
        && forall j :: i < j < |infos| ==> !Hits(infos[j], u, l)
    ensures u in Updated(m, infos, l) && u !in m ==>
      exists i :: 0 <= i < |infos| && Hits(infos[i], u, l)
        && Updated(m, infos, l)[u] == NewStream(infos[i]).(targetVolume := Updated(m, infos, l)[u].targetVolume)
  {
    VisitAllKeys(m, infos, l, u);
    if u in m {
      VisitAllOld(m, infos, l, u);
    }
    if u in Active(infos, l) {
      var i := LastHit(infos, l, u);
      VisitAllTarget(m, infos, l, u, i);
    }
    if u in Updated(m, infos, l) && u !in m {
      VisitAllNew(m, infos, l, u);
    }
  }

  /** A level without streams fades every stream out and starts none. */
  lemma UpdatedNoStreams(m: map<string, ActiveStream>, l: Listener)
    requires RootValid(l)
    ensures Updated(m, [], l) == map u | u in m :: m[u].(targetVolume := 0.0)
  {
    assert Active([], l) == {};
  }

  /** One pass of the first loop of `update_streams`: the volume from the distance, and the stream started if new. */
  method VisitOne(m: map<string, ActiveStream>, info: LevelPacks.StreamInfo, l: Listener)
    returns (r: map<string, ActiveStream>, inRange: bool)
    requires RootValid(l)
    ensures r == Visit(m, info, l) && inRange == InRange(info, l)
  {
    var dx := l.x - info.x;
    var dy := l.y - info.y;
    var distance := l.root(dx * dx + dy * dy);
    inRange := distance <= info.radius as real;
    r := m;
    if inRange {
      var volume := STREAM_BASE_VOLUME * (1.0 - distance / (info.radius + 1) as real);
      if info.url !in r {
        r := r[info.url := NewStream(info)];
      }
      r := r[info.url := r[info.url].(targetVolume := volume)];
    }
  }

  /** The first loop of `update_streams`. */
  method VisitStreams(m: map<string, ActiveStream>, infos: seq<LevelPacks.StreamInfo>, l: Listener)
    returns (r: map<string, ActiveStream>, activeUrls: set<string>)
    requires RootValid(l)
    ensures r == VisitAll(m, infos, l) && activeUrls == Active(infos, l)
  {
    r, activeUrls := m, {};
    for i := 0 to |infos|
      invariant r == VisitAll(m, infos[..i], l) && activeUrls == Active(infos[..i], l)
    {
      assert infos[..i + 1][..i] == infos[..i];
      ActiveNext(infos, l, i);
      var inRange;
      r, inRange := VisitOne(r, infos[i], l);
      if inRange {
        activeUrls := activeUrls + {infos[i].url};
      }
    }
    assert infos[..|infos|] == infos;
  }

  /** `stream.target_volume = 0.0` for every stream whose URL is not in `keep`. */
  method SilenceExcept(m: map<string, ActiveStream>, keep: set<string>) returns (r: map<string, ActiveStream>)
    ensures r == map u | u in m :: if u in keep then m[u] else m[u].(targetVolume := 0.0)
  {
    r := m;
    var rest := m.Keys;
    while rest != {}
      invariant rest <= m.Keys && r.Keys == m.Keys
      invariant forall u :: u in m && u !in rest ==> r[u] == if u in keep then m[u] else m[u].(targetVolume := 0.0)
      invariant forall u :: u in rest ==> r[u] == m[u]
      decreases rest
    {
      var u := Collections.Pick(rest);
      if u !in keep {
        r := r[u := r[u].(targetVolume := 0.0)];
      }
      rest := rest - {u};
    }
  }

  // ---------------------------------------------------------------- the fill loop

  /** What is left of the chunk being played. */
  function Buffered(s: ActiveStream): Frame {
    if s.buffer.Some? && s.bufferPos < |s.buffer.value| then s.buffer.value[s.bufferPos..] else []
  }

  function Flatten(q: seq<Frame>): Frame
    decreases |q|
  {
    if |q| == 0 then [] else q[0] + Flatten(q[1..])
  }

  /** Every sample the stream has yet to play, in order. */
  function Pending(s: ActiveStream): Frame {
    Buffered(s) + Flatten(s.queue)
  }

  /**
   * The fill loop taking up to `need` samples: from the current chunk first,
   * then from the next queued chunk, until enough are taken or nothing is
   * queued. The new state and the samples taken.
   */
  function Read(s: ActiveStream, need: nat): (ActiveStream, Frame)
    decreases need, |s.queue|
  {
    if need == 0 then (s, [])
    else if Buffered(s) != [] then
      var take := MinNat(|Buffered(s)|, need);
      var (t, rest) := Read(s.(bufferPos := s.bufferPos + take), need - take);
      (t, Buffered(s)[..take] + rest)
    else if s.queue != [] then
      Read(s.(buffer := Some(s.queue[0]), bufferPos := 0, queue := s.queue[1..]), need)
    else (s, [])
  }

  /** Popping the next chunk keeps the pending samples. */
  lemma PendingPop(s: ActiveStream)
    requires Buffered(s) == [] && s.queue != []
    ensures Pending(s.(buffer := Some(s.queue[0]), bufferPos := 0, queue := s.queue[1..])) == Pending(s)
  {
    var t := s.(buffer := Some(s.queue[0]), bufferPos := 0, queue := s.queue[1..]);
    assert Buffered(t) == s.queue[0];
  }

  /** Moving the position in the current chunk drops exactly the samples passed. */
  lemma BufferedAdvance(s: ActiveStream, take: nat)
    requires take <= |Buffered(s)|
    ensures Buffered(s.(bufferPos := s.bufferPos + take)) == Buffered(s)[take..]
  {
  }

  /** `out` is the first min(need, pending) samples of `s`, and `t` has the rest pending. */
  ghost predicate TakesFrom(s: ActiveStream, need: nat, t: ActiveStream, out: Frame) {
    |out| == MinNat(need, |Pending(s)|) && out == Pending(s)[..|out|] && Pending(t) == Pending(s)[|out|..]
  }

  lemma SplitTake(p: Frame, take: nat, need: nat, out: Frame)
    requires take <= need && take <= |p|
    requires |out| == MinNat(need - take, |p| - take) && out == p[take..][..|out|]
    ensures |p[..take] + out| == MinNat(need, |p|)
    ensures p[..take] + out == p[..take + |out|]
    ensures p[take..][|out|..] == p[take + |out|..]
  {
  }

  /** Copying `take` samples of the chunk and then taking the rest is taking them all. */
  lemma TakesAfterCopy(s: ActiveStream, s': ActiveStream, need: nat, take: nat, t: ActiveStream, out: Frame)
    requires 0 < take <= need && take == MinNat(|Buffered(s)|, need)
    requires Pending(s') == Pending(s)[take..]
    requires TakesFrom(s', need - take, t, out)
    ensures TakesFrom(s, need, t, Buffered(s)[..take] + out)
  {
    var p := Pending(s);
    assert Buffered(s)[..take] == p[..take];
    SplitTake(p, take, need, out);
  }

  /** Moving the position in the current chunk drops exactly the samples passed from what is pending. */
  lemma PendingAdvance(s: ActiveStream, take: nat)
    requires take <= |Buffered(s)|
    ensures Pending(s.(bufferPos := s.bufferPos + take)) == Pending(s)[take..]
  {
    BufferedAdvance(s, take);
    var b, f := Buffered(s), Flatten(s.queue);
    assert (b + f)[take..] == b[take..] + f;
  }

  /** The fill loop takes the first min(need, pending) samples in order and leaves the rest pending. */
  lemma {:induction false} ReadTakes(s: ActiveStream, need: nat)
    ensures TakesFrom(s, need, Read(s, need).0, Read(s, need).1)
    decreases need, |s.queue|
  {
    if need > 0 {
      var b := Buffered(s);
      if b != [] {
        var take := MinNat(|b|, need);
        var s' := s.(bufferPos := s.bufferPos + take);
        ReadTakes(s', need - take);
        ReadCopy(s, need, take);
        PendingAdvance(s, take);
        TakesAfterCopy(s, s', need, take, Read(s', need - take).0, Read(s', need - take).1);
      } else if s.queue != [] {
        PendingPop(s);
        ReadTakes(s.(buffer := Some(s.queue[0]), bufferPos := 0, queue := s.queue[1..]), need);
      }
    }
  }

  /**
   * Only the chunk, the position and the queue change, the queue only loses
   * chunks from its front, and when fewer than `need` samples were taken
   * nothing is left.
   */
  lemma {:induction false} ReadState(s: ActiveStream, need: nat)
    ensures Read(s, need).0 == s.(queue := Read(s, need).0.queue, buffer := Read(s, need).0.buffer, bufferPos := Read(s, need).0.bufferPos)
    ensures |Read(s, need).0.queue| <= |s.queue| && Read(s, need).0.queue == s.queue[|s.queue| - |Read(s, need).0.queue|..]
    ensures |Read(s, need).1| < need ==> Read(s, need).0.queue == [] && Buffered(Read(s, need).0) == []
    ensures StreamValid(s) ==> StreamValid(Read(s, need).0)
    decreases need, |s.queue|
  {
    if need > 0 {
      var b := Buffered(s);
      if b != [] {
        var take := MinNat(|b|, need);
        ReadState(s.(bufferPos := s.bufferPos + take), need - take);
        ReadCopy(s, need, take);
      } else if s.queue != [] {
        var s' := s.(buffer := Some(s.queue[0]), bufferPos := 0, queue := s.queue[1..]);
        ReadState(s', need);
        ReadPop(s, need);
        var q := Read(s', need).0.queue;
        assert s.queue[1..][|s.queue[1..]| - |q|..] == s.queue[|s.queue| - |q|..];
      }
    }
  }

  /** `mixed[:len(samples)] += samples * volume` */
  function AddSamples(mixed: Frame, samples: Frame, volume: real): (r: Frame)
    ensures |r| == |mixed|
  {
    seq(|mixed|, k requires 0 <= k < |mixed| => mixed[k] + (if k < |samples| then samples[k] * volume else 0.0))
  }

  /** `mixed[pos:pos + len(chunk)] += chunk * volume` */
  function AddAt(mixed: Frame, pos: nat, chunk: Frame, volume: real): (r: Frame)
    ensures |r| == |mixed|
  {
    seq(|mixed|, k requires 0 <= k < |mixed| =>
      mixed[k] + (if pos <= k < pos + |chunk| then chunk[k - pos] * volume else 0.0))
  }

  /** Adding the next chunk right after the samples already added is adding both at once. */
  lemma AddAtSamples(mixed: Frame, done: Frame, chunk: Frame, volume: real)
    requires |done| + |chunk| <= |mixed|
    ensures AddAt(AddSamples(mixed, done, volume), |done|, chunk, volume) == AddSamples(mixed, done + chunk, volume)
  {
    var lhs := AddAt(AddSamples(mixed, done, volume), |done|, chunk, volume);
    var rhs := AddSamples(mixed, done + chunk, volume);
    forall k | 0 <= k < |mixed| ensures lhs[k] == rhs[k] {
      if k < |done| {
        assert (done + chunk)[k] == done[k];
      } else if k < |done| + |chunk| {
        assert (done + chunk)[k] == chunk[k - |done|];
      }
    }
  }

  /** One turn of the fill loop while the chunk is exhausted: the next chunk is popped. */
  lemma ReadPop(s: ActiveStream, need: nat)
    requires need > 0 && Buffered(s) == [] && s.queue != []
    ensures Read(s, need) == Read(s.(buffer := Some(s.queue[0]), bufferPos := 0, queue := s.queue[1..]), need)
  {
  }

  /** One turn of the fill loop on the current chunk: `take` samples are copied. */
  lemma ReadCopy(s: ActiveStream, need: nat, take: nat)
    requires need > 0 && Buffered(s) != [] && take == MinNat(|Buffered(s)|, need)
    ensures Read(s, need).0 == Read(s.(bufferPos := s.bufferPos + take), need - take).0
    ensures Read(s, need).1 == Buffered(s)[..take] + Read(s.(bufferPos := s.bufferPos + take), need - take).1
  {
  }

  /**
   * Part way through the fill loop: `taken` holds the samples copied so far,
   * `mixed` has received them, and reading `need` more from `t` finishes
   * what reading a whole frame from `s` does.
   */
  ghost predicate FillProgress(s: ActiveStream, start: Frame, volume: real, t: ActiveStream, need: nat, taken: Frame, mixed: Frame) {
    |taken| + need == FRAME_SIZE && |start| == FRAME_SIZE && StreamValid(t)
    && mixed == AddSamples(start, taken, volume)
    && Read(s, FRAME_SIZE) == (Read(t, need).0, taken + Read(t, need).1)
  }

  lemma FillCopyStep(s: ActiveStream, start: Frame, volume: real, t: ActiveStream, need: nat, taken: Frame, mixed: Frame,
    take: nat, chunk: Frame)
    requires FillProgress(s, start, volume, t, need, taken, mixed)
    requires need > 0 && Buffered(t) != [] && take == MinNat(|Buffered(t)|, need) && chunk == Buffered(t)[..take]
    ensures FillProgress(s, start, volume, t.(bufferPos := t.bufferPos + take), need - take, taken + chunk,
      AddAt(mixed, |taken|, chunk, volume))
  {
    var t' := t.(bufferPos := t.bufferPos + take);
    ReadCopy(t, need, take);
    AddAtSamples(start, taken, chunk, volume);
    var rest := Read(t', need - take).1;
    assert taken + (chunk + rest) == (taken + chunk) + rest;
  }

  lemma FillPopStep(s: ActiveStream, start: Frame, volume: real, t: ActiveStream, need: nat, taken: Frame, mixed: Frame)
    requires FillProgress(s, start, volume, t, need, taken, mixed)
    requires need > 0 && Buffered(t) == [] && t.queue != []
    ensures FillProgress(s, start, volume, t.(buffer := Some(t.queue[0]), bufferPos := 0, queue := t.queue[1..]), need, taken, mixed)
  {
    ReadPop(t, need);
  }

  lemma FillDone(s: ActiveStream, start: Frame, volume: real, t: ActiveStream, need: nat, taken: Frame, mixed: Frame)
    requires FillProgress(s, start, volume, t, need, taken, mixed)
    requires need == 0 || (Buffered(t) == [] && t.queue == [])
    ensures t == Read(s, FRAME_SIZE).0 && mixed == AddSamples(start, Read(s, FRAME_SIZE).1, volume)
  {
    assert taken + [] == taken;
  }

  /**
   * The fill loop: `output_pos` stays within the frame and `buffer_pos`
   * within the chunk; the frame receives the samples `Read` takes.
   */
  method FillFrame(s: ActiveStream, mixed: Frame, volume: real) returns (t: ActiveStream, mixedOut: Frame)
    requires StreamValid(s) && |mixed| == FRAME_SIZE
    ensures t == Read(s, FRAME_SIZE).0
    ensures mixedOut == AddSamples(mixed, Read(s, FRAME_SIZE).1, volume)
  {
    t, mixedOut := s, mixed;
    var samplesNeeded: nat := FRAME_SIZE;
    var outputPos: nat := 0;
    ghost var taken: Frame := [];
    assert mixed == AddSamples(mixed, [], volume);
    assert Read(s, FRAME_SIZE).1 == taken + Read(s, FRAME_SIZE).1;
    while samplesNeeded > 0
      invariant outputPos == |taken| <= FRAME_SIZE
      invariant t.buffer.Some? ==> t.bufferPos <= |t.buffer.value|
      invariant FillProgress(s, mixed, volume, t, samplesNeeded, taken, mixedOut)
      decreases samplesNeeded, |t.queue|
    {
      if t.buffer.Some? && t.bufferPos < |t.buffer.value| {
        var available := |t.buffer.value| - t.bufferPos;
        var toCopy := MinNat(available, samplesNeeded);
        var chunk := t.buffer.value[t.bufferPos..t.bufferPos + toCopy];
        FillCopyStep(s, mixed, volume, t, samplesNeeded, taken, mixedOut, toCopy, chunk);
        mixedOut := AddAt(mixedOut, outputPos, chunk, volume);
        taken := taken + chunk;
        t := t.(bufferPos := t.bufferPos + toCopy);
        outputPos := outputPos + toCopy;
        samplesNeeded := samplesNeeded - toCopy;
      } else if t.queue != [] {
        FillPopStep(s, mixed, volume, t, samplesNeeded, taken, mixedOut);
        t := t.(buffer := Some(t.queue[0]), bufferPos := 0, queue := t.queue[1..]);
      } else {
        break;
      }
    }
    FillDone(s, mixed, volume, t, samplesNeeded, taken, mixedOut);
  }

  // ---------------------------------------------------------------- _get_mixed_frame

  function Faded(s: ActiveStream): ActiveStream {
    s.(currentVolume := Fade(s.currentVolume, s.targetVolume, FADE_SPEED))
  }

  /** A stream whose fade and target have reached silence is stopped and removed. */
  predicate Gone(s: ActiveStream) {
    Fade(s.currentVolume, s.targetVolume, FADE_SPEED) <= 0.0 && s.targetVolume <= 0.0
  }

  /** Audible after this frame's fade: it is mixed and consumes samples. */
  predicate Audible(s: ActiveStream) {
    !Gone(s) && Fade(s.currentVolume, s.targetVolume, FADE_SPEED) >= SILENT_VOLUME
  }

  /** A stream that stays after one frame: faded, and past one frame of samples when audible. */
  function StreamStep(s: ActiveStream): ActiveStream {
    if Audible(s) then Read(Faded(s), FRAME_SIZE).0 else Faded(s)
  }

  /** What one pass of the stream loop leaves of a stream: stopped when gone, else stepped. */
  function Outcome(s: ActiveStream): ActiveStream {
    if Gone(s) then Faded(s).(running := false) else StreamStep(s)
  }

  /** The samples a stream plays in this frame, before scaling. */
  function Heard(s: ActiveStream): Frame {
    if Audible(s) then Read(Faded(s), FRAME_SIZE).1 else []
  }

  function StreamSample(s: ActiveStream, k: nat): real {
    if k < |Heard(s)| then Heard(s)[k] * Fade(s.currentVolume, s.targetVolume, FADE_SPEED) else 0.0
  }

  /** The sum of every stream's sample `k`, taken in some fixed order. */
  ghost function StreamMix(m: map<string, ActiveStream>, k: nat): real
    decreases |m.Keys|
  {
    if m == map[] then 0.0
    else
      var u := Collections.Choose(m.Keys);
      StreamSample(m[u], k) + StreamMix(m - {u}, k)
  }

  /** The order of summation does not matter: any stream can be taken out first. */
  lemma {:induction false} StreamMixRemove(m: map<string, ActiveStream>, u: string, k: nat)
    requires u in m
    ensures StreamMix(m, k) == StreamSample(m[u], k) + StreamMix(m - {u}, k)
    decreases |m.Keys|
  {
    var first := Collections.Choose(m.Keys);
    if first != u {
      var rest := m - {first};
      assert |rest.Keys| < |m.Keys| by { assert rest.Keys == m.Keys - {first}; }
      StreamMixRemove(rest, u, k);
      assert (m - {u}) - {first} == rest - {u};
      assert |(m - {u}).Keys| < |m.Keys| by { assert (m - {u}).Keys == m.Keys - {u}; }
      StreamMixRemove(m - {u}, first, k);
    }
  }

  /** The streams after one frame: the faded-out ones are gone and the rest have stepped. */
  function AfterFrame(m: map<string, ActiveStream>): map<string, ActiveStream> {
    map u | u in m && !Gone(m[u]) :: StreamStep(m[u])
  }

  /** The streams removed in this frame, with their readers told to stop. */
  function Stopped(m: map<string, ActiveStream>): map<string, ActiveStream> {
    map u | u in m && Gone(m[u]) :: Faded(m[u]).(running := false)
  }

  /**
   * A stream after one frame keeps its place, radius, target and reader
   * state; its volume is one fade step further and it has played the next
   * `FRAME_SIZE` pending samples, or all of them when fewer were queued.
   */
  lemma StreamStepSpec(s: ActiveStream)
    requires !Gone(s)
    ensures StreamStep(s).url == s.url && StreamStep(s).targetVolume == s.targetVolume
    ensures StreamStep(s).currentVolume == Fade(s.currentVolume, s.targetVolume, FADE_SPEED)
    ensures StreamStep(s).running == s.running
    ensures Audible(s) ==> Heard(s) == Pending(s)[..MinNat(FRAME_SIZE, |Pending(s)|)]
    ensures Audible(s) ==> Pending(StreamStep(s)) == Pending(s)[|Heard(s)|..]
    ensures !Audible(s) ==> Pending(StreamStep(s)) == Pending(s) && Heard(s) == []
    ensures StreamValid(s) ==> StreamValid(StreamStep(s))
  {
    ReadTakes(Faded(s), FRAME_SIZE);
    ReadState(Faded(s), FRAME_SIZE);
    assert TakesFrom(Faded(s), FRAME_SIZE, Read(Faded(s), FRAME_SIZE).0, Read(Faded(s), FRAME_SIZE).1);
    assert Pending(Faded(s)) == Pending(s);
  }

  /** One pass of the stream loop: fade, then mark the stream for removal, skip it while silent, or fill from it. */
  method StepStream(s: ActiveStream, mixed: Frame) returns (stepped: ActiveStream, mixedOut: Frame, remove: bool)
    requires StreamValid(s) && |mixed| == FRAME_SIZE
    ensures remove == Gone(s)
    ensures stepped == Outcome(s)
    ensures |mixedOut| == FRAME_SIZE && forall k :: 0 <= k < FRAME_SIZE ==> mixedOut[k] == mixed[k] + StreamSample(s, k)
  {
    mixedOut, remove := mixed, false;
    var current := s.currentVolume;
    if current < s.targetVolume {
      current := MinReal(current + FADE_SPEED, s.targetVolume);
    } else if current > s.targetVolume {
      current := MaxReal(current - FADE_SPEED, s.targetVolume);
    }
    assert current == Fade(s.currentVolume, s.targetVolume, FADE_SPEED);
    stepped := s.(currentVolume := current);
    assert stepped == Faded(s);
    if current <= 0.0 && s.targetVolume <= 0.0 {
      stepped := stepped.(running := false);
      remove := true;
      return;
    }
    if current < SILENT_VOLUME {
      return;
    }
    stepped, mixedOut := FillFrame(stepped, mixed, current);
  }

  /**
   * Part way through the stream loop: the streams left in `rest` are
   * untouched, the others have stepped (or been stopped, exactly when gone),
   * and `mixed` holds the visited streams' samples.
   */
  ghost predicate MixProgress(m: map<string, ActiveStream>, rest: map<string, ActiveStream>,
    stepped: map<string, ActiveStream>, toRemove: set<string>, mixed: Frame)
  {
    StepsProgress(m, rest, stepped, toRemove)
    && |mixed| == FRAME_SIZE && forall k :: 0 <= k < FRAME_SIZE ==> mixed[k] + StreamMix(rest, k) == StreamMix(m, k)
  }

  ghost predicate StepsProgress(m: map<string, ActiveStream>, rest: map<string, ActiveStream>,
    stepped: map<string, ActiveStream>, toRemove: set<string>)
  {
    rest.Keys <= m.Keys && (forall u :: u in rest ==> rest[u] == m[u])
    && (forall u :: u in m ==> StreamValid(m[u]))
    && stepped.Keys == m.Keys - rest.Keys
    && (forall u :: u in stepped ==> stepped[u] == Outcome(m[u]))
    && toRemove <= stepped.Keys && (forall u :: u in stepped ==> (u in toRemove <==> Gone(m[u])))
  }

  lemma MixAdvance(m: map<string, ActiveStream>, rest: map<string, ActiveStream>,
    stepped: map<string, ActiveStream>, toRemove: set<string>, mixed: Frame, u: string,
    s2: ActiveStream, mixed2: Frame)
    requires MixProgress(m, rest, stepped, toRemove, mixed) && u in rest
    requires s2 == Outcome(rest[u])
    requires |mixed2| == FRAME_SIZE && forall k :: 0 <= k < FRAME_SIZE ==> mixed2[k] == mixed[k] + StreamSample(rest[u], k)
    ensures |(rest - {u}).Keys| < |rest.Keys|
    ensures MixProgress(m, rest - {u}, stepped[u := s2], if Gone(rest[u]) then toRemove + {u} else toRemove, mixed2)
  {
    assert (rest - {u}).Keys == rest.Keys - {u};
    StepsAdvance(m, rest, stepped, toRemove, u, s2);
    MixSumStep(m, rest, mixed, u, mixed2);
  }

  lemma StepsAdvance(m: map<string, ActiveStream>, rest: map<string, ActiveStream>,
    stepped: map<string, ActiveStream>, toRemove: set<string>, u: string, s2: ActiveStream)
    requires StepsProgress(m, rest, stepped, toRemove) && u in rest && s2 == Outcome(rest[u])
    ensures StepsProgress(m, rest - {u}, stepped[u := s2], if Gone(rest[u]) then toRemove + {u} else toRemove)
  {
  }

  lemma MixSumStep(m: map<string, ActiveStream>, rest: map<string, ActiveStream>, mixed: Frame, u: string, mixed2: Frame)
    requires u in rest && |mixed| == FRAME_SIZE && |mixed2| == FRAME_SIZE
    requires forall k :: 0 <= k < FRAME_SIZE ==> mixed[k] + StreamMix(rest, k) == StreamMix(m, k)
    requires forall k :: 0 <= k < FRAME_SIZE ==> mixed2[k] == mixed[k] + StreamSample(rest[u], k)
    ensures forall k :: 0 <= k < FRAME_SIZE ==> mixed2[k] + StreamMix(rest - {u}, k) == StreamMix(m, k)
  {
    forall k | 0 <= k < FRAME_SIZE
      ensures mixed2[k] + StreamMix(rest - {u}, k) == StreamMix(m, k)
    {
      StreamMixRemove(rest, u, k);
    }
  }

  /** `for url in streams_to_remove: self._streams.pop(url)`: the remaining and the removed streams. */
  method RemoveStreams(m: map<string, ActiveStream>, toRemove: set<string>)
    returns (next: map<string, ActiveStream>, removed: map<string, ActiveStream>)
    requires toRemove <= m.Keys
    ensures next == map u | u in m && u !in toRemove :: m[u]
    ensures removed == map u | u in toRemove :: m[u]
  {
    next, removed := m, map[];
    var removing := toRemove;
    while removing != {}
      invariant removing <= toRemove
      invariant next == map u | u in m && u !in toRemove - removing :: m[u]
      invariant removed == map u | u in toRemove - removing :: m[u]
      decreases removing
    {
      var u := Collections.Pick(removing);
      next := next - {u};
      removed := removed[u := m[u]];
      removing := removing - {u};
    }
  }

  lemma MixDone(m: map<string, ActiveStream>, stepped: map<string, ActiveStream>, toRemove: set<string>, mixed: Frame)
    requires MixProgress(m, map[], stepped, toRemove, mixed)
    ensures forall k :: 0 <= k < FRAME_SIZE ==> mixed[k] == StreamMix(m, k)
    ensures toRemove <= stepped.Keys
    ensures (map u | u in stepped && u !in toRemove :: stepped[u]) == AfterFrame(m)
    ensures (map u | u in toRemove :: stepped[u]) == Stopped(m)
  {
  }

  /** The loop of `_get_mixed_frame` over all streams, then the removal of the faded-out ones. */
  method MixStreams(m: map<string, ActiveStream>) returns (mixed: Frame, next: map<string, ActiveStream>, stopped: map<string, ActiveStream>)
    requires forall u :: u in m ==> StreamValid(m[u])
    ensures |mixed| == FRAME_SIZE && forall k :: 0 <= k < FRAME_SIZE ==> mixed[k] == StreamMix(m, k)
    ensures next == AfterFrame(m) && stopped == Stopped(m)
  {
    mixed := seq(FRAME_SIZE, _ => 0.0);
    var rest := m;
    var stepped: map<string, ActiveStream> := map[];
    var streamsToRemove: set<string> := {};
    while rest != map[]
      invariant MixProgress(m, rest, stepped, streamsToRemove, mixed)
      decreases |rest.Keys|
    {
      var u := Collections.Pick(rest.Keys);
      var s2, mixed2, remove := StepStream(rest[u], mixed);
      MixAdvance(m, rest, stepped, streamsToRemove, mixed, u, s2, mixed2);
      if remove {
        streamsToRemove := streamsToRemove + {u};
      }
      mixed := mixed2;
      stepped := stepped[u := s2];
      rest := rest - {u};
    }
    MixDone(m, stepped, streamsToRemove, mixed);
    next, stopped := RemoveStreams(stepped, streamsToRemove);
  }

  /** The streams that stay keep their URLs and their bounds. */
  lemma AfterFrameValid(m: map<string, ActiveStream>)
    requires forall u :: u in m ==> m[u].url == u && StreamValid(m[u])
    ensures forall u :: u in AfterFrame(m) ==> AfterFrame(m)[u].url == u && StreamValid(AfterFrame(m)[u])
  {
    forall u | u in AfterFrame(m) ensures AfterFrame(m)[u].url == u && StreamValid(AfterFrame(m)[u]) {
      StreamStepSpec(m[u]);
    }
  }

  class StreamPlayer {
    var streams: map<string, ActiveStream>

    /** Every stream is filed under its own URL, with its queue bounded and its position inside its chunk. */
    ghost predicate Valid()
      reads this
    {
      forall u :: u in streams ==> streams[u].url == u && StreamValid(streams[u])
    }

    constructor ()
      ensures Valid() && streams == map[]
    {
      streams := map[];
    }

    /** `update_streams(x, y, level)`: targets follow the level streams in range, and new ones are started. */
    method UpdateStreams(levelStreams: seq<LevelPacks.StreamInfo>, l: Listener)
      requires Valid() && RootValid(l)
      modifies this
      ensures Valid()
      ensures streams == Updated(old(streams), levelStreams, l)
    {
      if levelStreams == [] {
        UpdatedNoStreams(streams, l);
        streams := SilenceExcept(streams, {});
        return;
      }
      var visited, activeUrls := VisitStreams(streams, levelStreams, l);
      streams := SilenceExcept(visited, activeUrls);
      forall u | u in streams ensures streams[u].url == u && StreamValid(streams[u]) {
        UpdatedSpec(old(streams), levelStreams, l, u);
      }
    }

    /**
     * `_get_mixed_frame()`: every sample is the sum of the audible streams'
     * next samples at their faded volumes; faded-out streams are stopped and
     * removed, the rest have faded and consumed what they played.
     */
    method GetMixedFrame() returns (mixed: Frame, stopped: map<string, ActiveStream>)
      requires Valid()
      modifies this
      ensures Valid() && |mixed| == FRAME_SIZE
      ensures forall k :: 0 <= k < FRAME_SIZE ==> mixed[k] == StreamMix(old(streams), k)
      ensures streams == AfterFrame(old(streams))
      ensures stopped == Stopped(old(streams))
    {
      var next;
      mixed, next, stopped := MixStreams(streams);
      AfterFrameValid(streams);
      streams := next;
    }

    /**
     * The reader thread's `put`: the frame is counted, and queued while the
     * queue has room or dropped and counted when it stays full. A stream no
     * longer playing is not affected.
     */
    method Deliver(url: string, chunk: Frame)
      requires Valid()
      modifies this
      ensures Valid()
      ensures url !in old(streams) ==> streams == old(streams)
      ensures url in old(streams) ==> streams == old(streams)[url := Delivered(old(streams)[url], chunk)]
    {
      if url in streams {
        streams := streams[url := Delivered(streams[url], chunk)];
      }
    }

    /** `clear()`: every reader is told to stop and no stream remains. */
    method Clear() returns (stopped: map<string, ActiveStream>)
      requires Valid()
      modifies this
      ensures Valid() && streams == map[]
      ensures stopped == map u | u in old(streams) :: old(streams)[u].(running := false)
    {
      stopped := StopAll(streams);
      streams := map[];
    }
  }

  /** A chunk offered to a stream: counted, then queued if there is room, else counted as dropped. */
  function Delivered(s: ActiveStream, chunk: Frame): (r: ActiveStream)
    ensures StreamValid(s) ==> StreamValid(r)
    ensures r.frameCount == s.frameCount + 1
    ensures |s.queue| < QUEUE_CAPACITY ==> r.queue == s.queue + [chunk] && r.dropCount == s.dropCount
    ensures |s.queue| >= QUEUE_CAPACITY ==> r.queue == s.queue && r.dropCount == s.dropCount + 1
    ensures r.(queue := s.queue, dropCount := s.dropCount, frameCount := s.frameCount) == s
  {
    var counted := s.(frameCount := s.frameCount + 1);
    if |s.queue| < QUEUE_CAPACITY then counted.(queue := s.queue + [chunk])
    else counted.(dropCount := s.dropCount + 1)
  }

  /** `for stream in self._streams.values(): stream.running = False` */
  method StopAll(m: map<string, ActiveStream>) returns (r: map<string, ActiveStream>)
    ensures r == map u | u in m :: m[u].(running := false)
  {
    r := m;
    var rest := m.Keys;
    while rest != {}
      invariant rest <= m.Keys && r.Keys == m.Keys
      invariant forall u :: u in m ==> r[u] == if u in rest then m[u] else m[u].(running := false)
      decreases rest
    {
      var u := Collections.Pick(rest);
      r := r[u := r[u].(running := false)];
      rest := rest - {u};
    }
  }
}
