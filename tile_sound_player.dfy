/**
 * Tile sound effects (rogue_talk/client/tile_sound_player.py): footsteps
 * played once when the player steps on a tile with a walking sound, and
 * ambient loops for tiles with a nearby sound, faded in and out as the
 * player moves. Samples and volumes are exact reals; the loaded sound files
 * are a map from file name to samples.
 */
module TileSoundPlayers {
  import opened Wrappers
  import opened Constants
  import Tiles
  import ClientLevel
  import Collections
  import opened Fades
  import AudioRouter

  type Frame = seq<real>

  const WALKING_SOUND_VOLUME: real := 0.5
  const NEARBY_SOUND_MAX_DISTANCE: int := 3
  const NEARBY_SOUND_BASE_VOLUME: real := 0.3
  const FADE_SPEED: real := 0.1
  /** Below this volume an ambient loop is not mixed. */
  const SILENT_VOLUME: real := 0.001

  datatype OneShotSound = OneShotSound(data: Frame, position: nat, volume: real)

  datatype LoopingSound = LoopingSound(data: Frame, position: nat, targetVolume: real, currentVolume: real)

  function Min(a: int, b: int): int { if a <= b then a else b }

  function Zeros(): (r: Frame)
    ensures |r| == FRAME_SIZE && forall k :: 0 <= k < FRAME_SIZE ==> r[k] == 0.0
  {
    seq(FRAME_SIZE, _ => 0.0)
  }

  // ---------------------------------------------------------------- one-shots

  predicate ShotValid(s: OneShotSound) {
    s.position <= |s.data|
  }

  predicate AllShotsValid(shots: seq<OneShotSound>) {
    forall i :: 0 <= i < |shots| ==> ShotValid(shots[i])
  }

  /** How many samples a one-shot contributes to the next frame. */
  function ToCopy(s: OneShotSound): int {
    Min(FRAME_SIZE, |s.data| - s.position)
  }

  /** A one-shot after one frame: its cursor moves past the copied samples. */
  function Advance(s: OneShotSound): (r: OneShotSound)
    requires ShotValid(s)
    ensures ShotValid(r) && r.data == s.data && r.volume == s.volume
    ensures r.position == s.position + (if |s.data| - s.position < FRAME_SIZE then |s.data| - s.position else FRAME_SIZE)
  {
    if ToCopy(s) > 0 then s.(position := s.position + ToCopy(s)) else s
  }

  predicate Finished(s: OneShotSound) {
    s.position >= |s.data|
  }

  function AdvanceAll(shots: seq<OneShotSound>): (r: seq<OneShotSound>)
    requires AllShotsValid(shots)
    ensures |r| == |shots| && forall i :: 0 <= i < |shots| ==> r[i] == Advance(shots[i])
    decreases |shots|
  {
    if |shots| == 0 then [] else [Advance(shots[0])] + AdvanceAll(shots[1..])
  }

  /** The one-shots still playing, in their order. */
  function Unfinished(shots: seq<OneShotSound>): (r: seq<OneShotSound>)
    ensures |r| <= |shots|
    decreases |shots|, 1
  {
    if |shots| == 0 then [] else UnfinishedNonEmpty(shots)
  }

  function UnfinishedNonEmpty(shots: seq<OneShotSound>): (r: seq<OneShotSound>)
    requires shots != []
    ensures |r| <= |shots|
    decreases |shots|, 0
  {
    (if Finished(shots[0]) then [] else [shots[0]]) + Unfinished(shots[1..])
  }

  lemma {:induction false} UnfinishedAppend(a: seq<OneShotSound>, b: seq<OneShotSound>)
    ensures Unfinished(a + b) == Unfinished(a) + Unfinished(b)
    decreases |a|
  {
    if a != [] {
      var head := if Finished(a[0]) then [] else [a[0]];
      assert (a + b)[0] == a[0];
      assert (a + b)[1..] == a[1..] + b;
      UnfinishedAppend(a[1..], b);
      assert Unfinished(a + b) == head + Unfinished(a[1..] + b);
      assert Unfinished(a) == head + Unfinished(a[1..]);
      assert head + (Unfinished(a[1..]) + Unfinished(b)) == (head + Unfinished(a[1..])) + Unfinished(b);
    } else {
      assert a + b == b;
    }
  }

  lemma {:induction false} UnfinishedKeepsAll(a: seq<OneShotSound>)
    requires forall i :: 0 <= i < |a| ==> !Finished(a[i])
    ensures Unfinished(a) == a
    decreases |a|
  {
    if a != [] {
      UnfinishedKeepsAll(a[1..]);
    }
  }

  lemma UnfinishedCons(x: OneShotSound, rest: seq<OneShotSound>)
    ensures Unfinished([x] + rest) == (if Finished(x) then [] else [x]) + Unfinished(rest)
  {
    assert ([x] + rest)[0] == x;
    assert ([x] + rest)[1..] == rest;
  }

  /** Exactly the one-shots that have not reached their end are kept. */
  lemma {:induction false} UnfinishedMembers(shots: seq<OneShotSound>)
    ensures forall s :: s in Unfinished(shots) <==> s in shots && !Finished(s)
    decreases |shots|
  {
    if shots != [] {
      UnfinishedMembers(shots[1..]);
      assert shots == [shots[0]] + shots[1..];
    }
  }

  lemma UnfinishedValid(shots: seq<OneShotSound>)
    requires AllShotsValid(shots)
    ensures AllShotsValid(Unfinished(shots))
  {
    UnfinishedMembers(shots);
    var r := Unfinished(shots);
    forall j | 0 <= j < |r| ensures ShotValid(r[j]) {
      assert r[j] in shots;
    }
  }

  /** The one-shots that survive a frame are those with samples left after it; any with more than a frame left survives. */
  lemma SurvivorsSpec(shots: seq<OneShotSound>)
    requires AllShotsValid(shots)
    ensures forall s :: s in Unfinished(AdvanceAll(shots)) <==> s in AdvanceAll(shots) && s.position < |s.data|
    ensures forall i :: 0 <= i < |shots| && |shots[i].data| - shots[i].position > FRAME_SIZE ==>
      Advance(shots[i]) in Unfinished(AdvanceAll(shots))
  {
    var advanced := AdvanceAll(shots);
    UnfinishedMembers(advanced);
    forall i | 0 <= i < |shots| && |shots[i].data| - shots[i].position > FRAME_SIZE
      ensures Advance(shots[i]) in Unfinished(advanced)
    {
      assert advanced[i] == Advance(shots[i]);
    }
  }

  // ---------------------------------------------------------------- ambient loops

  predicate LoopValid(l: LoopingSound) {
    |l.data| > 0 && l.position < |l.data|
  }

  predicate AllLoopsValid(m: map<string, LoopingSound>) {
    forall f :: f in m ==> LoopValid(m[f])
  }

  /** A loop whose fade and target have reached silence is removed. */
  predicate Gone(l: LoopingSound) {
    Fade(l.currentVolume, l.targetVolume, FADE_SPEED) <= 0.0 && l.targetVolume <= 0.0
  }

  /** Audible after this frame's fade: mixed, and its cursor moves. */
  predicate Audible(l: LoopingSound) {
    !Gone(l) && Fade(l.currentVolume, l.targetVolume, FADE_SPEED) >= SILENT_VOLUME
  }

  /** An ambient loop after one frame: faded, and its cursor wrapped forward a frame when audible. */
  function LoopStep(l: LoopingSound): (r: LoopingSound)
    requires LoopValid(l)
    ensures LoopValid(r) && r.data == l.data && r.targetVolume == l.targetVolume
    ensures r.currentVolume == Fade(l.currentVolume, l.targetVolume, FADE_SPEED)
    ensures r.position == if Audible(l) then (l.position + FRAME_SIZE) % |l.data| else l.position
  {
    var faded := l.(currentVolume := Fade(l.currentVolume, l.targetVolume, FADE_SPEED));
    if Audible(l) then faded.(position := (l.position + FRAME_SIZE) % |l.data|) else faded
  }

  /** The ambient loops after one frame: those faded out are gone, the rest have stepped. */
  function AmbientAfterFrame(m: map<string, LoopingSound>): map<string, LoopingSound>
    requires AllLoopsValid(m)
  {
    map f | f in m && !Gone(m[f]) :: LoopStep(m[f])
  }

  /** Sample `k` of a loop in this frame: read with wrap-around at the faded volume, or nothing when inaudible. */
  function LoopSample(l: LoopingSound, k: nat): real
    requires LoopValid(l)
  {
    if Audible(l) then l.data[(l.position + k) % |l.data|] * Fade(l.currentVolume, l.targetVolume, FADE_SPEED) else 0.0
  }

  /** The sum of every loop's sample `k`, taken in some fixed order. */
  ghost function AmbientMix(m: map<string, LoopingSound>, k: nat): real
    requires AllLoopsValid(m)
    decreases |m.Keys|
  {
    if m == map[] then 0.0
    else
      var f := Collections.Choose(m.Keys);
      LoopSample(m[f], k) + AmbientMix(m - {f}, k)
  }

  /** The order of summation does not matter: any loop can be taken out first. */
  lemma {:induction false} AmbientMixRemove(m: map<string, LoopingSound>, f: string, k: nat)
    requires AllLoopsValid(m) && f in m
    ensures AmbientMix(m, k) == LoopSample(m[f], k) + AmbientMix(m - {f}, k)
    decreases |m.Keys|
  {
    var first := Collections.Choose(m.Keys);
    if first != f {
      var rest := m - {first};
      assert |rest.Keys| < |m.Keys| by { assert rest.Keys == m.Keys - {first}; }
      AmbientMixRemove(rest, f, k);
      assert (m - {f}) - {first} == rest - {f};
      assert |(m - {f}).Keys| < |m.Keys| by { assert (m - {f}).Keys == m.Keys - {f}; }
      AmbientMixRemove(m - {f}, first, k);
    }
  }

  /** Loops that are all silent add nothing to the frame. */
  lemma {:induction false} AmbientMixSilent(m: map<string, LoopingSound>, k: nat)
    requires AllLoopsValid(m) && forall f :: f in m ==> !Audible(m[f])
    ensures AmbientMix(m, k) == 0.0
    decreases |m.Keys|
  {
    if m != map[] {
      var f := Collections.Choose(m.Keys);
      assert |(m - {f}).Keys| < |m.Keys| by { assert (m - {f}).Keys == m.Keys - {f}; }
      AmbientMixSilent(m - {f}, k);
    }
  }

  // ---------------------------------------------------------------- the mixed frame

  /** `mixed[:n] += data[pos:pos + n] * volume` for a one-shot. */
  function AddShot(mixed: Frame, s: OneShotSound): (r: Frame)
    requires ShotValid(s) && |mixed| == FRAME_SIZE
    ensures |r| == FRAME_SIZE
    ensures forall k :: 0 <= k < FRAME_SIZE ==>
      r[k] == mixed[k] + (if k < ToCopy(s) then s.data[s.position + k] * s.volume else 0.0)
  {
    seq(FRAME_SIZE, k requires 0 <= k < FRAME_SIZE =>
      mixed[k] + (if k < ToCopy(s) then s.data[s.position + k] * s.volume else 0.0))
  }

  /** `mixed += data[(arange(FRAME_SIZE) + pos) % len(data)] * volume` for a loop. */
  function AddLoop(mixed: Frame, l: LoopingSound, volume: real): (r: Frame)
    requires LoopValid(l) && |mixed| == FRAME_SIZE
    ensures |r| == FRAME_SIZE
    ensures forall k :: 0 <= k < FRAME_SIZE ==> r[k] == mixed[k] + l.data[(l.position + k) % |l.data|] * volume
  {
    seq(FRAME_SIZE, k requires 0 <= k < FRAME_SIZE => mixed[k] + l.data[(l.position + k) % |l.data|] * volume)
  }

  /** The one-shots' share of a frame: each adds its next samples, in list order. */
  function ShotsMix(shots: seq<OneShotSound>): (r: Frame)
    requires AllShotsValid(shots)
    ensures |r| == FRAME_SIZE
    decreases |shots|
  {
    if |shots| == 0 then Zeros()
    else AddShot(ShotsMix(shots[..|shots| - 1]), shots[|shots| - 1])
  }

  /** Finished one-shots add nothing, so a list of them mixes to silence. */
  lemma {:induction false} ShotsMixSilent(shots: seq<OneShotSound>)
    requires AllShotsValid(shots) && forall i :: 0 <= i < |shots| ==> Finished(shots[i])
    ensures ShotsMix(shots) == Zeros()
    decreases |shots|
  {
    if shots != [] {
      ShotsMixSilent(shots[..|shots| - 1]);
    }
  }

  /** One pass of the one-shot loop: mix the samples left, at most a frame, and move the cursor past them. */
  method PlayShot(shot: OneShotSound, mixed: Frame) returns (played: OneShotSound, mixedOut: Frame)
    requires ShotValid(shot) && |mixed| == FRAME_SIZE
    ensures played == Advance(shot) && mixedOut == AddShot(mixed, shot)
  {
    played, mixedOut := shot, mixed;
    var samplesToCopy := Min(FRAME_SIZE, |shot.data| - shot.position);
    if samplesToCopy > 0 {
      mixedOut := AddShot(mixed, shot);
      played := shot.(position := shot.position + samplesToCopy);
    } else {
      assert AddShot(mixed, shot) == mixed;
    }
  }

  /**
   * Part way through the one-shot loop: the first `i` one-shots have
   * advanced and been mixed, and the finished ones among them are listed.
   */
  ghost predicate ShotsProgress(shots: seq<OneShotSound>, i: nat, remaining: seq<OneShotSound>, mixed: Frame,
    completed: seq<nat>)
  {
    AllShotsValid(shots) && i <= |shots|
    && remaining == AdvanceAll(shots)[..i] + shots[i..]
    && mixed == ShotsMix(shots[..i])
    && CompletedIndices(completed, AdvanceAll(shots), i)
  }

  lemma ShotsAdvance(shots: seq<OneShotSound>, i: nat, remaining: seq<OneShotSound>, mixed: Frame, completed: seq<nat>)
    requires ShotsProgress(shots, i, remaining, mixed, completed) && i < |shots|
    ensures remaining[i] == shots[i] && ShotValid(shots[i])
    ensures ShotsProgress(shots, i + 1, remaining[i := Advance(shots[i])], AddShot(mixed, shots[i]),
      if Finished(Advance(shots[i])) then completed + [i] else completed)
  {
    var advanced := AdvanceAll(shots);
    AdvancedPrefixStep(shots, advanced, i, remaining);
    ShotsMixStep(shots, i);
    CompletedStep(completed, advanced, i);
  }

  lemma AdvancedPrefixStep(shots: seq<OneShotSound>, advanced: seq<OneShotSound>, i: nat, remaining: seq<OneShotSound>)
    requires i < |shots| == |advanced| && remaining == advanced[..i] + shots[i..]
    ensures remaining[i] == shots[i]
    ensures remaining[i := advanced[i]] == advanced[..i + 1] + shots[i + 1..]
  {
    assert advanced[..i + 1] == advanced[..i] + [advanced[i]];
    assert shots[i..] == [shots[i]] + shots[i + 1..];
  }

  lemma ShotsMixStep(shots: seq<OneShotSound>, i: nat)
    requires AllShotsValid(shots) && i < |shots|
    ensures ShotsMix(shots[..i + 1]) == AddShot(ShotsMix(shots[..i]), shots[i])
  {
    assert shots[..i + 1][..i] == shots[..i];
  }

  lemma CompletedStep(completed: seq<nat>, advanced: seq<OneShotSound>, i: nat)
    requires CompletedIndices(completed, advanced, i) && i < |advanced|
    ensures CompletedIndices(if Finished(advanced[i]) then completed + [i] else completed, advanced, i + 1)
  {
    if Finished(advanced[i]) {
      var next := completed + [i];
      forall j | 0 <= j < |next| ensures next[j] < i + 1 && Finished(advanced[next[j]]) {
        if j < |completed| {
          assert next[j] == completed[j];
        }
      }
      forall j, k | 0 <= j < k < |next| ensures next[j] < next[k] {
        assert next[j] == completed[j];
        if k < |completed| {
          assert next[k] == completed[k];
        }
      }
      forall j | 0 <= j < i + 1 && Finished(advanced[j]) ensures j in next {
        if j < i {
          var k :| 0 <= k < |completed| && completed[k] == j;
          assert next[k] == j;
        } else {
          assert next[|completed|] == i;
        }
      }
    }
  }

  lemma ShotsDone(shots: seq<OneShotSound>, remaining: seq<OneShotSound>, mixed: Frame, completed: seq<nat>)
    requires ShotsProgress(shots, |shots|, remaining, mixed, completed)
    ensures remaining == AdvanceAll(shots) && AllShotsValid(remaining)
    ensures mixed == ShotsMix(shots) && CompletedIndices(completed, remaining, |remaining|)
  {
    var all := AdvanceAll(shots);
    assert shots[..|shots|] == shots;
    assert shots[|shots|..] == [];
    assert all[..|shots|] == all;
    assert remaining == all;
    forall k | 0 <= k < |remaining| ensures ShotValid(remaining[k]) {
      assert remaining[k] == Advance(shots[k]);
    }
  }

  /** The one-shot half of `_get_mixed_frame`: mix, advance, and pop the finished ones from the back. */
  method MixOneShots(shots: seq<OneShotSound>) returns (mixed: Frame, remaining: seq<OneShotSound>)
    requires AllShotsValid(shots)
    ensures mixed == ShotsMix(shots)
    ensures remaining == Unfinished(AdvanceAll(shots)) && AllShotsValid(remaining)
  {
    mixed := Zeros();
    remaining := shots;
    var completed: seq<nat> := [];
    for i := 0 to |remaining|
      invariant |remaining| == |shots|
      invariant ShotsProgress(shots, i, remaining, mixed, completed)
    {
      ShotsAdvance(shots, i, remaining, mixed, completed);
      var shot;
      shot, mixed := PlayShot(remaining[i], mixed);
      remaining := remaining[i := shot];
      if shot.position >= |shot.data| {
        completed := completed + [i];
      }
    }
    ShotsDone(shots, remaining, mixed, completed);
    remaining := PopCompleted(remaining, completed);
  }

  /**
   * `completed` lists, in increasing order, exactly the finished entries of
   * `shots` below `bound`.
   */
  ghost predicate CompletedIndices(completed: seq<nat>, shots: seq<OneShotSound>, bound: nat) {
    bound <= |shots|
    && (forall j :: 0 <= j < |completed| ==> completed[j] < bound && Finished(shots[completed[j]]))
    && (forall j, k :: 0 <= j < k < |completed| ==> completed[j] < completed[k])
    && (forall j :: 0 <= j < bound && Finished(shots[j]) ==> j in completed)
  }

  /** `for i in reversed(completed_indices): pop(i)` removes exactly the finished one-shots. */
  method PopCompleted(shots: seq<OneShotSound>, completed: seq<nat>) returns (r: seq<OneShotSound>)
    requires AllShotsValid(shots) && CompletedIndices(completed, shots, |shots|)
    ensures r == Unfinished(shots) && AllShotsValid(r)
  {
    r := shots;
    var t := |completed|;
    while t > 0
      invariant 0 <= t <= |completed|
      invariant var cut := if t == |completed| then |shots| else completed[t];
        cut <= |shots| && r == shots[..cut] + Unfinished(shots[cut..])
      decreases t
    {
      var c := completed[t - 1];
      ghost var cut := if t == |completed| then |shots| else completed[t];
      PoppedBetween(shots, completed, t);
      PopStep(shots, r, c, cut);
      r := r[..c] + r[c + 1..];
      t := t - 1;
    }
    PopDone(shots, completed);
    UnfinishedValid(shots);
  }

  /** Below the first completed index nothing is finished, so the filter keeps that prefix whole. */
  lemma PopDone(shots: seq<OneShotSound>, completed: seq<nat>)
    requires CompletedIndices(completed, shots, |shots|)
    ensures var cut := if |completed| == 0 then |shots| else completed[0];
      cut <= |shots| && shots[..cut] + Unfinished(shots[cut..]) == Unfinished(shots)
  {
    var cut := if |completed| == 0 then |shots| else completed[0];
    forall j | 0 <= j < cut ensures !Finished(shots[j]) {
      if Finished(shots[j]) {
        FirstCompleted(shots, completed, j);
      }
    }
    KeepPrefix(shots, cut);
  }

  lemma KeepPrefix(shots: seq<OneShotSound>, cut: nat)
    requires cut <= |shots| && forall j :: 0 <= j < cut ==> !Finished(shots[j])
    ensures shots[..cut] + Unfinished(shots[cut..]) == Unfinished(shots)
  {
    var prefix, suffix := shots[..cut], shots[cut..];
    assert prefix + suffix == shots;
    UnfinishedAppend(prefix, suffix);
    UnfinishedKeepsAll(prefix);
  }

  /** A finished entry is listed, so the first listed index is no later than it. */
  lemma FirstCompleted(shots: seq<OneShotSound>, completed: seq<nat>, j: nat)
    requires CompletedIndices(completed, shots, |shots|) && j < |shots| && Finished(shots[j])
    ensures |completed| > 0 && completed[0] <= j
  {
    var k :| 0 <= k < |completed| && completed[k] == j;
    if k > 0 {
      assert completed[0] < completed[k];
    }
  }

  /** No finished entry lies strictly between two neighbouring completed indices. */
  lemma PoppedBetween(shots: seq<OneShotSound>, completed: seq<nat>, t: nat)
    requires CompletedIndices(completed, shots, |shots|) && 0 < t <= |completed|
    ensures var cut := if t == |completed| then |shots| else completed[t];
      completed[t - 1] < cut <= |shots| && Finished(shots[completed[t - 1]])
      && forall j :: completed[t - 1] < j < cut ==> !Finished(shots[j])
  {
    var c := completed[t - 1];
    var cut := if t == |completed| then |shots| else completed[t];
    assert forall j :: c < j < cut ==> !Finished(shots[j]);
  }

  /** Filtering from a finished index `c` whose successors up to `cut` are unfinished keeps those successors. */
  lemma UnfinishedFrom(shots: seq<OneShotSound>, c: nat, cut: nat)
    requires c < cut <= |shots| && Finished(shots[c])
    requires forall j :: c < j < cut ==> !Finished(shots[j])
    ensures Unfinished(shots[c..]) == shots[c + 1..cut] + Unfinished(shots[cut..])
  {
    var mid := shots[c + 1..cut];
    var suffix := shots[cut..];
    assert forall j :: 0 <= j < |mid| ==> !Finished(mid[j]);
    UnfinishedKeepsAll(mid);
    UnfinishedAppend(mid, suffix);
    assert shots[c..] == [shots[c]] + (mid + suffix);
    UnfinishedCons(shots[c], mid + suffix);
  }

  lemma DropAt<T>(a: seq<T>, b: seq<T>, c: nat)
    requires c < |a|
    ensures (a + b)[..c] + (a + b)[c + 1..] == a[..c] + (a[c + 1..] + b)
  {
    assert (a + b)[..c] == a[..c];
    assert (a + b)[c + 1..] == a[c + 1..] + b;
  }

  /** Popping a finished index `c` whose successors up to `cut` are unfinished extends the filtered suffix down to `c`. */
  lemma PopStep(shots: seq<OneShotSound>, r: seq<OneShotSound>, c: nat, cut: nat)
    requires c < cut <= |shots| && Finished(shots[c])
    requires forall j :: c < j < cut ==> !Finished(shots[j])
    requires r == shots[..cut] + Unfinished(shots[cut..])
    ensures r[..c] + r[c + 1..] == shots[..c] + Unfinished(shots[c..])
  {
    UnfinishedFrom(shots, c, cut);
    DropAt(shots[..cut], Unfinished(shots[cut..]), c);
    assert shots[..cut][..c] == shots[..c];
    assert shots[..cut][c + 1..] == shots[c + 1..cut];
  }

  /** One pass of the ambient loop: fade, then mark the loop for removal, skip it while silent, or mix it and move its cursor. */
  method StepLoop(looping: LoopingSound, mixed: Frame) returns (stepped: LoopingSound, mixedOut: Frame, remove: bool)
    requires LoopValid(looping) && |mixed| == FRAME_SIZE
    ensures stepped == LoopStep(looping) && remove == Gone(looping)
    ensures |mixedOut| == FRAME_SIZE && forall k :: 0 <= k < FRAME_SIZE ==> mixedOut[k] == mixed[k] + LoopSample(looping, k)
  {
    mixedOut, remove := mixed, false;
    var target := looping.targetVolume;
    var current := looping.currentVolume;
    if current < target {
      current := MinReal(current + FADE_SPEED, target);
    } else if current > target {
      current := MaxReal(current - FADE_SPEED, target);
    }
    stepped := looping.(currentVolume := current);
    if current <= 0.0 && target <= 0.0 {
      remove := true;
      return;
    }
    if current < SILENT_VOLUME {
      return;
    }
    mixedOut := AddLoop(mixed, stepped, current);
    stepped := stepped.(position := (stepped.position + FRAME_SIZE) % |stepped.data|);
  }

  /**
   * Part way through the ambient loop: the loops left in `rest` are untouched,
   * the others have stepped and are marked for removal exactly when gone, and
   * `mixed` holds the start plus the visited loops' samples.
   */
  ghost predicate AmbientProgress(m: map<string, LoopingSound>, start: Frame, rest: map<string, LoopingSound>,
    stepped: map<string, LoopingSound>, toRemove: set<string>, mixed: Frame)
  {
    AmbientVisited(m, rest, stepped, toRemove) && AmbientSum(m, start, rest, mixed)
  }

  /** The bookkeeping half of `AmbientProgress`: which loops are left, stepped and marked. */
  ghost predicate AmbientVisited(m: map<string, LoopingSound>, rest: map<string, LoopingSound>,
    stepped: map<string, LoopingSound>, toRemove: set<string>)
  {
    AllLoopsValid(m)
    && rest.Keys <= m.Keys && (forall f :: f in rest ==> rest[f] == m[f]) && AllLoopsValid(rest)
    && stepped.Keys == m.Keys - rest.Keys && (forall f :: f in stepped ==> stepped[f] == LoopStep(m[f]))
    && toRemove <= stepped.Keys && (forall f :: f in stepped ==> (f in toRemove <==> Gone(m[f])))
  }

  /** The mixing half of `AmbientProgress`: the frame so far plus what is left to mix is the whole mix. */
  ghost predicate AmbientSum(m: map<string, LoopingSound>, start: Frame, rest: map<string, LoopingSound>, mixed: Frame)
  {
    AllLoopsValid(m) && AllLoopsValid(rest) && |start| == FRAME_SIZE && |mixed| == FRAME_SIZE
    && forall k :: 0 <= k < FRAME_SIZE ==> mixed[k] + AmbientMix(rest, k) == start[k] + AmbientMix(m, k)
  }

  lemma AmbientAdvance(m: map<string, LoopingSound>, start: Frame, rest: map<string, LoopingSound>,
    stepped: map<string, LoopingSound>, toRemove: set<string>, mixed: Frame, f: string, mixed2: Frame)
    requires AmbientProgress(m, start, rest, stepped, toRemove, mixed) && f in rest
    requires |mixed2| == FRAME_SIZE && forall k :: 0 <= k < FRAME_SIZE ==> mixed2[k] == mixed[k] + LoopSample(rest[f], k)
    ensures |(rest - {f}).Keys| < |rest.Keys|
    ensures AmbientProgress(m, start, rest - {f}, stepped[f := LoopStep(rest[f])],
      if Gone(rest[f]) then toRemove + {f} else toRemove, mixed2)
  {
    assert (rest - {f}).Keys == rest.Keys - {f};
    VisitedAdvance(m, rest, stepped, toRemove, f);
    SumAdvance(m, start, rest, mixed, f, mixed2);
  }

  lemma VisitedAdvance(m: map<string, LoopingSound>, rest: map<string, LoopingSound>,
    stepped: map<string, LoopingSound>, toRemove: set<string>, f: string)
    requires AmbientVisited(m, rest, stepped, toRemove) && f in rest
    ensures AmbientVisited(m, rest - {f}, stepped[f := LoopStep(rest[f])], if Gone(rest[f]) then toRemove + {f} else toRemove)
  {
    assert (rest - {f}).Keys == rest.Keys - {f};
  }

  lemma SumAdvance(m: map<string, LoopingSound>, start: Frame, rest: map<string, LoopingSound>, mixed: Frame,
    f: string, mixed2: Frame)
    requires AmbientSum(m, start, rest, mixed) && f in rest
    requires |mixed2| == FRAME_SIZE && forall k :: 0 <= k < FRAME_SIZE ==> mixed2[k] == mixed[k] + LoopSample(rest[f], k)
    ensures AmbientSum(m, start, rest - {f}, mixed2)
  {
    forall k | 0 <= k < FRAME_SIZE
      ensures mixed2[k] + AmbientMix(rest - {f}, k) == start[k] + AmbientMix(m, k)
    {
      AmbientMixRemove(rest, f, k);
    }
  }

  lemma AmbientDone(m: map<string, LoopingSound>, start: Frame, stepped: map<string, LoopingSound>,
    toRemove: set<string>, mixed: Frame)
    requires AmbientProgress(m, start, map[], stepped, toRemove, mixed)
    ensures forall k :: 0 <= k < FRAME_SIZE ==> mixed[k] == start[k] + AmbientMix(m, k)
    ensures stepped.Keys - toRemove == AmbientAfterFrame(m).Keys
    ensures forall f :: f in stepped && f !in toRemove ==> stepped[f] == AmbientAfterFrame(m)[f]
  {
  }

  /** The ambient half of `_get_mixed_frame`: fade, mix and advance every loop, then drop the faded-out ones. */
  method MixAmbient(m: map<string, LoopingSound>, start: Frame) returns (mixed: Frame, next: map<string, LoopingSound>)
    requires AllLoopsValid(m) && |start| == FRAME_SIZE
    ensures |mixed| == FRAME_SIZE && forall k :: 0 <= k < FRAME_SIZE ==> mixed[k] == start[k] + AmbientMix(m, k)
    ensures next == AmbientAfterFrame(m) && AllLoopsValid(next)
  {
    mixed := start;
    var rest := m;
    var stepped: map<string, LoopingSound> := map[];
    var soundsToRemove: set<string> := {};
    while rest != map[]
      invariant AmbientProgress(m, start, rest, stepped, soundsToRemove, mixed)
      decreases |rest.Keys|
    {
      var f := Collections.Pick(rest.Keys);
      var looping, mixed2, remove := StepLoop(rest[f], mixed);
      AmbientAdvance(m, start, rest, stepped, soundsToRemove, mixed, f, mixed2);
      if remove {
        soundsToRemove := soundsToRemove + {f};
      }
      mixed := mixed2;
      stepped := stepped[f := looping];
      rest := rest - {f};
    }
    AmbientDone(m, start, stepped, soundsToRemove, mixed);
    next := RemoveSounds(stepped, soundsToRemove);
  }

  /** `for filename in sounds_to_remove: del self._ambient_sounds[filename]` */
  method RemoveSounds(sounds: map<string, LoopingSound>, toRemove: set<string>) returns (next: map<string, LoopingSound>)
    ensures next.Keys == sounds.Keys - toRemove && forall f :: f in next ==> next[f] == sounds[f]
  {
    next := sounds;
    var removing := toRemove;
    while removing != {}
      invariant next.Keys == sounds.Keys - (toRemove - removing)
      invariant forall f :: f in next ==> next[f] == sounds[f]
      decreases removing
    {
      var f := Collections.Pick(removing);
      next := next - {f};
      removing := removing - {f};
    }
  }

  // ---------------------------------------------------------------- nearby sounds

  /** Everything `update_nearby_sounds` consults about the world around the player. */
  datatype Surroundings = Surroundings(
    level: ClientLevel.Level,
    /** The client's tile table by character. */
    tileTable: map<char, Tiles.TileDef>,
    /** The line-of-sound check from the player to a tile. */
    los: (int, int, int, int) -> bool,
    /** `math.sqrt` of the squared distances 0 .. 9 that the scan can reach, taken exactly. */
    roots: seq<real>)
  {
    /** The grid can be read everywhere, and `roots` holds the exact non-negative square roots. */
    ghost predicate Valid() {
      level.Complete() && NearbyRoots(roots)
    }
  }

  /** Exact non-negative square roots of 0 .. 9. */
  predicate NearbyRoots(roots: seq<real>) {
    |roots| == NEARBY_SOUND_MAX_DISTANCE * NEARBY_SOUND_MAX_DISTANCE + 1 &&
    forall i :: 0 <= i < |roots| ==> roots[i] >= 0.0 && roots[i] * roots[i] == i as real
  }

  /**
   * `NEARBY_SOUND_BASE_VOLUME * (1.0 - distance / (NEARBY_SOUND_MAX_DISTANCE + 1))`
   * for a tile at squared distance `d2`, with `distance = sqrt(d2)`.
   */
  function NearbyVolume(roots: seq<real>, d2: int): real
    requires NearbyRoots(roots) && 0 <= d2 <= NEARBY_SOUND_MAX_DISTANCE * NEARBY_SOUND_MAX_DISTANCE
  {
    NEARBY_SOUND_BASE_VOLUME * (1.0 - roots[d2] / (NEARBY_SOUND_MAX_DISTANCE + 1) as real)
  }

  /**
   * A nearby sound is at full base volume on the player's own tile, never
   * louder than that, never fainter than a quarter of it within the scan
   * range, and a nearer tile is never fainter than a farther one.
   */
  lemma NearbyVolumeShape(roots: seq<real>, d: int, e: int)
    requires NearbyRoots(roots) && 0 <= d <= e <= NEARBY_SOUND_MAX_DISTANCE * NEARBY_SOUND_MAX_DISTANCE
    ensures NearbyVolume(roots, 0) == NEARBY_SOUND_BASE_VOLUME
    ensures NEARBY_SOUND_BASE_VOLUME / 4.0 <= NearbyVolume(roots, e) <= NEARBY_SOUND_BASE_VOLUME
    ensures NearbyVolume(roots, e) <= NearbyVolume(roots, d)
    ensures d < e ==> NearbyVolume(roots, e) < NearbyVolume(roots, d)
  {
    AudioRouter.RootMonotone(roots[0], 0.0);
    AudioRouter.RootMonotone(roots[d], roots[e]);
    AudioRouter.RootMonotone(roots[e], 3.0);
  }

  /** The 7 x 7 scan visits offset `n` at dx = n % 7 - 3, dy = n / 7 - 3, rows first. */
  const SCAN_SIZE: nat := 49

  function ScanDx(n: nat): int { n % 7 - NEARBY_SOUND_MAX_DISTANCE }
  function ScanDy(n: nat): int { n / 7 - NEARBY_SOUND_MAX_DISTANCE }

  type Heard = Option<(string, real)>

  /** What the tile at offset (dx, dy) contributes: its nearby sound and volume, if it is close, heard and has one. */
  function ContributionAt(env: Surroundings, px: int, py: int, dx: int, dy: int): Heard
    requires env.Valid()
  {
    var d2 := dx * dx + dy * dy;
    if d2 > NEARBY_SOUND_MAX_DISTANCE * NEARBY_SOUND_MAX_DISTANCE then None
    else if !env.los(px, py, px + dx, py + dy) then None
    else
      var t := Tiles.Lookup(env.tileTable, env.level.GetTile(px + dx, py + dy).value);
      if Tiles.HasSound(t.nearbySound) then Some((t.nearbySound.value, NearbyVolume(env.roots, d2))) else None
  }

  function Contribution(env: Surroundings, px: int, py: int, n: nat): Heard
    requires env.Valid()
  {
    ContributionAt(env, px, py, ScanDx(n), ScanDy(n))
  }

  /** The contributions in scan order. */
  function Scan(env: Surroundings, px: int, py: int): (r: seq<Heard>)
    requires env.Valid()
    ensures |r| == SCAN_SIZE
  {
    seq(SCAN_SIZE, n requires 0 <= n < SCAN_SIZE => Contribution(env, px, py, n))
  }

  function Get(m: map<string, real>, f: string): real {
    if f in m then m[f] else 0.0
  }

  predicate Names(h: Heard, f: string) {
    h.Some? && h.value.0 == f
  }

  /** `active_sounds[f] = max(active_sounds.get(f, 0.0), volume)` for a heard sound; nothing otherwise. */
  function Hear(m: map<string, real>, h: Heard): map<string, real> {
    match h
    case None => m
    case Some((f, v)) => m[f := MaxReal(Get(m, f), v)]
  }

  /** `active_sounds` after some contributions: the loudest volume per sound file, starting from 0. */
  function Loudest(hs: seq<Heard>): map<string, real>
    decreases |hs|
  {
    if |hs| == 0 then map[] else Hear(Loudest(hs[..|hs| - 1]), hs[|hs| - 1])
  }

  /** One more contribution: the fold's last step. */
  lemma LoudestNext(hs: seq<Heard>, n: nat)
    requires n < |hs|
    ensures Loudest(hs[..n + 1]) == Hear(Loudest(hs[..n]), hs[n])
  {
    assert hs[..n + 1][..n] == hs[..n];
  }

  /** Scan offset `row * 7 + col` is the tile at (col - 3, row - 3), and the fold takes it next. */
  lemma ScanStep(env: Surroundings, px: int, py: int, n: nat, row: nat, col: nat)
    requires env.Valid() && row < 7 && col < 7 && n == row * 7 + col
    ensures Loudest(Scan(env, px, py)[..n + 1]) == Hear(Loudest(Scan(env, px, py)[..n]), ContributionAt(env, px, py, col - 3, row - 3))
  {
    assert ScanDx(n) == col - 3 && ScanDy(n) == row - 3;
    LoudestNext(Scan(env, px, py), n);
  }

  /** A sound is active exactly when some contribution names it, and no contribution is louder than its entry. */
  lemma {:induction false} LoudestSpec(hs: seq<Heard>, f: string)
    ensures f in Loudest(hs) <==> exists i :: 0 <= i < |hs| && Names(hs[i], f)
    ensures forall i :: 0 <= i < |hs| && Names(hs[i], f) ==> hs[i].value.1 <= Get(Loudest(hs), f)
    decreases |hs|
  {
    if hs != [] {
      var init := hs[..|hs| - 1];
      LoudestSpec(init, f);
      assert forall i :: 0 <= i < |init| ==> init[i] == hs[i];
    }
  }

  /** An active sound's volume is one of its contributions, or 0 when every one was below 0. */
  lemma {:induction false} LoudestAttained(hs: seq<Heard>, f: string)
    requires f in Loudest(hs)
    ensures 0.0 <= Loudest(hs)[f]
    ensures Loudest(hs)[f] == 0.0 || exists i :: 0 <= i < |hs| && hs[i] == Some((f, Loudest(hs)[f]))
    decreases |hs|
  {
    var init := hs[..|hs| - 1];
    if f in Loudest(init) {
      LoudestAttained(init, f);
      assert forall i :: 0 <= i < |init| ==> init[i] == hs[i];
    }
  }

  /** The squared distance of scan offset `n`. */
  function ScanD2(n: nat): int {
    ScanDx(n) * ScanDx(n) + ScanDy(n) * ScanDy(n)
  }

  /** A scan position that contributes is heard at the volume of its squared distance. */
  lemma ScanEntry(env: Surroundings, px: int, py: int, n: nat)
    requires env.Valid() && n < SCAN_SIZE && Scan(env, px, py)[n].Some?
    ensures 0 <= ScanD2(n) <= NEARBY_SOUND_MAX_DISTANCE * NEARBY_SOUND_MAX_DISTANCE
    ensures Scan(env, px, py)[n].value.1 == NearbyVolume(env.roots, ScanD2(n))
    ensures NEARBY_SOUND_BASE_VOLUME / 4.0 <= Scan(env, px, py)[n].value.1 <= NEARBY_SOUND_BASE_VOLUME
  {
    assert Scan(env, px, py)[n] == Contribution(env, px, py, n);
    NearbyVolumeShape(env.roots, 0, ScanD2(n));
  }

  /** When every contribution lies in [lo, hi] with lo positive, so does every loudest volume, and it is attained. */
  lemma LoudestWithin(hs: seq<Heard>, f: string, lo: real, hi: real)
    requires 0.0 < lo && f in Loudest(hs)
    requires forall i :: 0 <= i < |hs| && hs[i].Some? ==> lo <= hs[i].value.1 <= hi
    ensures lo <= Loudest(hs)[f] <= hi
    ensures exists i :: 0 <= i < |hs| && hs[i] == Some((f, Loudest(hs)[f]))
  {
    LoudestSpec(hs, f);
    LoudestAttained(hs, f);
  }

  /**
   * Every sound the scan finds is heard at the volume of one of its
   * contributing tiles, between a quarter of the base volume and the base
   * volume; with `ScanNotLouder` that tile is the nearest one.
   */
  lemma ScanVolumes(env: Surroundings, px: int, py: int, f: string)
    requires env.Valid() && f in Loudest(Scan(env, px, py))
    ensures NEARBY_SOUND_BASE_VOLUME / 4.0 <= Loudest(Scan(env, px, py))[f] <= NEARBY_SOUND_BASE_VOLUME
    ensures exists n :: 0 <= n < SCAN_SIZE && Names(Scan(env, px, py)[n], f) &&
                        Loudest(Scan(env, px, py))[f] == NearbyVolume(env.roots, ScanD2(n))
  {
    var hs := Scan(env, px, py);
    forall n | 0 <= n < |hs| && hs[n].Some?
      ensures NEARBY_SOUND_BASE_VOLUME / 4.0 <= hs[n].value.1 <= NEARBY_SOUND_BASE_VOLUME
    {
      ScanEntry(env, px, py, n);
    }
    LoudestWithin(hs, f, NEARBY_SOUND_BASE_VOLUME / 4.0, NEARBY_SOUND_BASE_VOLUME);
    var k :| 0 <= k < |hs| && hs[k] == Some((f, Loudest(hs)[f]));
    ScanEntry(env, px, py, k);
  }

  /** Every tile that contributes a sound makes it active, and no such tile is heard louder than its entry. */
  lemma ScanNotLouder(env: Surroundings, px: int, py: int, f: string, n: nat)
    requires env.Valid() && n < SCAN_SIZE && Names(Scan(env, px, py)[n], f)
    ensures f in Loudest(Scan(env, px, py))
    ensures NearbyVolume(env.roots, ScanD2(n)) <= Loudest(Scan(env, px, py))[f]
  {
    var hs := Scan(env, px, py);
    ScanEntry(env, px, py, n);
    LoudestSpec(hs, f);
    assert hs[n].value.1 <= Get(Loudest(hs), f);
  }

  /** Every loop's target is its sound's active volume, or 0 when it is no longer heard. */
  function WithTargets(ambient: map<string, LoopingSound>, active: map<string, real>): map<string, LoopingSound> {
    map f | f in ambient :: ambient[f].(targetVolume := Get(active, f))
  }

  /** A silent loop at its start for every active sound that is loaded and not yet playing. */
  function WithNewSounds(ambient: map<string, LoopingSound>, active: map<string, real>, cache: map<string, Frame>)
    : map<string, LoopingSound>
  {
    map f | f in ambient.Keys + (active.Keys * cache.Keys) ::
      if f in ambient then ambient[f] else LoopingSound(cache[f], 0, active[f], 0.0)
  }

  /** The loops after `update_nearby_sounds`: every loop retargeted, then the new ones added. */
  function Retargeted(ambient: map<string, LoopingSound>, active: map<string, real>, cache: map<string, Frame>)
    : map<string, LoopingSound>
  {
    WithNewSounds(WithTargets(ambient, active), active, cache)
  }

  /**
   * After retargeting, a loop plays a sound exactly when it played before or
   * is active and loaded; its target is the active volume (0 when inactive),
   * and only new loops start from silence at the beginning.
   */
  lemma RetargetedSpec(ambient: map<string, LoopingSound>, active: map<string, real>, cache: map<string, Frame>, f: string)
    ensures f in Retargeted(ambient, active, cache) <==> f in ambient || (f in active && f in cache)
    ensures f in Retargeted(ambient, active, cache) ==>
      Retargeted(ambient, active, cache)[f].targetVolume == Get(active, f)
    ensures f in ambient ==> Retargeted(ambient, active, cache)[f] == ambient[f].(targetVolume := Get(active, f))
    ensures f !in ambient && f in active && f in cache ==>
      Retargeted(ambient, active, cache)[f] == LoopingSound(cache[f], 0, active[f], 0.0)
  {
  }

  /** One pass of the scan loops: the tile at (dx, dy) is skipped when too far or not heard, else its sound is noted. */
  method ScanTile(px: int, py: int, env: Surroundings, dx: int, dy: int, active: map<string, real>)
    returns (r: map<string, real>)
    requires env.Valid()
    ensures r == Hear(active, ContributionAt(env, px, py, dx, dy))
  {
    r := active;
    var tx, ty := px + dx, py + dy;
    if dx * dx + dy * dy > NEARBY_SOUND_MAX_DISTANCE * NEARBY_SOUND_MAX_DISTANCE {
      return;
    }
    if !env.los(px, py, tx, ty) {
      return;
    }
    var tileDef := Tiles.Lookup(env.tileTable, env.level.GetTile(tx, ty).value);
    if Tiles.HasSound(tileDef.nearbySound) {
      var volume := NearbyVolume(env.roots, dx * dx + dy * dy);
      var name := tileDef.nearbySound.value;
      var current := if name in active then active[name] else 0.0;
      r := active[name := MaxReal(current, volume)];
    }
  }

  /** The scan loops of `update_nearby_sounds`: dy outer, dx inner. */
  method ScanNearby(px: int, py: int, env: Surroundings) returns (active: map<string, real>)
    requires env.Valid()
    ensures active == Loudest(Scan(env, px, py))
  {
    ghost var hs := Scan(env, px, py);
    active := map[];
    for row := 0 to 7
      invariant active == Loudest(hs[..row * 7])
    {
      active := ScanRow(px, py, env, row, active);
    }
    assert hs[..49] == hs;
  }

  /** The inner loop for one row: the tiles at dx = -3 .. 3 on it, left to right. */
  method ScanRow(px: int, py: int, env: Surroundings, row: nat, active: map<string, real>) returns (r: map<string, real>)
    requires env.Valid() && row < 7 && active == Loudest(Scan(env, px, py)[..row * 7])
    ensures r == Loudest(Scan(env, px, py)[..row * 7 + 7])
  {
    ghost var hs := Scan(env, px, py);
    r := active;
    ghost var n := row * 7;
    for col := 0 to 7
      invariant n == row * 7 + col && r == Loudest(hs[..n])
    {
      ScanStep(env, px, py, n, row, col);
      r := ScanTile(px, py, env, col - 3, row - 3, r);
      n := n + 1;
    }
  }

  /** The locked half of `update_nearby_sounds`: retarget existing loops, then start loaded new ones. */
  method Retarget(ambient: map<string, LoopingSound>, active: map<string, real>, cache: map<string, Frame>)
    returns (r: map<string, LoopingSound>)
    ensures r == Retargeted(ambient, active, cache)
  {
    r := SetTargets(ambient, active);
    r := AddNewSounds(r, active, cache);
  }

  /** The first loop: `looping.target_volume = active_sounds.get(filename, 0.0)` for every loop. */
  method SetTargets(ambient: map<string, LoopingSound>, active: map<string, real>) returns (r: map<string, LoopingSound>)
    ensures r == WithTargets(ambient, active)
  {
    r := ambient;
    var existing := ambient.Keys;
    while existing != {}
      invariant existing <= ambient.Keys && r.Keys == ambient.Keys
      invariant forall f :: f in ambient ==>
        r[f] == if f in existing then ambient[f] else ambient[f].(targetVolume := Get(active, f))
      decreases existing
    {
      var f := Collections.Pick(existing);
      var looping := r[f];
      if f in active {
        r := r[f := looping.(targetVolume := active[f])];
      } else {
        r := r[f := looping.(targetVolume := 0.0)];
      }
      existing := existing - {f};
    }
  }

  /** Part way through the second loop: the sounds no longer in `candidates` have been added when loaded. */
  ghost predicate NewSoundsProgress(ambient: map<string, LoopingSound>, active: map<string, real>, cache: map<string, Frame>,
    candidates: set<string>, r: map<string, LoopingSound>)
  {
    candidates <= active.Keys
    && r.Keys == ambient.Keys + ((active.Keys - candidates) * cache.Keys)
    && (forall f :: f in ambient ==> r[f] == ambient[f])
    && forall f :: f in r && f !in ambient ==> r[f] == LoopingSound(cache[f], 0, active[f], 0.0)
  }

  lemma NewSoundStep(ambient: map<string, LoopingSound>, active: map<string, real>, cache: map<string, Frame>,
    candidates: set<string>, r: map<string, LoopingSound>, f: string)
    requires NewSoundsProgress(ambient, active, cache, candidates, r) && f in candidates
    ensures (f in r) == (f in ambient)
    ensures NewSoundsProgress(ambient, active, cache, candidates - {f},
      if f !in ambient && f in cache then r[f := LoopingSound(cache[f], 0, active[f], 0.0)] else r)
  {
  }

  lemma NewSoundsDone(ambient: map<string, LoopingSound>, active: map<string, real>, cache: map<string, Frame>,
    r: map<string, LoopingSound>)
    requires NewSoundsProgress(ambient, active, cache, {}, r)
    ensures r == WithNewSounds(ambient, active, cache)
  {
    assert r.Keys == WithNewSounds(ambient, active, cache).Keys;
  }

  /** The second loop: a new silent loop for every active sound not playing whose file is loaded. */
  method AddNewSounds(ambient: map<string, LoopingSound>, active: map<string, real>, cache: map<string, Frame>)
    returns (r: map<string, LoopingSound>)
    ensures r == WithNewSounds(ambient, active, cache)
  {
    r := ambient;
    var candidates := active.Keys;
    while candidates != {}
      invariant NewSoundsProgress(ambient, active, cache, candidates, r)
      decreases candidates
    {
      var f := Collections.Pick(candidates);
      NewSoundStep(ambient, active, cache, candidates, r, f);
      if f !in r && f in cache {
        r := r[f := LoopingSound(cache[f], 0, active[f], 0.0)];
      }
      candidates := candidates - {f};
    }
    NewSoundsDone(ambient, active, cache, r);
  }

  class TileSoundPlayer {
    /** The loaded sound files by name (`sound_cache.get`). */
    const soundCache: map<string, Frame>
    var oneShots: seq<OneShotSound>
    var ambientSounds: map<string, LoopingSound>

    ghost predicate Valid()
      reads this
    {
      (forall f :: f in soundCache ==> |soundCache[f]| > 0)
      && AllShotsValid(oneShots) && AllLoopsValid(ambientSounds)
    }

    constructor (soundCache: map<string, Frame>)
      requires forall f :: f in soundCache ==> |soundCache[f]| > 0
      ensures Valid() && this.soundCache == soundCache && oneShots == [] && ambientSounds == map[]
    {
      this.soundCache := soundCache;
      oneShots := [];
      ambientSounds := map[];
    }

    /** `on_player_move(x, y, level)`: a footstep for a tile with a walking sound that is loaded. */
    method OnPlayerMove(x: int, y: int, level: ClientLevel.Level, tileTable: map<char, Tiles.TileDef>)
      requires Valid() && level.Complete()
      modifies this
      ensures Valid() && ambientSounds == old(ambientSounds)
      ensures var t := Tiles.Lookup(tileTable, level.GetTile(x, y).value);
        if Tiles.HasSound(t.walkingSound) && t.walkingSound.value in soundCache
        then oneShots == old(oneShots) + [OneShotSound(soundCache[t.walkingSound.value], 0, WALKING_SOUND_VOLUME)]
        else oneShots == old(oneShots)
    {
      var tileChar := level.GetTile(x, y).value;
      var tileDef := Tiles.Lookup(tileTable, tileChar);
      if Tiles.HasSound(tileDef.walkingSound) {
        var name := tileDef.walkingSound.value;
        if name in soundCache {
          oneShots := oneShots + [OneShotSound(soundCache[name], 0, WALKING_SOUND_VOLUME)];
        }
      }
    }

    /** `update_nearby_sounds(x, y, level, los_fn)`: loops follow the loudest nearby sounds that can be heard. */
    method UpdateNearbySounds(px: int, py: int, env: Surroundings)
      requires Valid() && env.Valid()
      modifies this
      ensures Valid() && oneShots == old(oneShots)
      ensures ambientSounds == Retargeted(old(ambientSounds), Loudest(Scan(env, px, py)), soundCache)
      ensures forall f :: f in ambientSounds ==>
        ambientSounds[f].targetVolume == 0.0 ||
        NEARBY_SOUND_BASE_VOLUME / 4.0 <= ambientSounds[f].targetVolume <= NEARBY_SOUND_BASE_VOLUME
    {
      var active := ScanNearby(px, py, env);
      ambientSounds := Retarget(ambientSounds, active, soundCache);
      forall f | f in ambientSounds
        ensures ambientSounds[f].targetVolume == 0.0 ||
          NEARBY_SOUND_BASE_VOLUME / 4.0 <= ambientSounds[f].targetVolume <= NEARBY_SOUND_BASE_VOLUME
      {
        RetargetedSpec(old(ambientSounds), active, soundCache, f);
        if f in active {
          ScanVolumes(env, px, py, f);
        }
      }
    }

    /**
     * `_get_mixed_frame()`: every sample is the one-shots' share plus the
     * audible loops' share; finished one-shots and faded-out loops are gone.
     */
    method GetMixedFrame() returns (mixed: Frame)
      requires Valid()
      modifies this
      ensures Valid() && |mixed| == FRAME_SIZE
      ensures forall k :: 0 <= k < FRAME_SIZE ==> mixed[k] == ShotsMix(old(oneShots))[k] + AmbientMix(old(ambientSounds), k)
      ensures oneShots == Unfinished(AdvanceAll(old(oneShots)))
      ensures ambientSounds == AmbientAfterFrame(old(ambientSounds))
    {
      var shotsMixed, remaining := MixOneShots(oneShots);
      oneShots := remaining;
      var next;
      mixed, next := MixAmbient(ambientSounds, shotsMixed);
      ambientSounds := next;
    }

    /** `clear()`: no one-shots and no loops remain. */
    method Clear()
      requires Valid()
      modifies this
      ensures Valid() && oneShots == [] && ambientSounds == map[]
    {
      oneShots := [];
      ambientSounds := map[];
    }
  }
}
