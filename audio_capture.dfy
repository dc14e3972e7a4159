/**
 * Microphone capture (rogue_talk/client/audio_capture.py): each frame read
 * from the microphone has its peak level measured, is replaced by silence
 * while muted, and passes a voice-activity gate that keeps sending for a
 * holdover of frames after the level drops below the threshold. The reads
 * are given as a sequence (None for a read that returned no data), and the
 * frames handed to the callback are the result; timestamps are left out.
 */
module AudioCapture {
  import opened Wrappers
  import opened Errors
  import opened Constants

  type Frame = seq<real>

  /** The gate is disabled by a threshold of 0. */
  const VAD_THRESHOLD: real := 0.0
  /** 25 frames of 20 ms: half a second of holdover. */
  const VAD_HOLDOVER_FRAMES: nat := 25

  function Abs(x: real): real { if x < 0.0 then -x else x }

  /** `np.abs(pcm).max()`: the largest magnitude in a non-empty frame. */
  function Peak(pcm: Frame): (level: real)
    requires |pcm| > 0
    ensures 0.0 <= level
    ensures forall i :: 0 <= i < |pcm| ==> Abs(pcm[i]) <= level
    ensures exists i :: 0 <= i < |pcm| && Abs(pcm[i]) == level
    decreases |pcm|
  {
    if |pcm| == 1 then Abs(pcm[0])
    else
      var rest := Peak(pcm[1..]);
      assert forall i :: 1 <= i < |pcm| ==> pcm[i] == pcm[1..][i - 1];
      if Abs(pcm[0]) >= rest then Abs(pcm[0]) else rest
  }

  function Silence(n: nat): (r: Frame)
    ensures |r| == n && forall i :: 0 <= i < n ==> r[i] == 0.0
  {
    seq(n, _ => 0.0)
  }

  /** What the gate decides for one frame: whether it is sent, and the holdover after it. */
  datatype Gate = Gate(send: bool, holdover: nat)

  /** Speech resets the holdover; below the threshold a running holdover is spent one frame at a time. */
  function VadStep(threshold: real, holdover: nat, level: real): Gate {
    if level >= threshold then Gate(true, VAD_HOLDOVER_FRAMES)
    else if holdover > 0 then Gate(true, holdover - 1)
    else Gate(false, 0)
  }

  /**
   * The three branches of the gate: a loud frame is sent and the holdover
   * reset to 25; a quiet one within the holdover is sent and the holdover
   * decremented; a quiet one after it is skipped. The holdover never
   * leaves [0, 25] once it starts there.
   */
  lemma VadStepSpec(threshold: real, holdover: nat, level: real)
    ensures level >= threshold ==> VadStep(threshold, holdover, level) == Gate(true, VAD_HOLDOVER_FRAMES)
    ensures level < threshold && holdover > 0 ==> VadStep(threshold, holdover, level) == Gate(true, holdover - 1)
    ensures level < threshold && holdover == 0 ==> !VadStep(threshold, holdover, level).send
    ensures VadStep(threshold, holdover, level).send <==> level >= threshold || holdover > 0
    ensures holdover <= VAD_HOLDOVER_FRAMES ==> VadStep(threshold, holdover, level).holdover <= VAD_HOLDOVER_FRAMES
  {
  }

  /** The capture state: the mute flag, the last measured level and the holdover counter. */
  datatype CaptureState = CaptureState(muted: bool, level: real, holdover: nat)

  /**
   * One pass of the capture loop on a read: no data changes nothing; an
   * empty frame makes the level's `max` raise; otherwise the level is
   * measured, silence replaces the frame when muted, and the gate decides
   * whether the frame goes to the callback.
   */
  function Step(threshold: real, st: CaptureState, pcm: Option<Frame>): Result<(CaptureState, Option<Frame>), Error> {
    if pcm.None? then Success((st, None))
    else if |pcm.value| == 0 then Failure(ValueError)
    else
      var level := Peak(pcm.value);
      var out := if st.muted then Silence(FRAME_SIZE) else pcm.value;
      var g := VadStep(threshold, st.holdover, level);
      Success((CaptureState(st.muted, level, g.holdover), if g.send then Some(out) else None))
  }

  /** What a run of the loop over the input leaves: the state, the frames sent, and the error that ended it, if any. */
  datatype Run = Run(state: CaptureState, sent: seq<Frame>, error: Option<Error>)

  function RunAll(threshold: real, st: CaptureState, input: seq<Option<Frame>>): Run
    decreases |input|
  {
    if |input| == 0 then Run(st, [], None)
    else match Step(threshold, st, input[0])
      case Failure(e) => Run(st, [], Some(e))
      case Success((st', out)) =>
        var r := RunAll(threshold, st', input[1..]);
        Run(r.state, (if out.Some? then [out.value] else []) + r.sent, r.error)
  }

  /** With the threshold at 0, every frame with data is sent: the count of sent frames is the count of reads with data. */
  function CountData(input: seq<Option<Frame>>): nat
    decreases |input|
  {
    if |input| == 0 then 0 else (if input[0].Some? then 1 else 0) + CountData(input[1..])
  }

  predicate NoEmptyFrames(input: seq<Option<Frame>>) {
    forall i :: 0 <= i < |input| ==> input[i] != Some([])
  }

  lemma {:induction false} DisabledGateSendsAll(st: CaptureState, input: seq<Option<Frame>>)
    requires NoEmptyFrames(input)
    ensures RunAll(VAD_THRESHOLD, st, input).error == None
    ensures |RunAll(VAD_THRESHOLD, st, input).sent| == CountData(input)
    decreases |input|
  {
    if input != [] {
      assert NoEmptyFrames(input[1..]) by {
        forall i | 0 <= i < |input[1..]| ensures input[1..][i] != Some([]) {
          assert input[1..][i] == input[i + 1];
        }
      }
      assert input[0] != Some([]);
      if input[0].Some? {
        assert Peak(input[0].value) >= VAD_THRESHOLD;
      }
      DisabledGateSendsAll(Step(VAD_THRESHOLD, st, input[0]).value.0, input[1..]);
    }
  }

  /** While muted, every frame sent is silence of the frame size, and the mute flag does not change. */
  lemma {:induction false} MutedSendsSilence(threshold: real, st: CaptureState, input: seq<Option<Frame>>)
    requires st.muted
    ensures RunAll(threshold, st, input).state.muted
    ensures forall i :: 0 <= i < |RunAll(threshold, st, input).sent| ==> RunAll(threshold, st, input).sent[i] == Silence(FRAME_SIZE)
    decreases |input|
  {
    if input != [] && Step(threshold, st, input[0]).Success? {
      var next := Step(threshold, st, input[0]).value;
      MutedSendsSilence(threshold, next.0, input[1..]);
      var r := RunAll(threshold, next.0, input[1..]);
      var head: seq<Frame> := if next.1.Some? then [next.1.value] else [];
      assert RunAll(threshold, st, input).sent == head + r.sent;
      assert forall i :: 0 <= i < |head| ==> head[i] == Silence(FRAME_SIZE);
    }
  }

  /** The holdover stays within [0, 25] over any run that starts there. */
  lemma {:induction false} HoldoverBounded(threshold: real, st: CaptureState, input: seq<Option<Frame>>)
    requires st.holdover <= VAD_HOLDOVER_FRAMES
    ensures RunAll(threshold, st, input).state.holdover <= VAD_HOLDOVER_FRAMES
    decreases |input|
  {
    if input != [] && Step(threshold, st, input[0]).Success? {
      if input[0].Some? {
        VadStepSpec(threshold, st.holdover, Peak(input[0].value));
      }
      HoldoverBounded(threshold, Step(threshold, st, input[0]).value.0, input[1..]);
    }
  }

  /** The part of a run still to come after `i` reads, glued to what was sent so far. */
  ghost predicate LoopProgress(threshold: real, st0: CaptureState, input: seq<Option<Frame>>, i: nat, st: CaptureState, sent: seq<Frame>) {
    i <= |input|
    && var r := RunAll(threshold, st, input[i..]);
    RunAll(threshold, st0, input) == Run(r.state, sent + r.sent, r.error)
  }

  lemma LoopNext(threshold: real, st0: CaptureState, input: seq<Option<Frame>>, i: nat, st: CaptureState, sent: seq<Frame>,
    st': CaptureState, out: Option<Frame>)
    requires LoopProgress(threshold, st0, input, i, st, sent) && i < |input|
    requires Step(threshold, st, input[i]) == Success((st', out))
    ensures LoopProgress(threshold, st0, input, i + 1, st', sent + (if out.Some? then [out.value] else []))
  {
    var rest := input[i..];
    assert rest[0] == input[i] && rest[1..] == input[i + 1..];
    var head: seq<Frame> := if out.Some? then [out.value] else [];
    var r := RunAll(threshold, st', input[i + 1..]);
    assert RunAll(threshold, st, rest).sent == head + r.sent;
    assert sent + (head + r.sent) == (sent + head) + r.sent;
  }

  lemma LoopStop(threshold: real, st0: CaptureState, input: seq<Option<Frame>>, i: nat, st: CaptureState, sent: seq<Frame>)
    requires LoopProgress(threshold, st0, input, i, st, sent)
    requires i < |input| ==> Step(threshold, st, input[i]).Failure?
    ensures RunAll(threshold, st0, input) ==
      Run(st, sent, if i < |input| then Some(Step(threshold, st, input[i]).error) else None)
  {
    var rest := input[i..];
    if i < |input| {
      assert rest[0] == input[i];
    } else {
      assert rest == [];
      assert sent + [] == sent;
    }
  }

  class AudioCapture {
    /** `VAD_THRESHOLD`, read through the instance so that it can be set per capture; 0 by default. */
    const threshold: real
    var isMuted: bool
    var lastLevel: real
    var holdoverCount: nat

    ghost function State(): CaptureState
      reads this
    {
      CaptureState(isMuted, lastLevel, holdoverCount)
    }

    ghost predicate Valid()
      reads this
    {
      holdoverCount <= VAD_HOLDOVER_FRAMES
    }

    constructor (threshold: real)
      ensures this.threshold == threshold
      ensures !isMuted && lastLevel == 0.0 && holdoverCount == 0 && Valid()
    {
      this.threshold := threshold;
      isMuted := false;
      lastLevel := 0.0;
      holdoverCount := 0;
    }

    /** `set_muted(muted)`: only the flag changes. */
    method SetMuted(muted: bool)
      modifies this
      ensures isMuted == muted && lastLevel == old(lastLevel) && holdoverCount == old(holdoverCount)
    {
      isMuted := muted;
    }

    /** One pass of `_capture_loop`: the frame handed to `on_frame`, if any, or the error raised. */
    method CaptureFrame(pcm: Option<Frame>) returns (r: Result<Option<Frame>, Error>)
      modifies this
      ensures Step(threshold, old(State()), pcm).Success? <==> r.Success?
      ensures r.Success? ==> Step(threshold, old(State()), pcm).value == (State(), r.value)
      ensures r.Failure? ==> r.error == Step(threshold, old(State()), pcm).error && State() == old(State())
      ensures old(Valid()) ==> Valid()
    {
      if pcm.None? {
        return Success(None);
      }
      var frame := pcm.value;
      if frame == [] {
        return Failure(ValueError);
      }
      lastLevel := Peak(frame);
      if isMuted {
        frame := Silence(FRAME_SIZE);
      }
      if lastLevel >= threshold {
        holdoverCount := VAD_HOLDOVER_FRAMES;
      } else if holdoverCount > 0 {
        holdoverCount := holdoverCount - 1;
      } else {
        return Success(None);
      }
      return Success(Some(frame));
    }

    /** `_capture_loop` over a sequence of input, ended by the last read or by an error. */
    method CaptureLoop(input: seq<Option<Frame>>) returns (sent: seq<Frame>, error: Option<Error>)
      modifies this
      ensures RunAll(threshold, old(State()), input) == Run(State(), sent, error)
      ensures old(Valid()) ==> Valid()
    {
      ghost var st0 := State();
      sent, error := [], None;
      var i: nat := 0;
      while i < |input|
        invariant LoopProgress(threshold, st0, input, i, State(), sent)
        invariant old(Valid()) ==> Valid()
        decreases |input| - i
      {
        ghost var st := State();
        var r := CaptureFrame(input[i]);
        if r.Failure? {
          LoopStop(threshold, st0, input, i, st, sent);
          return sent, Some(r.error);
        }
        LoopNext(threshold, st0, input, i, st, sent, State(), r.value);
        sent := sent + if r.value.Some? then [r.value.value] else [];
        i := i + 1;
      }
      LoopStop(threshold, st0, input, i, State(), sent);
    }
  }
}
