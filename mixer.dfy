/**
 * The multi-stream mixer (rogue_talk/audio/mixer.py): one slot per player
 * holding that player's latest frame and volume, mixed sample by sample and
 * emptied on every mix. Samples are exact reals and the soft clipping is a
 * function parameter.
 */
module Mixer {
  import opened Constants
  import Collections

  type Frame = seq<real>

  /** A player's slot: the frame and the volume it is played at. */
  type Slot = (Frame, real)

  /** `add_frame`'s length fix: zero-padded or truncated to `FRAME_SIZE`. */
  function Fit(pcm: Frame): (r: Frame)
    ensures |r| == FRAME_SIZE
    ensures forall i :: 0 <= i < FRAME_SIZE ==> r[i] == (if i < |pcm| then pcm[i] else 0.0)
  {
    if |pcm| < FRAME_SIZE then pcm + seq(FRAME_SIZE - |pcm|, _ => 0.0)
    else pcm[..FRAME_SIZE]
  }

  /** Sample `k` of a slot at its volume. */
  function Contribution(s: Slot, k: nat): real {
    if k < |s.0| then s.0[k] * s.1 else 0.0
  }

  /** `mixed += pcm * volume` */
  function AddSlot(mixed: Frame, s: Slot): (r: Frame)
    ensures |r| == |mixed| && forall k :: 0 <= k < |mixed| ==> r[k] == mixed[k] + Contribution(s, k)
  {
    seq(|mixed|, k requires 0 <= k < |mixed| => mixed[k] + Contribution(s, k))
  }

  /** The clipping applied to every sample. */
  function ClipAll(f: Frame, clip: real -> real): (r: Frame)
    ensures |r| == |f| && forall k :: 0 <= k < |f| ==> r[k] == clip(f[k])
  {
    seq(|f|, k requires 0 <= k < |f| => clip(f[k]))
  }

  /** The sum of every slot's sample `k`, taken in some fixed order. */
  ghost function Total(m: map<int, Slot>, k: nat): real
    decreases |m.Keys|
  {
    if m == map[] then 0.0
    else
      var id := Collections.Choose(m.Keys);
      Contribution(m[id], k) + Total(m - {id}, k)
  }

  /** The order of summation does not matter: any slot can be taken out first. */
  lemma {:induction false} TotalRemove(m: map<int, Slot>, id: int, k: nat)
    requires id in m
    ensures Total(m, k) == Contribution(m[id], k) + Total(m - {id}, k)
    decreases |m.Keys|
  {
    var first := Collections.Choose(m.Keys);
    if first != id {
      var rest := m - {first};
      assert |rest.Keys| < |m.Keys| by { assert rest.Keys == m.Keys - {first}; }
      TotalRemove(rest, id, k);
      var both := rest - {id};
      assert (m - {id}) - {first} == both;
      assert |(m - {id}).Keys| < |m.Keys| by { assert (m - {id}).Keys == m.Keys - {id}; }
      TotalRemove(m - {id}, first, k);
    }
  }

  /** With one slot, the mix is that slot scaled by its volume. */
  lemma TotalSingle(id: int, s: Slot, k: nat)
    ensures Total(map[id := s], k) == Contribution(s, k)
  {
    var m := map[id := s];
    assert m.Keys == {id};
    assert m - {id} == map[];
  }

  class AudioMixer {
    var streams: map<int, Slot>

    /** Every stored frame has been fitted to `FRAME_SIZE`. */
    ghost predicate Valid()
      reads this
    {
      forall id :: id in streams ==> |streams[id].0| == FRAME_SIZE
    }

    constructor ()
      ensures Valid() && streams == map[]
    {
      streams := map[];
    }

    /** `add_frame(player_id, pcm, volume)`: the player's slot now holds the fitted frame. */
    method AddFrame(playerId: int, pcm: Frame, volume: real)
      requires Valid()
      modifies this
      ensures Valid()
      ensures streams == old(streams)[playerId := (Fit(pcm), volume)]
    {
      var data := pcm;
      if |data| < FRAME_SIZE {
        data := data + seq(FRAME_SIZE - |data|, _ => 0.0);
      } else if |data| > FRAME_SIZE {
        data := data[..FRAME_SIZE];
      } else {
        assert data == pcm[..FRAME_SIZE];
      }
      streams := streams[playerId := (data, volume)];
    }

    /**
     * `mix()`: silence without streams, otherwise every sample is the
     * clipped sum of the players' scaled samples; the slots are emptied.
     */
    method Mix(clip: real -> real) returns (mixed: Frame)
      requires Valid()
      modifies this
      ensures Valid() && streams == map[]
      ensures |mixed| == FRAME_SIZE
      ensures old(streams) == map[] ==> forall k :: 0 <= k < FRAME_SIZE ==> mixed[k] == 0.0
      ensures old(streams) != map[] ==> forall k :: 0 <= k < FRAME_SIZE ==> mixed[k] == clip(Total(old(streams), k))
    {
      if streams == map[] {
        return seq(FRAME_SIZE, _ => 0.0);
      }
      mixed := seq(FRAME_SIZE, _ => 0.0);
      var rest := streams;
      while rest != map[]
        invariant |mixed| == FRAME_SIZE && streams == old(streams)
        invariant forall k :: 0 <= k < FRAME_SIZE ==> mixed[k] + Total(rest, k) == Total(streams, k)
        decreases |rest.Keys|
      {
        var id := Collections.Pick(rest.Keys);
        var next := AddSlot(mixed, rest[id]);
        forall k | 0 <= k < FRAME_SIZE
          ensures next[k] + Total(rest - {id}, k) == Total(streams, k)
        {
          TotalRemove(rest, id, k);
        }
        mixed := next;
        assert (rest - {id}).Keys == rest.Keys - {id};
        rest := rest - {id};
      }
      assert forall k :: 0 <= k < FRAME_SIZE ==> Total(rest, k) == 0.0;
      mixed := ClipAll(mixed, clip);
      streams := map[];
    }

    /** `remove_player(player_id)`: only that slot goes, and a missing one is no error. */
    method RemovePlayer(playerId: int)
      requires Valid()
      modifies this
      ensures Valid()
      ensures streams == old(streams) - {playerId}
    {
      streams := streams - {playerId};
    }
  }
}
