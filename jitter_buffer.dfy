/**
 * The per-player jitter buffer (rogue_talk/client/jitter_buffer.py): packets
 * kept in timestamp order, at most `maxPackets` of them, playback held back
 * until `minPackets` have arrived, and a reset when a speech burst starts
 * after a long gap.
 */
module JitterBuffers {
  import opened Wrappers
  import opened Bytes

  /** An Opus packet with its capture time; the volume is carried, never computed with. */
  datatype AudioPacket = AudioPacket(timestampMs: int, opusData: seq<byte>, volume: real)

  const GAP_THRESHOLD_MS: int := 500

  /** Timestamps never decrease along the buffer. */
  predicate SortedPairs(ps: seq<AudioPacket>) {
    forall i, j :: 0 <= i < j < |ps| ==> ps[i].timestampMs <= ps[j].timestampMs
  }

  /**
   * The same order stated neighbour by neighbour, which the buffer's
   * invariant uses; `SortedMeaning` proves the two agree.
   */
  predicate Sorted(ps: seq<AudioPacket>)
    decreases |ps|, 1
  {
    ps == [] || SortedFrom(ps)
  }

  predicate SortedFrom(ps: seq<AudioPacket>)
    requires ps != []
    decreases |ps|, 0
  {
    (|ps| == 1 || ps[0].timestampMs <= ps[1].timestampMs) && Sorted(ps[1..])
  }

  lemma {:induction false} SortedMeaning(ps: seq<AudioPacket>)
    ensures Sorted(ps) <==> SortedPairs(ps)
    decreases |ps|
  {
    if ps != [] {
      SortedMeaning(ps[1..]);
      if SortedPairs(ps) {
        assert SortedPairs(ps[1..]) by {
          forall i, j | 0 <= i < j < |ps| - 1 ensures ps[1..][i].timestampMs <= ps[1..][j].timestampMs {
            assert ps[1..][i] == ps[i + 1] && ps[1..][j] == ps[j + 1];
          }
        }
        assert SortedFrom(ps);
      }
      if Sorted(ps) {
        assert SortedFrom(ps);
        forall i, j | 0 <= i < j < |ps| ensures ps[i].timestampMs <= ps[j].timestampMs {
          assert ps[j] == ps[1..][j - 1];
          if i > 0 {
            assert ps[i] == ps[1..][i - 1];
          } else if j > 1 {
            assert ps[1] == ps[1..][0];
          }
        }
      }
    }
  }

  /** The index of the first packet later than `t`, or `|ps|` when there is none. */
  function FirstLater(ps: seq<AudioPacket>, t: int): (i: nat)
    ensures i <= |ps|
    ensures forall k :: 0 <= k < i ==> ps[k].timestampMs <= t
    ensures i < |ps| ==> t < ps[i].timestampMs
    decreases |ps|
  {
    if |ps| == 0 then 0
    else if t < ps[0].timestampMs then 0
    else 1 + FirstLater(ps[1..], t)
  }

  /** The first later packet is the one a left-to-right search stops at. */
  lemma {:induction false} FirstLaterIs(ps: seq<AudioPacket>, t: int, i: nat)
    requires i <= |ps|
    requires forall k :: 0 <= k < i ==> ps[k].timestampMs <= t
    requires i < |ps| ==> t < ps[i].timestampMs
    ensures FirstLater(ps, t) == i
    decreases |ps|
  {
    if ps != [] && i > 0 {
      FirstLaterIs(ps[1..], t, i - 1);
    }
  }

  /**
   * Where `add_packet` puts a packet: appended when it is not older than the
   * newest, otherwise before the first packet later than it.
   */
  function Insert(ps: seq<AudioPacket>, p: AudioPacket): seq<AudioPacket> {
    if ps == [] || p.timestampMs >= ps[|ps| - 1].timestampMs then ps + [p]
    else
      var i := FirstLater(ps, p.timestampMs);
      ps[..i] + [p] + ps[i..]
  }

  /** The newest `max` packets: the oldest ones are dropped from the front. */
  function KeepNewest(ps: seq<AudioPacket>, max: nat): (r: seq<AudioPacket>)
    ensures |r| <= max
  {
    if |ps| > max then ps[|ps| - max..] else ps
  }

  /** Placing `p` at an index between the packets not later than it and those later than it keeps the order. */
  lemma PlaceSortedPairs(ps: seq<AudioPacket>, i: nat, p: AudioPacket)
    requires SortedPairs(ps) && i <= |ps|
    requires forall k :: 0 <= k < i ==> ps[k].timestampMs <= p.timestampMs
    requires i < |ps| ==> p.timestampMs < ps[i].timestampMs
    ensures SortedPairs(ps[..i] + [p] + ps[i..])
  {
    var r := ps[..i] + [p] + ps[i..];
    assert forall k :: 0 <= k < i ==> r[k] == ps[k];
    assert forall k :: i < k < |r| ==> r[k] == ps[k - 1];
    forall a, b | 0 <= a < b < |r| ensures r[a].timestampMs <= r[b].timestampMs {
      if b > i && a > i {
        assert r[a] == ps[a - 1] && r[b] == ps[b - 1];
      } else if b > i && a == i {
        assert r[b] == ps[b - 1];
        assert ps[i].timestampMs <= ps[b - 1].timestampMs;
      } else if b > i {
        assert r[a] == ps[a] && r[b] == ps[b - 1];
      } else if b == i {
        assert r[a] == ps[a];
      } else {
        assert r[a] == ps[a] && r[b] == ps[b];
      }
    }
  }

  /** Inserting keeps the order and adds exactly the new packet. */
  lemma InsertSpec(ps: seq<AudioPacket>, p: AudioPacket)
    requires SortedPairs(ps)
    ensures SortedPairs(Insert(ps, p))
    ensures multiset(Insert(ps, p)) == multiset(ps) + multiset{p}
    ensures |Insert(ps, p)| == |ps| + 1
  {
    if ps == [] || p.timestampMs >= ps[|ps| - 1].timestampMs {
      AppendSpec(ps, p);
    } else {
      var i := FirstLater(ps, p.timestampMs);
      PlaceSortedPairs(ps, i, p);
      PlaceMultiset(ps, i, p);
    }
  }

  lemma AppendSpec(ps: seq<AudioPacket>, p: AudioPacket)
    requires SortedPairs(ps) && (ps == [] || p.timestampMs >= ps[|ps| - 1].timestampMs)
    ensures SortedPairs(ps + [p])
  {
    assert forall k :: 0 <= k < |ps| ==> ps[k].timestampMs <= ps[|ps| - 1].timestampMs;
    assert ps[..|ps|] == ps && ps[|ps|..] == [];
    PlaceSortedPairs(ps, |ps|, p);
  }

  lemma PlaceMultiset(ps: seq<AudioPacket>, i: nat, p: AudioPacket)
    requires i <= |ps|
    ensures multiset(ps[..i] + [p] + ps[i..]) == multiset(ps) + multiset{p}
  {
    assert ps == ps[..i] + ps[i..];
  }

  /** Dropping the oldest keeps the order and leaves a suffix. */
  lemma KeepNewestSpec(ps: seq<AudioPacket>, max: nat)
    requires SortedPairs(ps)
    ensures SortedPairs(KeepNewest(ps, max))
    ensures |ps| <= max ==> KeepNewest(ps, max) == ps
    ensures |ps| > max ==> |KeepNewest(ps, max)| == max && KeepNewest(ps, max) == ps[|ps| - max..]
  {
    var r := KeepNewest(ps, max);
    forall i, j | 0 <= i < j < |r| ensures r[i].timestampMs <= r[j].timestampMs {
      if |ps| > max {
        assert r[i] == ps[|ps| - max + i] && r[j] == ps[|ps| - max + j];
      }
    }
  }

  /** What `add_packet` leaves behind is sorted whenever the buffer was. */
  lemma AddedSorted(ps: seq<AudioPacket>, p: AudioPacket, max: nat)
    requires Sorted(ps)
    ensures Sorted(KeepNewest(Insert(ps, p), max))
  {
    SortedMeaning(ps);
    InsertSpec(ps, p);
    KeepNewestSpec(Insert(ps, p), max);
    SortedMeaning(KeepNewest(Insert(ps, p), max));
  }

  /** The insertion step of `add_packet`: append, or search from the front for the first later packet. */
  method InsertInOrder(buf: seq<AudioPacket>, p: AudioPacket) returns (r: seq<AudioPacket>)
    ensures r == Insert(buf, p)
  {
    if buf == [] || p.timestampMs >= buf[|buf| - 1].timestampMs {
      return buf + [p];
    }
    // The newest packet is later than `p`, so the search always stops inside the buffer.
    var i: nat := 0;
    while i < |buf| && p.timestampMs >= buf[i].timestampMs
      invariant 0 <= i <= |buf|
      invariant forall k :: 0 <= k < i ==> buf[k].timestampMs <= p.timestampMs
    {
      i := i + 1;
    }
    FirstLaterIs(buf, p.timestampMs, i);
    r := buf[..i] + [p] + buf[i..];
  }

  /** The trimming step of `add_packet`: the oldest packets are popped until at most `max` remain. */
  method DropOldest(buf: seq<AudioPacket>, max: nat) returns (r: seq<AudioPacket>)
    ensures r == KeepNewest(buf, max)
  {
    r := buf;
    ghost var dropped: nat := 0;
    while |r| > max
      invariant dropped <= |buf| && r == buf[dropped..]
      invariant |r| >= max || dropped == 0
    {
      r := r[1..];
      dropped := dropped + 1;
    }
  }

  class JitterBuffer {
    const minPackets: int
    const maxPackets: nat
    var packets: seq<AudioPacket>
    var playbackStarted: bool
    /** The timestamp of the packet added last, which a reset does not clear. */
    var lastTimestampMs: int

    ghost predicate Valid()
      reads this
    {
      Sorted(packets) && |packets| <= maxPackets
    }

    constructor (minPackets: int, maxPackets: nat)
      ensures Valid()
      ensures this.minPackets == minPackets && this.maxPackets == maxPackets
      ensures packets == [] && !playbackStarted && lastTimestampMs == 0
    {
      this.minPackets := minPackets;
      this.maxPackets := maxPackets;
      packets := [];
      playbackStarted := false;
      lastTimestampMs := 0;
    }

    /** Whether an arriving packet restarts the buffer: playback is on, packets wait, and the gap is too long. */
    ghost predicate GapResets(p: AudioPacket)
      reads this
    {
      playbackStarted && packets != [] && p.timestampMs - lastTimestampMs > GAP_THRESHOLD_MS
    }

    /** `add_packet(packet)` */
    method AddPacket(p: AudioPacket)
      requires Valid()
      modifies this
      ensures Valid()
      ensures lastTimestampMs == p.timestampMs
      ensures playbackStarted == (old(playbackStarted) && !old(GapResets(p)))
      ensures packets == KeepNewest(Insert(if old(GapResets(p)) then [] else old(packets), p), maxPackets)
    {
      ghost var restart := GapResets(p);
      if playbackStarted && packets != [] {
        var gap := p.timestampMs - lastTimestampMs;
        if gap > GAP_THRESHOLD_MS {
          Reset();
        }
      }
      lastTimestampMs := p.timestampMs;
      ghost var base := packets;
      assert base == if restart then [] else old(packets);
      assert playbackStarted == (old(playbackStarted) && !restart);
      var buf := InsertInOrder(packets, p);
      buf := DropOldest(buf, maxPackets);
      AddedSorted(base, p, maxPackets);
      packets := buf;
    }

    /** `get_next_packet()`: nothing until enough packets wait, then the oldest one. */
    method GetNextPacket() returns (r: Option<AudioPacket>)
      requires Valid()
      modifies this
      ensures Valid()
      ensures lastTimestampMs == old(lastTimestampMs)
      ensures old(packets) == [] ==> r == None && packets == old(packets) && playbackStarted == old(playbackStarted)
      ensures old(packets) != [] && !old(playbackStarted) && |old(packets)| < minPackets ==>
        r == None && packets == old(packets) && !playbackStarted
      ensures old(packets) != [] && (old(playbackStarted) || |old(packets)| >= minPackets) ==>
        r == Some(old(packets)[0]) && packets == old(packets)[1..] && playbackStarted
      ensures r.Some? ==> forall k :: 0 <= k < |packets| ==> r.value.timestampMs <= packets[k].timestampMs
    {
      if packets == [] {
        return None;
      }
      if !playbackStarted {
        if |packets| < minPackets {
          return None;
        }
        playbackStarted := true;
      }
      assert SortedFrom(packets);
      SortedMeaning(packets);
      assert forall k :: 0 <= k < |packets| - 1 ==> packets[1..][k] == packets[k + 1];
      r := Some(packets[0]);
      packets := packets[1..];
    }

    /** `has_started()` */
    function HasStarted(): bool
      reads this
    {
      playbackStarted
    }

    /** `reset()`: the buffer empties and waits for `minPackets` again. */
    method Reset()
      modifies this
      ensures packets == [] && !playbackStarted
      ensures lastTimestampMs == old(lastTimestampMs)
      ensures Valid()
    {
      packets := [];
      playbackStarted := false;
    }
  }

  /** Into a buffer with room, a packet is added and nothing is lost. */
  lemma AddedPacketKept(ps: seq<AudioPacket>, p: AudioPacket, max: nat)
    requires Sorted(ps) && |ps| < max
    ensures p in KeepNewest(Insert(ps, p), max)
    ensures multiset(KeepNewest(Insert(ps, p), max)) == multiset(ps) + multiset{p}
  {
    SortedMeaning(ps);
    InsertSpec(ps, p);
    assert p in multiset(Insert(ps, p));
  }
}
