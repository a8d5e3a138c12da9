/** The forensic ring: the last 256 packets seen, read back newest first. */
module FxRings {
  import opened Machine
  import opened Packets
  import Ring

  const FX_RING_MAX: nat := 256
  const FX_SAMPLE_MAX: nat := 32

  datatype FxPacket = FxPacket(
    ts: int, srcIp: string, dstIp: string, srcPort: u16, dstPort: u16, protocol: u8, size: u32)

  function FxOf(p: ParsedPacket, now: int): FxPacket {
    FxPacket(now, p.srcIp, p.dstIp, p.srcPort, p.dstPort, p.protocol, Wrap32(p.packetSize))
  }

  /** The newest `n` of `s`, newest first. */
  function Newest<T>(s: seq<T>, n: nat): seq<T> {
    Reversed(LastN(s, n))
  }

  /** Reading back from the ring is reading back from the whole history. */
  lemma NewestOfRing<T>(h: seq<T>, capacity: nat, n: nat)
    requires n <= Min(capacity, |h|)
    ensures Newest(LastN(h, capacity), n) == Newest(h, n)
  {
    var s := LastN(h, capacity);
    assert LastN(s, n) == LastN(h, n);
  }

  lemma CopiedNewest<T>(copied: seq<T>, live: seq<T>)
    requires |copied| <= |live|
    requires forall k :: 0 <= k < |copied| ==> copied[k] == live[|live| - 1 - k]
    ensures copied == Newest(live, |copied|)
  {
  }

  class FxRing {
    const packets: array<FxPacket>
    var head: nat
    var count: nat

    ghost var history: seq<FxPacket>  // every packet ever pushed

    ghost predicate Valid()
      reads this, packets
    {
      packets.Length == FX_RING_MAX &&
      head < FX_RING_MAX && count <= FX_RING_MAX &&
      Ring.Items(packets[..], head, count) == LastN(history, FX_RING_MAX)
    }

    constructor ()
      ensures Valid() && fresh(packets) && history == []
    {
      packets := new FxPacket[FX_RING_MAX](_ => FxPacket(0, "", "", 0, 0, 0, 0));
      head, count := 0, 0;
      history := [];
    }

    method Push(p: ParsedPacket, now: int)
      requires Valid()
      modifies this, packets
      ensures Valid()
      ensures history == old(history) +
        [FxPacket(now, p.srcIp, p.dstIp, p.srcPort, p.dstPort, p.protocol, Wrap32(p.packetSize))]
    {
      Store(FxOf(p, now));
    }

    /** Writes the tail slot, over the oldest packet when the ring is full. */
    method Store(x: FxPacket)
      requires Valid()
      modifies this, packets
      ensures Valid() && history == old(history) + [x]
    {
      ghost var slots := packets[..];
      Ring.PushStep(slots, head, count, x);
      Ring.PushedSuffix(history, x, FX_RING_MAX);
      var tail := (head + count) % FX_RING_MAX;
      if count == FX_RING_MAX {
        head := (head + 1) % FX_RING_MAX;
      } else {
        count := count + 1;
      }
      packets[tail] := x;
      assert packets[..] == slots[tail := x];
      history := history + [x];
    }

    /** Copies out the newest packets, newest first, and touches nothing past them. */
    method Recent(out: array<FxPacket>, max: int) returns (want: nat)
      requires Valid() && out != packets && max <= out.Length
      modifies out
      ensures want == Max(0, Min(max, Min(256, |history|)))
      ensures out[..want] == Newest(history, want)
      ensures out[want..] == old(out[want..])
    {
      if max <= 0 {
        return 0;
      }
      want := Min(count, max);
      ghost var live := Ring.Items(packets[..], head, count);
      assert live == LastN(history, FX_RING_MAX) && |live| == count;
      CopyNewest(out, want);
      CopiedNewest(out[..want], live);
      NewestOfRing(history, FX_RING_MAX, want);
      assert out[..want] == Newest(live, want);
    }

    /** Copies `want` packets from the tail backwards. */
    method CopyNewest(out: array<FxPacket>, want: nat)
      requires Valid() && out != packets && want <= count && want <= out.Length
      modifies out
      ensures forall k :: 0 <= k < want ==> out[k] == Ring.Items(packets[..], head, count)[count - 1 - k]
      ensures out[want..] == old(out[want..])
    {
      ghost var slots := packets[..];
      ghost var live := Ring.Items(slots, head, count);
      for i := 0 to want
        invariant forall k :: 0 <= k < i ==> out[k] == live[count - 1 - k]
        invariant out[i..] == old(out[i..]) && packets[..] == slots
      {
        Ring.FromTail(slots, head, count, i);
        var idx := (head + count - 1 - i) % FX_RING_MAX;
        out[i] := packets[idx];
        assert out[i + 1..] == out[i..][1..];
      }
    }
  }
}
