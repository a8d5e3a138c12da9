/** The rolling packet window: a circular buffer of recent records with time-based eviction,
    drop-oldest on saturation and six totals kept incrementally. */
module PacketWindows {
  import opened Machine
  import opened Packets
  import opened TrafficStats
  import Ring

  const PACKET_WINDOW_SECONDS := 5
  const PACKET_WINDOW_CAPACITY: nat := 16384

  function RecordOf(packet: ParsedPacket, now: int): PktRecord {
    PktRecord(now, Wrap32(packet.packetSize), packet.protocol)
  }

  /** Where eviction stops: the first record from `lo` on that is not expired, or `hi`. */
  function FirstLive(s: seq<PktRecord>, lo: nat, hi: nat, cutoff: int): (k: nat)
    requires lo <= hi <= |s|
    ensures lo <= k <= hi
    ensures forall i :: lo <= i < k ==> s[i].ts < cutoff
    ensures k < hi ==> s[k].ts >= cutoff
    decreases hi - lo
  {
    if lo < hi && s[lo].ts < cutoff then FirstLive(s, lo + 1, hi, cutoff) else lo
  }

  function DropExpired(s: seq<PktRecord>, cutoff: int): seq<PktRecord> {
    s[FirstLive(s, 0, |s|, cutoff)..]
  }

  /** One push: evict, then append, dropping the oldest survivor if the buffer is full. */
  function Pushed(s: seq<PktRecord>, rec: PktRecord, capacity: nat): (r: seq<PktRecord>)
    requires 0 < capacity
    ensures 0 < |r| <= capacity && r[|r| - 1] == rec
  {
    Ring.Pushed(DropExpired(s, rec.ts - PACKET_WINDOW_SECONDS), rec, capacity)
  }

  /** `word += (uint64_t)amount` for a possibly negative amount. */
  method AddSigned(word: u64, amount: int) returns (r: u64)
    ensures r == Wrap64(word + amount)
  {
    WrapAdd(word, amount);
    r := Wrap64(word + Wrap64(amount));
  }

  /** What `sign` packets and `bytes` bytes of a protocol add. */
  function Amount(protocol: u8, sign: int, bytes: int): Stats {
    if protocol == PROTO_TCP then Stats(sign, sign, 0, bytes, bytes, 0)
    else if protocol == PROTO_UDP then Stats(sign, 0, sign, bytes, 0, bytes)
    else Stats(sign, 0, 0, bytes, 0, 0)
  }

  lemma SignedUnit(protocol: u8, size: u32, sign: int, bytes: int)
    requires (sign == 1 && bytes == size) || (sign == -1 && bytes == -(size as int))
    ensures Amount(protocol, sign, bytes) == if sign == 1 then Unit(protocol, size) else Negated(Unit(protocol, size))
  {
  }

  /** The six words after that: those a protocol does not touch stay as they are. */
  function WordsAfter(s: Stats, protocol: u8, sign: int, bytes: int): Stats {
    var tcp, udp := protocol == PROTO_TCP, protocol == PROTO_UDP;
    Stats(Wrap64(s.totalPackets + sign),
          if tcp then Wrap64(s.tcpPackets + sign) else s.tcpPackets,
          if udp then Wrap64(s.udpPackets + sign) else s.udpPackets,
          Wrap64(s.totalBytes + bytes),
          if tcp then Wrap64(s.tcpBytes + bytes) else s.tcpBytes,
          if udp then Wrap64(s.udpBytes + bytes) else s.udpBytes)
  }

  lemma AddedWords(s: Stats, protocol: u8, sign: int, bytes: int)
    requires Fits(s)
    ensures Wrapped(Plus(s, Amount(protocol, sign, bytes))) == WordsAfter(s, protocol, sign, bytes)
  {
  }

  class PacketWindow {
    const records: array<PktRecord>
    var head: nat
    var count: nat
    var overflowLogged: bool

    var totalPackets: u64
    var tcpPackets: u64
    var udpPackets: u64
    var totalBytes: u64
    var tcpBytes: u64
    var udpBytes: u64

    ghost var contents: seq<PktRecord>  // the retained records, oldest first
    ghost var history: seq<PktRecord>   // every record ever pushed

    function Counters(): Stats
      reads this
    {
      Stats(totalPackets, tcpPackets, udpPackets, totalBytes, tcpBytes, udpBytes)
    }

    ghost predicate InBounds()
      reads this
    {
      head < records.Length && count <= records.Length
    }

    /** `contents` is what the buffer holds, oldest first; it is a suffix of everything pushed,
        and the counters are its totals modulo 2^64. */
    ghost predicate Valid()
      reads this, records
    {
      InBounds() &&
      contents == Ring.Items(records[..], head, count) &&
      Counters() == Wrapped(Totals(contents)) &&
      Suffix(contents, history)
    }

    constructor (capacity: nat)
      requires 0 < capacity
      ensures Valid() && fresh(records) && records.Length == capacity
      ensures contents == [] && history == [] && !overflowLogged
    {
      records := new PktRecord[capacity](_ => PktRecord(0, 0, 0));
      head, count, overflowLogged := 0, 0, false;
      totalPackets, tcpPackets, udpPackets := 0, 0, 0;
      totalBytes, tcpBytes, udpBytes := 0, 0, 0;
      contents, history := [], [];
    }

    /** Adds (`sign` 1) or takes away (`sign` -1) one record's contribution. Taking away goes
        through the two's-complement words of -1 and of the negated size. */
    method Aggregate(rec: PktRecord, sign: int)
      requires sign == 1 || sign == -1
      modifies `totalPackets, `tcpPackets, `udpPackets, `totalBytes, `tcpBytes, `udpBytes
      ensures var unit := Unit(rec.protocol, rec.size);
        Counters() == Wrapped(Plus(old(Counters()), if sign == 1 then unit else Negated(unit)))
    {
      var bytes: int := rec.size;
      if sign == -1 { bytes := -bytes; }
      AddedWords(Counters(), rec.protocol, sign, bytes);
      SignedUnit(rec.protocol, rec.size, sign, bytes);
      AddToWords(rec.protocol, sign, bytes);
    }

    method AddToWords(protocol: u8, sign: int, bytes: int)
      modifies `totalPackets, `tcpPackets, `udpPackets, `totalBytes, `tcpBytes, `udpBytes
      ensures Counters() == WordsAfter(old(Counters()), protocol, sign, bytes)
    {
      totalPackets := AddSigned(totalPackets, sign);
      totalBytes := AddSigned(totalBytes, bytes);
      if protocol == PROTO_TCP {
        tcpPackets := AddSigned(tcpPackets, sign);
        tcpBytes := AddSigned(tcpBytes, bytes);
      } else if protocol == PROTO_UDP {
        udpPackets := AddSigned(udpPackets, sign);
        udpBytes := AddSigned(udpBytes, bytes);
      }
    }

    method PopHead()
      requires Valid() && 0 < count
      modifies `head, `count, `contents, `totalPackets, `tcpPackets, `udpPackets, `totalBytes, `tcpBytes, `udpBytes
      ensures Valid()
      ensures contents == old(contents)[1..]
    {
      Ring.PopStep(records[..], head, count);
      TotalsTail(contents);
      Aggregate(records[head], -1);
      AdvanceHead();
    }

    /** Moves the head past the oldest record. */
    method AdvanceHead()
      requires InBounds() && 0 < count && Suffix(contents, history)
      requires contents == Ring.Items(records[..], head, count)
      modifies `head, `count, `contents
      ensures InBounds() && Suffix(contents, history)
      ensures contents == Ring.Items(records[..], head, count)
      ensures contents == old(contents)[1..]
    {
      Ring.PopStep(records[..], head, count);
      SuffixTail(contents, history);
      head := (head + 1) % records.Length;
      count := count - 1;
      contents := contents[1..];
    }

    method EvictExpired(now: int)
      requires Valid()
      modifies this
      ensures Valid() && history == old(history)
      ensures contents == DropExpired(old(contents), now - PACKET_WINDOW_SECONDS)
      ensures overflowLogged == (old(overflowLogged) && |contents| > 0)
    {
      PopExpired(now - PACKET_WINDOW_SECONDS);
      ForgetOverflow();
    }

    /** An empty window is no longer saturated. */
    method ForgetOverflow()
      requires Valid()
      modifies `overflowLogged
      ensures Valid() && overflowLogged == (old(overflowLogged) && |contents| > 0)
    {
      if count == 0 {
        overflowLogged := false;
      }
    }

    method PopExpired(cutoff: int)
      requires Valid()
      modifies this
      ensures Valid() && history == old(history) && overflowLogged == old(overflowLogged)
      ensures contents == DropExpired(old(contents), cutoff)
    {
      ghost var popped := 0;
      while count > 0 && records[head].ts < cutoff
        invariant Valid() && history == old(history) && overflowLogged == old(overflowLogged)
        invariant popped <= |old(contents)| && contents == old(contents)[popped..]
        invariant forall i :: 0 <= i < popped ==> old(contents)[i].ts < cutoff
        decreases count
      {
        assert records[head] == contents[0];
        DropOneMore(old(contents), popped);
        PopHead();
        popped := popped + 1;
      }
      assert count > 0 ==> records[head] == contents[0];
      FirstLiveUnique(old(contents), 0, |old(contents)|, cutoff, popped);
    }

    method Push(packet: ParsedPacket, now: int)
      requires Valid()
      modifies this, records
      ensures Valid()
      ensures history == old(history) + [PktRecord(now, packet.packetSize % 0x1_0000_0000, packet.protocol)]
      ensures contents == Pushed(old(contents), RecordOf(packet, now), records.Length)
      ensures var live := DropExpired(old(contents), now - PACKET_WINDOW_SECONDS);
        overflowLogged == (|live| == records.Length || (old(overflowLogged) && |live| > 0))
    {
      var rec := RecordOf(packet, now);
      EvictExpired(now);
      DropIfFull(rec);
      Append(rec);
    }

    /** Saturation: the oldest record makes room for the next, and the flag remembers that it
        was logged. */
    method DropIfFull(ghost next: PktRecord)
      requires Valid()
      modifies this
      ensures Valid() && count < records.Length && history == old(history)
      ensures contents + [next] == Ring.Pushed(old(contents), next, records.Length)
      ensures overflowLogged == (|old(contents)| == records.Length || old(overflowLogged))
    {
      Ring.RoomThenAppend(contents, next, records.Length);
      if count == records.Length {
        PopHead();
        if !overflowLogged {
          overflowLogged := true;
        }
      }
    }

    /** Writes the free tail slot. */
    method StoreTail(rec: PktRecord)
      requires InBounds() && count < records.Length
      modifies `count, records
      ensures InBounds() && count == old(count) + 1
      ensures Ring.Items(records[..], head, count) == old(Ring.Items(records[..], head, count)) + [rec]
    {
      ghost var slots := records[..];
      Ring.SlotIsModular(head, count, |slots|);
      Ring.WriteTail(slots, head, count, rec);
      var tail := (head + count) % records.Length;
      records[tail] := rec;
      assert records[..] == slots[tail := rec];
      count := count + 1;
    }

    /** Stores and counts one record; the last step of a push. */
    method Append(rec: PktRecord)
      requires Valid() && count < records.Length
      modifies `count, `contents, `history, records,
               `totalPackets, `tcpPackets, `udpPackets, `totalBytes, `tcpBytes, `udpBytes
      ensures Valid()
      ensures history == old(history) + [rec]
      ensures contents == old(contents) + [rec]
    {
      SuffixSnoc(contents, history, rec);
      TotalsSnoc(contents, rec);
      WrapPlus(Totals(contents), Unit(rec.protocol, rec.size));
      StoreTail(rec);
      Aggregate(rec, 1);
      contents := contents + [rec];
      history := history + [rec];
    }

    /** A snapshot reports the six totals of the retained records; with at most 2^32 slots
        these are the true sums, untouched by the modular updates. */
    method Snapshot() returns (out: Stats)
      requires Valid()
      ensures out == Accumulated(contents)
      ensures records.Length <= TWO32 ==> out == Totals(contents) && AreSumsOf(out, contents, |contents|)
    {
      out := Stats(totalPackets, tcpPackets, udpPackets, totalBytes, tcpBytes, udpBytes);
      AccumulatedIsWrappedTotals(contents);
      if records.Length <= TWO32 {
        NoWrap(contents);
        TotalsAreSums(contents);
      }
    }
  }

  // ----- Whole histories -----

  /** The window after pushing the first `n` records of `h`, each at its own timestamp. */
  function Run(h: seq<PktRecord>, n: nat, capacity: nat): (s: seq<PktRecord>)
    requires 0 < capacity && n <= |h|
  {
    if n == 0 then [] else Pushed(Run(h, n - 1, capacity), h[n - 1], capacity)
  }

  /** The history index the window starts at after `n` pushes. */
  function Start(h: seq<PktRecord>, n: nat, capacity: nat): (k: nat)
    requires 0 < capacity && n <= |h|
    ensures k <= n && n - k <= capacity && (0 < n ==> k < n)
  {
    if n == 0 then 0 else NextStart(h, Start(h, n - 1, capacity), n - 1, capacity)
  }

  /** How record `n` moves the start: past the expired records, and past all but `capacity`. */
  function NextStart(h: seq<PktRecord>, st: nat, n: nat, capacity: nat): (k: nat)
    requires 0 < capacity && st <= n < |h|
    ensures st <= k <= n || k == n + 1 - capacity
    ensures k <= n && n + 1 - k <= capacity
  {
    Max(FirstLive(h, st, n, h[n].ts - PACKET_WINDOW_SECONDS), n + 1 - capacity)
  }

  /** Without any assumption on the clock the window is a contiguous suffix of the history. */
  lemma {:induction false} WindowIsSuffix(h: seq<PktRecord>, n: nat, capacity: nat)
    requires 0 < capacity && n <= |h|
    ensures Run(h, n, capacity) == h[Start(h, n, capacity)..n]
  {
    if n > 0 {
      WindowIsSuffix(h, n - 1, capacity);
      var s, st := Run(h, n - 1, capacity), Start(h, n - 1, capacity);
      SlicePush(h, s, st, n - 1, capacity);
      var r, st' := Pushed(s, h[n - 1], capacity), NextStart(h, st, n - 1, capacity);
      assert Start(h, n, capacity) == st';
      assert Run(h, n, capacity) == r;
    }
  }

  lemma WindowSize(h: seq<PktRecord>, n: nat, capacity: nat)
    requires 0 < capacity && n <= |h|
    ensures |Run(h, n, capacity)| == n - Start(h, n, capacity)
  {
    WindowIsSuffix(h, n, capacity);
  }

  lemma WindowElement(h: seq<PktRecord>, n: nat, capacity: nat, k: nat)
    requires 0 < capacity && n <= |h| && k < |Run(h, n, capacity)|
    ensures Start(h, n, capacity) + k < n && Run(h, n, capacity)[k] == h[Start(h, n, capacity) + k]
  {
    WindowIsSuffix(h, n, capacity);
  }

  /** The same for a window already at hand. */
  lemma WindowAt(h: seq<PktRecord>, n: nat, capacity: nat, w: seq<PktRecord>, k: nat, m: nat)
    requires 0 < capacity && n <= |h| && w == Run(h, n, capacity) && k < |w| && m == Start(h, n, capacity) + k
    ensures m < n && w[k] == h[m]
  {
    WindowElement(h, n, capacity, k);
  }

  lemma FirstLiveUnique(h: seq<PktRecord>, lo: nat, hi: nat, cutoff: int, k: nat)
    requires lo <= k <= hi <= |h|
    requires forall i :: lo <= i < k ==> h[i].ts < cutoff
    requires k < hi ==> h[k].ts >= cutoff
    ensures FirstLive(h, lo, hi, cutoff) == k
  {
  }

  /** Pushing onto a slice of the history leaves a slice of the history. */
  lemma SlicePush(h: seq<PktRecord>, s: seq<PktRecord>, st: nat, n: nat, capacity: nat)
    requires 0 < capacity && st <= n < |h| && s == h[st..n]
    ensures Pushed(s, h[n], capacity) == h[NextStart(h, st, n, capacity)..n + 1]
  {
    var cutoff := h[n].ts - PACKET_WINDOW_SECONDS;
    SliceEvict(h, st, n, cutoff);
    Ring.PushOntoSlice(h, FirstLive(h, st, n, cutoff), n, capacity);
  }

  lemma SliceEvict(h: seq<PktRecord>, st: nat, n: nat, cutoff: int)
    requires st <= n <= |h|
    ensures DropExpired(h[st..n], cutoff) == h[FirstLive(h, st, n, cutoff)..n]
  {
    var s := h[st..n];
    var j := FirstLive(s, 0, |s|, cutoff);
    assert forall i :: st <= i < n ==> h[i] == s[i - st];
    FirstLiveUnique(h, st, n, cutoff, st + j);
  }

  predicate ClockOrdered(h: seq<PktRecord>) {
    forall i, j :: 0 <= i <= j < |h| ==> h[i].ts <= h[j].ts
  }

  /** Record `i` is still wanted after `n` pushes: young enough and among the last `capacity`. */
  predicate Wanted(h: seq<PktRecord>, n: nat, i: nat, capacity: nat)
    requires i < n <= |h|
  {
    h[i].ts >= h[n - 1].ts - PACKET_WINDOW_SECONDS && n - i <= capacity
  }

  /** With a clock that never runs backwards, exactly the wanted records are retained. */
  lemma WindowHoldsExactlyWanted(h: seq<PktRecord>, n: nat, capacity: nat)
    requires 0 < capacity && n <= |h| && ClockOrdered(h)
    ensures Run(h, n, capacity) == h[Start(h, n, capacity)..n]
    ensures forall i :: 0 <= i < n ==> (Wanted(h, n, i, capacity) <==> Start(h, n, capacity) <= i)
  {
    WindowIsSuffix(h, n, capacity);
    forall i | 0 <= i < n ensures Wanted(h, n, i, capacity) <==> Start(h, n, capacity) <= i {
      StartIsWanted(h, n, i, capacity);
    }
  }

  lemma {:induction false} StartIsWanted(h: seq<PktRecord>, n: nat, i: nat, capacity: nat)
    requires 0 < capacity && i < n <= |h| && ClockOrdered(h)
    ensures Wanted(h, n, i, capacity) <==> Start(h, n, capacity) <= i
  {
    var p := Start(h, n - 1, capacity);
    var f := FirstLive(h, p, n - 1, h[n - 1].ts - PACKET_WINDOW_SECONDS);
    assert Start(h, n, capacity) == NextStart(h, p, n - 1, capacity) == Max(f, n - capacity);
    if i < n - 1 {
      StartIsWanted(h, n - 1, i, capacity);
      assert h[n - 2].ts <= h[n - 1].ts;
      if f <= i {
        assert h[f].ts <= h[i].ts;
      }
    }
  }
}
