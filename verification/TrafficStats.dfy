/** Traffic counters: the plain accumulator, and the exact (unbounded) totals it is compared with. */
module TrafficStats {
  import opened Machine
  import opened Packets

  datatype PktRecord = PktRecord(ts: int, size: u32, protocol: u8)

  /** Six counters. As machine words every field is a `u64`; as exact totals, or as an amount
      to add or take away, it is any integer. */
  datatype Stats = Stats(
    totalPackets: int, tcpPackets: int, udpPackets: int,
    totalBytes: int, tcpBytes: int, udpBytes: int)

  const ZERO := Stats(0, 0, 0, 0, 0, 0)

  function Plus(a: Stats, b: Stats): Stats {
    Stats(a.totalPackets + b.totalPackets, a.tcpPackets + b.tcpPackets, a.udpPackets + b.udpPackets,
          a.totalBytes + b.totalBytes, a.tcpBytes + b.tcpBytes, a.udpBytes + b.udpBytes)
  }

  function Negated(a: Stats): Stats {
    Stats(-a.totalPackets, -a.tcpPackets, -a.udpPackets, -a.totalBytes, -a.tcpBytes, -a.udpBytes)
  }

  function Wrapped(s: Stats): Stats {
    Stats(Wrap64(s.totalPackets), Wrap64(s.tcpPackets), Wrap64(s.udpPackets),
          Wrap64(s.totalBytes), Wrap64(s.tcpBytes), Wrap64(s.udpBytes))
  }

  /** What one packet contributes. */
  function Unit(protocol: u8, size: nat): Stats {
    if protocol == PROTO_TCP then Stats(1, 1, 0, size, size, 0)
    else if protocol == PROTO_UDP then Stats(1, 0, 1, size, 0, size)
    else Stats(1, 0, 0, size, 0, 0)
  }

  /** Exact totals of a list of records. */
  function Totals(recs: seq<PktRecord>): Stats {
    if recs == [] then ZERO else Plus(Unit(recs[0].protocol, recs[0].size), Totals(recs[1..]))
  }

  lemma PlusAssociative(a: Stats, b: Stats, c: Stats)
    ensures Plus(a, Plus(b, c)) == Plus(Plus(a, b), c)
  {
  }

  lemma {:induction false} TotalsConcat(a: seq<PktRecord>, b: seq<PktRecord>)
    ensures Totals(a + b) == Plus(Totals(a), Totals(b))
  {
    if a == [] {
      assert a + b == b;
    } else {
      var u := Unit(a[0].protocol, a[0].size);
      calc {
        Totals(a + b);
        { assert (a + b)[0] == a[0] && (a + b)[1..] == a[1..] + b; }
        Plus(u, Totals(a[1..] + b));
        { TotalsConcat(a[1..], b); }
        Plus(u, Plus(Totals(a[1..]), Totals(b)));
        { PlusAssociative(u, Totals(a[1..]), Totals(b)); }
        Plus(Plus(u, Totals(a[1..])), Totals(b));
      }
    }
  }

  lemma TotalsSnoc(s: seq<PktRecord>, r: PktRecord)
    ensures Totals(s + [r]) == Plus(Totals(s), Unit(r.protocol, r.size))
  {
    TotalsConcat(s, [r]);
    assert [r][1..] == [];
    assert Totals([r]) == Unit(r.protocol, r.size);
  }

  // ----- The totals are plain sums -----

  /** How many of the first `n` records are of a protocol (0 stands for any). */
  function CountOf(recs: seq<PktRecord>, n: nat, protocol: u8): nat
    requires n <= |recs|
  {
    if n == 0 then 0
    else CountOf(recs, n - 1, protocol) + (if protocol == 0 || recs[n - 1].protocol == protocol then 1 else 0)
  }

  function BytesOf(recs: seq<PktRecord>, n: nat, protocol: u8): nat
    requires n <= |recs|
  {
    if n == 0 then 0
    else BytesOf(recs, n - 1, protocol) +
         (if protocol == 0 || recs[n - 1].protocol == protocol then recs[n - 1].size else 0)
  }

  /** Each counter is the count or the sum of sizes over its own protocol: 6 is TCP, 17 is UDP. */
  predicate AreSumsOf(t: Stats, recs: seq<PktRecord>, n: nat)
    requires n <= |recs|
  {
    t.totalPackets == CountOf(recs, n, 0) && t.totalBytes == BytesOf(recs, n, 0) &&
    t.tcpPackets == CountOf(recs, n, 6) && t.tcpBytes == BytesOf(recs, n, 6) &&
    t.udpPackets == CountOf(recs, n, 17) && t.udpBytes == BytesOf(recs, n, 17)
  }

  lemma {:induction false} TotalsAreSumsTo(recs: seq<PktRecord>, n: nat)
    requires n <= |recs|
    ensures AreSumsOf(Totals(recs[..n]), recs, n)
    decreases n
  {
    if n > 0 {
      TotalsAreSumsTo(recs, n - 1);
      assert recs[..n] == recs[..n - 1] + [recs[n - 1]];
      TotalsSnoc(recs[..n - 1], recs[n - 1]);
    }
  }

  lemma TotalsAreSums(recs: seq<PktRecord>)
    ensures AreSumsOf(Totals(recs), recs, |recs|)
  {
    TotalsAreSumsTo(recs, |recs|);
    assert recs[..|recs|] == recs;
  }

  /** The counters of `traffic_stats.c`, updated in place. */
  class Accumulator {
    var totalPackets: u64
    var tcpPackets: u64
    var udpPackets: u64
    var totalBytes: u64
    var tcpBytes: u64
    var udpBytes: u64

    function Value(): Stats
      reads this
    {
      Stats(totalPackets, tcpPackets, udpPackets, totalBytes, tcpBytes, udpBytes)
    }

    constructor ()
      ensures Value() == ZERO
    {
      totalPackets, tcpPackets, udpPackets := 0, 0, 0;
      totalBytes, tcpBytes, udpBytes := 0, 0, 0;
    }

    method Reset()
      modifies this
      ensures Value() == ZERO
    {
      totalPackets, tcpPackets, udpPackets := 0, 0, 0;
      totalBytes, tcpBytes, udpBytes := 0, 0, 0;
    }

    method AddPacket(protocol: u8, size: nat)
      modifies this
      ensures Value() == Wrapped(Plus(old(Value()), Unit(protocol, size)))
      ensures totalPackets == Wrap64(old(totalPackets) + 1) && totalBytes == Wrap64(old(totalBytes) + size)
      ensures tcpPackets == Wrap64(old(tcpPackets) + if protocol == 6 then 1 else 0)
      ensures tcpBytes == Wrap64(old(tcpBytes) + if protocol == 6 then size else 0)
      ensures udpPackets == Wrap64(old(udpPackets) + if protocol == 17 then 1 else 0)
      ensures udpBytes == Wrap64(old(udpBytes) + if protocol == 17 then size else 0)
    {
      totalPackets := Wrap64(totalPackets + 1);
      totalBytes := Wrap64(totalBytes + size);
      if protocol == PROTO_TCP {
        tcpPackets := Wrap64(tcpPackets + 1);
        tcpBytes := Wrap64(tcpBytes + size);
      } else if protocol == PROTO_UDP {
        udpPackets := Wrap64(udpPackets + 1);
        udpBytes := Wrap64(udpBytes + size);
      }
    }
  }

  /** The accumulator's value after adding every record in order, starting from zero. */
  function Accumulated(recs: seq<PktRecord>): Stats
    decreases |recs|
  {
    if recs == [] then ZERO
    else
      var last := recs[|recs| - 1];
      Wrapped(Plus(Accumulated(recs[..|recs| - 1]), Unit(last.protocol, last.size)))
  }

  lemma WrapPlus(a: Stats, b: Stats)
    ensures Wrapped(Plus(Wrapped(a), b)) == Wrapped(Plus(a, b))
  {
    WrapAdd(a.totalPackets, b.totalPackets);
    WrapAdd(a.tcpPackets, b.tcpPackets);
    WrapAdd(a.udpPackets, b.udpPackets);
    WrapAdd(a.totalBytes, b.totalBytes);
    WrapAdd(a.tcpBytes, b.tcpBytes);
    WrapAdd(a.udpBytes, b.udpBytes);
  }

  /** Taking the first record's contribution out of the wrapped totals leaves the others'. */
  lemma TotalsTail(s: seq<PktRecord>)
    requires |s| > 0
    ensures Wrapped(Plus(Wrapped(Totals(s)), Negated(Unit(s[0].protocol, s[0].size)))) == Wrapped(Totals(s[1..]))
  {
    var unit, rest := Unit(s[0].protocol, s[0].size), Totals(s[1..]);
    WrapPlus(Plus(unit, rest), Negated(unit));
    assert Plus(Plus(unit, rest), Negated(unit)) == rest;
  }

  /** Wrapping after every packet is wrapping once at the end. */
  lemma {:induction false} AccumulatedIsWrappedTotals(recs: seq<PktRecord>)
    ensures Accumulated(recs) == Wrapped(Totals(recs))
    decreases |recs|
  {
    if recs != [] {
      var front, last := recs[..|recs| - 1], recs[|recs| - 1];
      AccumulatedIsWrappedTotals(front);
      assert front + [last] == recs;
      TotalsSnoc(front, last);
      WrapPlus(Totals(front), Unit(last.protocol, last.size));
    }
  }

  ghost predicate Fits(s: Stats) {
    0 <= s.totalPackets < TWO64 && 0 <= s.tcpPackets < TWO64 && 0 <= s.udpPackets < TWO64 &&
    0 <= s.totalBytes < TWO64 && 0 <= s.tcpBytes < TWO64 && 0 <= s.udpBytes < TWO64
  }

  /** Protocol counters never exceed the overall ones, and those are bounded by the record count. */
  lemma {:induction false} TotalsBounded(recs: seq<PktRecord>)
    ensures var t := Totals(recs);
      t.totalPackets == |recs| && 0 <= t.tcpPackets && 0 <= t.udpPackets &&
      t.tcpPackets + t.udpPackets <= |recs| && 0 <= t.tcpBytes && 0 <= t.udpBytes &&
      t.tcpBytes + t.udpBytes <= t.totalBytes <= |recs| * (TWO32 - 1)
  {
    if recs != [] {
      TotalsBounded(recs[1..]);
      var u := Unit(recs[0].protocol, recs[0].size);
      assert 0 <= u.tcpBytes + u.udpBytes <= u.totalBytes <= TWO32 - 1;
    }
  }

  /** Up to 2^32 records no counter can wrap, so the machine words are the true totals. */
  lemma NoWrap(recs: seq<PktRecord>)
    requires |recs| <= TWO32
    ensures Fits(Totals(recs)) && Wrapped(Totals(recs)) == Totals(recs)
  {
    TotalsBounded(recs);
  }

  /** A positive protocol counter means a record of that protocol is present. */
  lemma {:induction false} CounterWitness(recs: seq<PktRecord>, protocol: u8)
    requires protocol == PROTO_TCP || protocol == PROTO_UDP
    requires var t := Totals(recs); (if protocol == PROTO_TCP then t.tcpPackets else t.udpPackets) > 0
    ensures exists i :: 0 <= i < |recs| && recs[i].protocol == protocol
  {
    assert recs != [];
    if recs[0].protocol != protocol {
      CounterWitness(recs[1..], protocol);
      var i :| 0 <= i < |recs[1..]| && recs[1..][i].protocol == protocol;
      assert recs[i + 1].protocol == protocol;
    }
  }
}
