/** The other ways an alert can go out without the busiest flow, with a threshold read that was not
    torn: the flow table is full before the first packet of the alert's protocol arrives, or after its
    first flow and before its busiest. */
module OverflowedFlows {
  import opened Machine
  import opened Packets
  import opened TrafficStats
  import opened PacketWindows
  import opened GroupBy
  import opened ScanTheorems
  import opened FlowTables
  import opened AnomalyDetector
  import opened Telemetry
  import opened CaptureLoop
  import opened CaptureRuns
  import opened AlertTheorems
  import opened BusiestFlows
  import opened TornThresholds

  const COUNT: nat := 2051

  /** The UDP threshold is 1 throughout. */
  const ONE := ThresholdReads(Reads(1, 1, None), UNSET, UNSET)

  /** 2047 TCP packets from different ports; one more packet from another port, UDP if `early` and TCP
      if not; then three UDP packets from port 5000, the last after five seconds. */
  function ProtocolAt(early: bool, i: nat): u8 {
    if i < FLOW_TABLE_CAPACITY - 1 || (i == FLOW_TABLE_CAPACITY - 1 && !early) then PROTO_TCP else PROTO_UDP
  }

  function PortAt(i: nat): u16 { if i < FLOW_TABLE_CAPACITY then i else 5000 }
  function TimeAt(i: nat): int { if i < COUNT - 1 then 0 else 5 }

  function PacketAt(early: bool, i: nat): ParsedPacket {
    PacketOf(ProtocolAt(early, i), PortAt(i))
  }

  function CrowdedFrames(early: bool): (h: seq<Arrival>)
    ensures |h| == COUNT
  {
    seq(COUNT, i requires 0 <= i < COUNT => Arrival(FrameOf(ProtocolAt(early, i), PortAt(i)), TimeAt(i), ONE, []))
  }

  function Crowded(early: bool): (xs: seq<Sighting>)
    ensures |xs| == COUNT
    ensures forall i :: 0 <= i < COUNT ==> xs[i] == Sighting(PacketAt(early, i), TimeAt(i), ONE, [])
  {
    seq(COUNT, i requires 0 <= i < COUNT => Sighting(PacketAt(early, i), TimeAt(i), ONE, []))
  }

  lemma CrowdedFromFrames(early: bool)
    ensures FromFrames(FilterBoth, CrowdedFrames(early), Crowded(early))
  {
    var h, xs := CrowdedFrames(early), Crowded(early);
    forall i | 0 <= i < COUNT ensures Accept(FilterBoth, h[i]) == Some(xs[i]) {
      FrameAccepted(ProtocolAt(early, i), PortAt(i), TimeAt(i), ONE);
    }
  }

  lemma {:induction false} NoEarlierFlush(early: bool, n: nat)
    requires n < COUNT
    ensures WindowStart(Crowded(early), 0, n) == 0 && PeriodStart(Crowded(early), 0, n) == 0
    decreases n
  {
    if n > 0 {
      NoEarlierFlush(early, n - 1);
    }
  }

  lemma LastFlushes(early: bool)
    ensures var xs := Crowded(early);
      ClockForward(xs, 0) && FlushAt(xs, 0, COUNT - 1) && PeriodStart(xs, 0, COUNT - 1) == 0
  {
    NoEarlierFlush(early, COUNT - 1);
  }

  // ----- The first 2048 flows fill the table -----

  function Offered(early: bool): (f: seq<ParsedPacket>)
    ensures |f| == COUNT && forall i :: 0 <= i < COUNT ==> f[i] == PacketAt(early, i)
  {
    seq(COUNT, i requires 0 <= i < COUNT => PacketAt(early, i))
  }

  lemma PeriodIsAll(early: bool)
    ensures Period(Crowded(early), 0, COUNT - 1) == Offered(early)
  {
    LastFlushes(early);
  }

  /** Distinct keys are all listed, in order. */
  lemma {:induction false} DistinctFirsts<K>(h: seq<Item<K>>, n: nat)
    requires n <= |h| && forall i, j :: 0 <= i < j < n ==> h[i].key != h[j].key
    ensures |Firsts(h, n)| == n && forall i :: 0 <= i < n ==> Firsts(h, n)[i] == h[i].key
  {
    if n > 0 {
      DistinctFirsts(h, n - 1);
    }
  }

  lemma {:induction false} FirstsGrow<K>(h: seq<Item<K>>, n: nat, m: nat)
    requires n <= m <= |h|
    ensures Firsts(h, n) <= Firsts(h, m)
  {
    if n < m {
      FirstsGrow(h, n, m - 1);
    }
  }

  lemma FirstFlowsAdmitted(early: bool)
    ensures var a := Admitted(ItemsOf(Offered(early)), FLOW_TABLE_CAPACITY);
      |a| == FLOW_TABLE_CAPACITY && forall i :: 0 <= i < |a| ==> a[i] == KeyOf(PacketAt(early, i))
  {
    var h := ItemsOf(Offered(early));
    DistinctFirsts(h, FLOW_TABLE_CAPACITY);
    FirstsGrow(h, FLOW_TABLE_CAPACITY, COUNT);
    var a := Admitted(h, FLOW_TABLE_CAPACITY);
    assert forall i :: 0 <= i < FLOW_TABLE_CAPACITY ==> a[i] == Firsts(h, FLOW_TABLE_CAPACITY)[i] == h[i].key;
  }

  lemma OnlyTcpAdmitted()
    ensures !FlowAdmitted(Offered(false), PROTO_UDP)
  {
    FirstFlowsAdmitted(false);
  }

  // ----- The alert is raised -----

  lemma AllRetained(early: bool)
    ensures Rolling(Crowded(early), COUNT - 1) == Records(Crowded(early))
  {
    var xs := Crowded(early);
    LastFlushes(early);
    SnapshotMeaning(xs, 0, 0, COUNT - 1);
    WindowIsSuffix(Records(xs), COUNT, PACKET_WINDOW_CAPACITY);
    assert Records(xs)[0..COUNT] == Records(xs);
  }

  lemma TwoMoreUdp(rest: seq<PktRecord>, x: PktRecord, y: PktRecord)
    requires x.protocol == PROTO_UDP && y.protocol == PROTO_UDP
    ensures Totals((rest + [x]) + [y]).udpPackets >= 2
  {
    TotalsSnoc(rest, x);
    TotalsSnoc(rest + [x], y);
    TotalsBounded(rest);
  }

  lemma LastTwo<T>(s: seq<T>)
    requires |s| >= 2
    ensures s == (s[..|s| - 2] + [s[|s| - 2]]) + [s[|s| - 1]]
  {
  }

  lemma TwoUdpCounted(early: bool)
    ensures Totals(Rolling(Crowded(early), COUNT - 1)).udpPackets >= 2
  {
    var w := Records(Crowded(early));
    AllRetained(early);
    LastTwo(w);
    TwoMoreUdp(w[..COUNT - 2], w[COUNT - 2], w[COUNT - 1]);
  }

  lemma UdpAlertFirst(stats: Stats, entries: seq<FlowEntry>)
    requires Fits(stats) && stats.udpPackets >= 2
    ensures var r := Raise(stats, ONE, entries);
      |r.alerts| == |r.flows| > 0 && r.alerts[0].kind == UdpFloodSuspected &&
      ProtocolForAlert(r.alerts[0].protocol) == PROTO_UDP && r.flows[0] == TopOf(entries, PROTO_UDP, |entries|)
  {
    RaisedShape(stats, ONE, entries);
    var alerts := Alerts(stats, ONE);
    assert alerts[0].kind == UdpFloodSuspected && ProtocolForAlert(alerts[0].protocol) == PROTO_UDP;
  }

  lemma FirstAlert(early: bool)
    ensures var r := FlushRaised(Crowded(early), 0, COUNT - 1);
      var entries := Entries(Offered(early), FLOW_TABLE_CAPACITY);
      |r.alerts| == |r.flows| > 0 && r.alerts[0].kind == UdpFloodSuspected &&
      ProtocolForAlert(r.alerts[0].protocol) == PROTO_UDP && r.flows[0] == TopOf(entries, PROTO_UDP, |entries|)
  {
    var xs, i: nat := Crowded(early), COUNT - 1;
    TwoUdpCounted(early);
    PeriodIsAll(early);
    NoWrap(Rolling(xs, i));
    UdpAlertFirst(Totals(Rolling(xs, i)), FlushEntries(xs, 0, i));
  }

  /** The run is one over frames, with a clock that goes forward, its last packet flushes, and its
      threshold reads need no update while it lasts. */
  lemma CrowdedRun(early: bool)
    ensures FromFrames(FilterBoth, CrowdedFrames(early), Crowded(early))
    ensures ClockForward(Crowded(early), 0) && FlushAt(Crowded(early), 0, COUNT - 1)
    ensures UpdatesPossible(Crowded(early), 0, 0) && !Torn(Crowded(early)[COUNT - 1].thresholds.udp)
  {
    CrowdedFromFrames(early);
    LastFlushes(early);
    NoUpdates(early);
  }

  lemma NoUpdates(early: bool)
    ensures UpdatesPossible(Crowded(early), 0, 0)
  {
    var xs := Crowded(early);
    forall word ensures Readable(xs, 0, 0, ReadsOf(xs, word)) {
      ConstantReadable(xs, 0, 0, ReadsOf(xs, word), ReadOfWord(word, ONE).tested);
    }
  }

  /** Without an early UDP packet its first alert goes out without any flow. */
  lemma OverflowLosesFlow()
    ensures var r := FlushRaised(Crowded(false), 0, COUNT - 1);
      |r.alerts| == |r.flows| > 0 && r.alerts[0].kind == UdpFloodSuspected && r.flows[0] == None
  {
    FirstAlert(false);
    OnlyTcpAdmitted();
    AdmittedHasTop(Offered(false), PROTO_UDP);
  }

  // ----- With an early one it carries that packet's flow -----

  lemma {:induction false} NoHits<K>(h: seq<Item<K>>, n: nat, key: K)
    requires n <= |h| && forall i :: 0 <= i < n ==> h[i].key != key
    ensures Hits(h, n, key) == 0
  {
    if n > 0 {
      NoHits(h, n - 1, key);
    }
  }

  /** The early flow, and the busiest one of the period. */
  const EARLY: FlowKey := KeyOf(PacketOf(PROTO_UDP, 2047))
  const LATE: FlowKey := KeyOf(PacketOf(PROTO_UDP, 5000))

  lemma OneEarlyThreeLate()
    ensures Sent(Offered(true), EARLY) == 1 && Sent(Offered(true), LATE) == 3
  {
    var h := ItemsOf(Offered(true));
    SentIsHits(Offered(true), COUNT, EARLY);
    SentIsHits(Offered(true), COUNT, LATE);
    NoHits(h, 2047, EARLY);
    NoHits(h, 2048, LATE);
    assert Hits(h, 2048, EARLY) == 1;
    assert h[2048].key == LATE && h[2049].key == LATE && h[2050].key == LATE;
    assert Hits(h, 2049, EARLY) == 1 && Hits(h, 2049, LATE) == 1;
    assert Hits(h, 2050, EARLY) == 1 && Hits(h, 2050, LATE) == 2;
  }

  lemma EarlyIsTop()
    ensures var entries := Entries(Offered(true), FLOW_TABLE_CAPACITY);
      TopOf(entries, PROTO_UDP, |entries|) == Some(FlowEntry(EARLY, 1, 38))
  {
    var offered := Offered(true);
    var entries := Entries(offered, FLOW_TABLE_CAPACITY);
    var top := TopOf(entries, PROTO_UDP, |entries|);
    EarlyAdmitted();
    AdmittedHasTop(offered, PROTO_UDP);
    TopIsBusiest(entries, PROTO_UDP);
    var k :| 0 <= k < |entries| && IsTopAt(entries, PROTO_UDP, k) && entries[k] == top.value;
    EntryIsEarly(k);
  }

  lemma EarlyAdmitted()
    ensures FlowAdmitted(Offered(true), PROTO_UDP)
  {
    FirstFlowsAdmitted(true);
    var offered := Offered(true);
    var a := Admitted(ItemsOf(offered), FLOW_TABLE_CAPACITY);
    assert a[2047] == KeyOf(offered[2047]) && offered[2047] in offered && offered[2047].protocol == PROTO_UDP;
  }

  lemma {:induction false} VolumeOfHits(offered: seq<ParsedPacket>, n: nat, key: FlowKey)
    requires n <= |offered| && forall i :: 0 <= i < |offered| ==> offered[i].packetSize == 38
    ensures Volume(ItemsOf(offered), n, key) == 38 * Hits(ItemsOf(offered), n, key)
  {
    if n > 0 {
      VolumeOfHits(offered, n - 1, key);
    }
  }

  /** The only UDP entry is the early one. */
  lemma EntryIsEarly(k: nat)
    requires var entries := Entries(Offered(true), FLOW_TABLE_CAPACITY);
      k < |entries| && entries[k].key.protocol == PROTO_UDP
    ensures Entries(Offered(true), FLOW_TABLE_CAPACITY)[k] == FlowEntry(EARLY, 1, 38)
  {
    var offered := Offered(true);
    var entries := Entries(offered, FLOW_TABLE_CAPACITY);
    FirstFlowsAdmitted(true);
    assert entries[k].key == Admitted(ItemsOf(offered), FLOW_TABLE_CAPACITY)[k] == KeyOf(PacketAt(true, k));
    EntriesAreTallies(offered, FLOW_TABLE_CAPACITY);
    OneEarlyThreeLate();
    SentIsHits(offered, |offered|, EARLY);
    VolumeOfHits(offered, |offered|, EARLY);
  }

  /** Its first alert carries a flow of one packet, while another of the period has three. */
  lemma OverflowLosesBusiest()
    ensures var r := FlushRaised(Crowded(true), 0, COUNT - 1);
      |r.alerts| == |r.flows| > 0 && r.alerts[0].kind == UdpFloodSuspected &&
      r.flows[0] == Some(FlowEntry(EARLY, 1, 38))
    ensures Sent(Period(Crowded(true), 0, COUNT - 1), LATE) == 3
    ensures CarriesFlow(Crowded(true), 0, COUNT - 1, 0) && !CarriesBusiest(Crowded(true), 0, COUNT - 1, 0)
  {
    FirstAlert(true);
    EarlyIsTop();
    PeriodIsAll(true);
    OneEarlyThreeLate();
    NotBusiest();
  }

  lemma NotBusiest()
    ensures !Busiest(Offered(true), PROTO_UDP, EARLY)
  {
    OneEarlyThreeLate();
    var offered := Offered(true);
    assert offered[2050] in offered && KeyOf(offered[2050]) == LATE && Matches(offered[2050], PROTO_UDP);
  }
}
