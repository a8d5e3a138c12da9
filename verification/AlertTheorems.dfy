/** End-to-end alert properties of the flushes in a run: which alerts a flush carries, and which
    flows accompany them. */
module AlertTheorems {
  import opened Machine
  import opened Packets
  import opened TrafficStats
  import opened PacketWindows
  import opened GroupBy
  import opened FlowTables
  import opened ScanDetector
  import opened ScanTheorems
  import opened AnomalyDetector
  import opened Telemetry
  import opened CaptureLoop
  import opened CaptureRuns

  /** The packets offered to the flow table in the period that ends with packet `i`. */
  function Period(xs: seq<Sighting>, t0: int, i: nat): (f: seq<ParsedPacket>)
    requires i < |xs|
    ensures |f| == i + 1 - PeriodStart(xs, t0, i)
  {
    PacketsFrom(xs, PeriodStart(xs, t0, i), i + 1)
  }

  /** The rolling window when packet `i` has been pushed. */
  function Rolling(xs: seq<Sighting>, i: nat): (w: seq<PktRecord>)
    requires i < |xs|
    ensures |w| <= PACKET_WINDOW_CAPACITY
  {
    WindowSize(Records(xs), i + 1, PACKET_WINDOW_CAPACITY);
    PacketWindows.Run(Records(xs), i + 1, PACKET_WINDOW_CAPACITY)
  }

  function FlushEntries(xs: seq<Sighting>, t0: int, i: nat): seq<FlowEntry>
    requires i < |xs|
  {
    Entries(Period(xs, t0, i), FLOW_TABLE_CAPACITY)
  }

  /** The alerts and flows of the flush triggered by packet `i`. */
  function FlushRaised(xs: seq<Sighting>, t0: int, i: nat): Raised
    requires i < |xs|
  {
    NoWrap(Rolling(xs, i));
    Raise(Totals(Rolling(xs, i)), xs[i].thresholds, FlushEntries(xs, t0, i))
  }

  lemma RunStep(start: State, xs: seq<Sighting>, i: nat)
    requires i < |xs|
    ensures CaptureRuns.Run(start, xs, i + 1) == Process(CaptureRuns.Run(start, xs, i), xs[i])
  {
    assert Body()(CaptureRuns.Run(start, xs, i), xs[i]) == Process(CaptureRuns.Run(start, xs, i), xs[i]);
  }

  lemma PeriodSnoc(xs: seq<Sighting>, p: nat, i: nat)
    requires p <= i < |xs|
    ensures PacketsFrom(xs, p, i + 1) == PacketsFrom(xs, p, i) + [xs[i].packet]
  {
  }

  // ----- Threshold alerts carry flows -----

  /** A second packet of a protocol in the rolling window belongs to the flow period. */
  lemma SecondPacketInPeriod(xs: seq<Sighting>, t0: int, i: nat, protocol: u8) returns (p: ParsedPacket)
    requires i < |xs| && ClockForward(xs, t0) && FlushAt(xs, t0, i)
    requires protocol == PROTO_TCP || protocol == PROTO_UDP
    requires var t := Totals(Rolling(xs, i));
      (if protocol == PROTO_TCP then t.tcpPackets else t.udpPackets) >= 2
    ensures p in Period(xs, t0, i) && p.protocol == protocol
  {
    var k := SecondOfProtocol(Rolling(xs, i), protocol);
    var m := RollingIndex(xs, t0, i, k);
    p := xs[m].packet;
    PeriodMember(xs, t0, i, m);
  }

  lemma PeriodMember(xs: seq<Sighting>, t0: int, i: nat, m: nat)
    requires i < |xs| && PeriodStart(xs, t0, i) <= m <= i
    ensures xs[m].packet in Period(xs, t0, i)
  {
    assert Period(xs, t0, i)[m - PeriodStart(xs, t0, i)] == xs[m].packet;
  }

  /** All but the first record of the rolling window stem from packets of the flow period. */
  lemma RollingIndex(xs: seq<Sighting>, t0: int, i: nat, k: nat) returns (m: nat)
    requires i < |xs| && ClockForward(xs, t0) && FlushAt(xs, t0, i) && 0 < k < |Rolling(xs, i)|
    ensures PeriodStart(xs, t0, i) <= m <= i && Rolling(xs, i)[k].protocol == xs[m].packet.protocol
  {
    m := PacketWindows.Start(Records(xs), i + 1, PACKET_WINDOW_CAPACITY) + k;
    RollingRecord(xs, i, k, m);
    RecordsProtocol(xs, m);
    SnapshotReach(xs, t0, i);
  }

  lemma RollingRecord(xs: seq<Sighting>, i: nat, k: nat, m: nat)
    requires i < |xs| && k < |Rolling(xs, i)|
    requires m == PacketWindows.Start(Records(xs), i + 1, PACKET_WINDOW_CAPACITY) + k
    ensures m <= i && Rolling(xs, i)[k] == Records(xs)[m]
  {
    WindowAt(Records(xs), i + 1, PACKET_WINDOW_CAPACITY, Rolling(xs, i), k, m);
  }

  lemma RecordsProtocol(xs: seq<Sighting>, m: nat)
    requires m < |xs|
    ensures Records(xs)[m].protocol == xs[m].packet.protocol
  {
  }

  lemma SecondOfProtocol(w: seq<PktRecord>, protocol: u8) returns (k: nat)
    requires protocol == PROTO_TCP || protocol == PROTO_UDP
    requires var t := Totals(w); (if protocol == PROTO_TCP then t.tcpPackets else t.udpPackets) >= 2
    ensures 0 < k < |w| && w[k].protocol == protocol
  {
    assert |w| > 0;
    CounterWitness(w[1..], protocol);
    var m :| 0 <= m < |w[1..]| && w[1..][m].protocol == protocol;
    k := m + 1;
  }

  lemma ProtocolHasTop(entries: seq<FlowEntry>, protocol: u8, e: FlowEntry)
    requires e in entries && OfProtocol(e, protocol)
    ensures var top := TopOf(entries, protocol, |entries|);
      top.Some? && top.value in entries && OfProtocol(top.value, protocol)
  {
    TopIsBusiest(entries, protocol);
    var i :| 0 <= i < |entries| && entries[i] == e;
    assert OfProtocol(entries[i], protocol);
  }

  /** Flow `a` of a flush is present and of the protocol its alert names. */
  ghost predicate CarriesFlow(xs: seq<Sighting>, t0: int, i: nat, a: nat)
    requires i < |xs| && a < |FlushRaised(xs, t0, i).alerts| == |FlushRaised(xs, t0, i).flows|
  {
    var r := FlushRaised(xs, t0, i);
    r.flows[a].Some? && OfProtocol(r.flows[a].value, ProtocolForAlert(r.alerts[a].protocol))
  }

  lemma RaisedShape(stats: Stats, thresholds: ThresholdReads, entries: seq<FlowEntry>)
    requires Fits(stats)
    ensures var r, alerts := Raise(stats, thresholds, entries), Alerts(stats, thresholds);
      |r.alerts| == |r.flows| && |alerts| <= |r.alerts| <= ANOMALY_MAX_ALERTS &&
      (forall a :: 0 <= a < |alerts| ==> r.alerts[a] == alerts[a] && r.flows[a] == FlowFor(alerts[a], entries)) &&
      (|r.alerts| > |alerts| <==> FindScan(entries).fanout >= PORT_SCAN_MIN_ENDPOINTS) &&
      (|r.alerts| > |alerts| ==> (
        |r.alerts| == |alerts| + 1 && r.alerts[|alerts|] == ScanAlert(FindScan(entries)) &&
        r.flows[|alerts|] == Some(ScanFlow(FindScan(entries)))))
  {
  }

  /** The read of the threshold behind a UDP or TCP alert was not torn. */
  predicate UntornFor(a: Alert, r: ThresholdReads) {
    (a.kind == UdpFloodSuspected ==> !Torn(r.udp)) && (a.kind == TcpSpikeSuspected ==> !Torn(r.tcp))
  }

  /** Alert `a` of a flush is a volume alert, or was raised without overflow and with an untorn
      threshold. */
  ghost predicate FlowExpected(xs: seq<Sighting>, t0: int, i: nat, a: nat)
    requires i < |xs|
  {
    var r := FlushRaised(xs, t0, i);
    ClockForward(xs, t0) && FlushAt(xs, t0, i) && a < |r.alerts| == |r.flows| &&
    (r.alerts[a].kind == HighTrafficVolume ||
     (!FlowsOverflowed(Period(xs, t0, i), FLOW_TABLE_CAPACITY) && UntornFor(r.alerts[a], xs[i].thresholds)))
  }

  /** Every such alert carries a flow of its protocol. */
  lemma AlertsCarryFlows(xs: seq<Sighting>, t0: int, i: nat, a: nat)
    requires i < |xs|
    ensures FlowExpected(xs, t0, i, a) ==> CarriesFlow(xs, t0, i, a)
  {
    if FlowExpected(xs, t0, i, a) {
      FlowCarried(xs, t0, i, a);
    }
  }

  lemma FlowCarried(xs: seq<Sighting>, t0: int, i: nat, a: nat)
    requires i < |xs| && FlowExpected(xs, t0, i, a)
    ensures CarriesFlow(xs, t0, i, a)
  {
    var stats, entries := Totals(Rolling(xs, i)), FlushEntries(xs, t0, i);
    NoWrap(Rolling(xs, i));
    RaisedShape(stats, xs[i].thresholds, entries);
    var alerts := Alerts(stats, xs[i].thresholds);
    var alert := FlushRaised(xs, t0, i).alerts[a];
    if a < |alerts| {
      AlertsMeaning(stats, xs[i].thresholds, alerts[a]);
      var protocol := ProtocolForAlert(alert.protocol);
      if alert.kind == HighTrafficVolume {
        PeriodHasEntry(xs, t0, i);
        ProtocolHasTop(entries, protocol, entries[0]);
      } else {
        var p := SecondPacketInPeriod(xs, t0, i, protocol);
        EveryPacketHasEntry(Period(xs, t0, i), FLOW_TABLE_CAPACITY, p);
        var e :| e in entries && e.key == KeyOf(p);
        ProtocolHasTop(entries, protocol, e);
      }
    }
  }

  /** Some packet offered is of the protocol (0 stands for any) and its flow was admitted. */
  predicate FlowAdmitted(offered: seq<ParsedPacket>, protocol: u8) {
    exists p :: p in offered && (protocol == 0 || p.protocol == protocol) &&
      KeyOf(p) in Admitted(ItemsOf(offered), FLOW_TABLE_CAPACITY)
  }

  /** The table holds an entry of the protocol exactly then. */
  lemma AdmittedIsEntry(offered: seq<ParsedPacket>, entries: seq<FlowEntry>, protocol: u8)
    requires entries == Entries(offered, FLOW_TABLE_CAPACITY)
    ensures (exists k :: 0 <= k < |entries| && OfProtocol(entries[k], protocol)) <==> FlowAdmitted(offered, protocol)
  {
    var keys := Admitted(ItemsOf(offered), FLOW_TABLE_CAPACITY);
    assert forall k :: 0 <= k < |entries| ==> entries[k].key == keys[k];
    if FlowAdmitted(offered, protocol) {
      var p :| p in offered && (protocol == 0 || p.protocol == protocol) && KeyOf(p) in keys;
      var k :| 0 <= k < |keys| && keys[k] == KeyOf(p);
      assert OfProtocol(entries[k], protocol);
    }
    if exists k :: 0 <= k < |entries| && OfProtocol(entries[k], protocol) {
      var k :| 0 <= k < |entries| && OfProtocol(entries[k], protocol);
      EntriesAreTallies(offered, FLOW_TABLE_CAPACITY);
      var m :| 0 <= m < |offered| && KeyOf(offered[m]) == entries[k].key;
      assert offered[m] in offered && KeyOf(offered[m]) == keys[k];
    }
  }

  lemma AdmittedHasTop(offered: seq<ParsedPacket>, protocol: u8)
    ensures var entries := Entries(offered, FLOW_TABLE_CAPACITY);
      var top := TopOf(entries, protocol, |entries|);
      (top.Some? <==> FlowAdmitted(offered, protocol)) && (top.Some? ==> OfProtocol(top.value, protocol))
  {
    var entries := Entries(offered, FLOW_TABLE_CAPACITY);
    TopIsBusiest(entries, protocol);
    AdmittedIsEntry(offered, entries, protocol);
  }

  /** For every flush and alert, with no assumption at all: the alert carries a matching flow exactly
      when it is a scan alert or some packet of the period, of the alert's protocol, got its flow into
      the table. */
  lemma FlowCarriedIff(xs: seq<Sighting>, t0: int, i: nat, a: nat)
    requires i < |xs|
    ensures var r := FlushRaised(xs, t0, i);
      |r.alerts| == |r.flows| &&
      (a < |r.alerts| ==>
        (CarriesFlow(xs, t0, i, a) <==>
          r.alerts[a].kind == PortScanSuspected ||
          FlowAdmitted(Period(xs, t0, i), ProtocolForAlert(r.alerts[a].protocol))))
  {
    var stats, entries := Totals(Rolling(xs, i)), FlushEntries(xs, t0, i);
    NoWrap(Rolling(xs, i));
    RaisedShape(stats, xs[i].thresholds, entries);
    var alerts := Alerts(stats, xs[i].thresholds);
    if a < |alerts| {
      AlertsMeaning(stats, xs[i].thresholds, alerts[a]);
      AdmittedHasTop(Period(xs, t0, i), ProtocolForAlert(alerts[a].protocol));
    }
  }

  /** The flushing packet was just offered, so the table is never empty at a flush. */
  lemma PeriodHasEntry(xs: seq<Sighting>, t0: int, i: nat)
    requires i < |xs|
    ensures |FlushEntries(xs, t0, i)| > 0
  {
    var h := ItemsOf(Period(xs, t0, i));
    FirstsComplete(h, |h|, h[|h| - 1].key);
  }

  // ----- Scans -----

  /** There is a scan alert that tells of at least so many endpoints. */
  predicate HasScanAlert(alerts: seq<Alert>, endpoints: nat) {
    exists a :: 0 <= a < |alerts| && alerts[a].kind == PortScanSuspected && alerts[a].packetCount >= endpoints
  }

  /** Detection: twelve distinct ports of one host reached by one source in a period without
      overflow always raise a scan alert at the flush, for no fewer endpoints than those ports. */
  lemma ScanDetected(xs: seq<Sighting>, t0: int, i: nat, src: string, dst: string)
    requires i < |xs| && !FlowsOverflowed(Period(xs, t0, i), FLOW_TABLE_CAPACITY)
    requires |PortsReached(Period(xs, t0, i), src, dst)| >= 12
    ensures HasScanAlert(FlushRaised(xs, t0, i).alerts, |PortsReached(Period(xs, t0, i), src, dst)|)
  {
    var entries := FlushEntries(xs, t0, i);
    NoWrap(Rolling(xs, i));
    RaisedShape(Totals(Rolling(xs, i)), xs[i].thresholds, entries);
    PortsReachedInTable(Period(xs, t0, i), FLOW_TABLE_CAPACITY, src, dst);
    PortsWithin(entries, src, dst);
    FanoutBounded(entries);
    var r, n := FlushRaised(xs, t0, i), |Alerts(Totals(Rolling(xs, i)), xs[i].thresholds)|;
    assert r.alerts[n].kind == PortScanSuspected;
  }

  /** The distinct endpoints `src` sent packets to. */
  function EndpointsReached(offered: seq<ParsedPacket>, src: string): set<(string, u16)> {
    set p | p in offered && p.srcIp == src :: (p.dstIp, p.dstPort)
  }

  lemma EndpointsWereReached(offered: seq<ParsedPacket>, capacity: nat, src: string)
    ensures |Endpoints(Entries(offered, capacity), src)| <= |EndpointsReached(offered, src)|
  {
    var e := Entries(offered, capacity);
    EntriesAreTallies(offered, capacity);
    forall ep | ep in Endpoints(e, src) ensures ep in EndpointsReached(offered, src) {
      var x :| x in e && x.key.srcIp == src && (x.key.dstIp, x.key.dstPort) == ep;
      var i :| 0 <= i < |e| && e[i] == x;
      var k :| 0 <= k < |offered| && KeyOf(offered[k]) == e[i].key;
      assert offered[k] in offered;
    }
    SubsetNotLarger(Endpoints(e, src), EndpointsReached(offered, src));
  }

  /** A scan alert with its flow: the flow stands for the scan, its packet count for the fan-out. */
  ghost predicate ScanReported(alert: Alert, flow: Option<FlowEntry>, offered: seq<ParsedPacket>) {
    alert.severity == Medium && alert.protocol == "TCP" && alert.bytesCount == 0 &&
    flow.Some? &&
    var key := flow.value.key;
    flow.value == FlowEntry(FlowKey(key.srcIp, key.dstIp, 0, 0, 6), 0, 0) &&
    12 <= alert.packetCount <= |EndpointsReached(offered, key.srcIp)| &&
    exists p :: p in offered && p.srcIp == key.srcIp && p.dstIp == key.dstIp
  }

  /** Justification: every scan alert names a source that reached at least as many distinct endpoints in
      the period as it says, twelve or more, and a destination that source really sent to, overflow or
      not. */
  lemma ScanJustified(xs: seq<Sighting>, t0: int, i: nat, a: nat)
    requires i < |xs| && a < |FlushRaised(xs, t0, i).alerts| == |FlushRaised(xs, t0, i).flows|
    requires FlushRaised(xs, t0, i).alerts[a].kind == PortScanSuspected
    ensures ScanReported(FlushRaised(xs, t0, i).alerts[a], FlushRaised(xs, t0, i).flows[a], Period(xs, t0, i))
  {
    var stats := Totals(Rolling(xs, i));
    NoWrap(Rolling(xs, i));
    RaisedShape(stats, xs[i].thresholds, FlushEntries(xs, t0, i));
    var alerts := Alerts(stats, xs[i].thresholds);
    if a < |alerts| {
      AlertsMeaning(stats, xs[i].thresholds, alerts[a]);
    }
    TableScanJustified(Period(xs, t0, i), FLOW_TABLE_CAPACITY);
  }

  lemma TableScanJustified(offered: seq<ParsedPacket>, capacity: nat)
    requires FindScan(Entries(offered, capacity)).fanout > 0
    ensures var scan := FindScan(Entries(offered, capacity));
      |EndpointsReached(offered, scan.src)| >= scan.fanout && scan.fanout <= capacity &&
      exists p :: p in offered && p.srcIp == scan.src && p.dstIp == scan.dst
  {
    var entries := Entries(offered, capacity);
    var scan := FindScan(entries);
    ScanMeaning(entries);
    FanoutBounded(entries);
    EndpointsWereReached(offered, capacity, scan.src);
    EntriesAreTallies(offered, capacity);
    var j :| 0 <= j < |entries| && entries[j].key.srcIp == scan.src && entries[j].key.dstIp == scan.dst;
    var k :| 0 <= k < |offered| && KeyOf(offered[k]) == entries[j].key;
    assert offered[k] in offered;
  }
}
