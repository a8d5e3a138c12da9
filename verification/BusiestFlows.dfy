/** When an alert goes out with the busiest flow: the flow of its protocol with the most packets of the
    whole period, not merely of the table. */
module BusiestFlows {
  import opened Machine
  import opened Packets
  import opened TrafficStats
  import opened GroupBy
  import opened FlowTables
  import opened ScanTheorems
  import opened AnomalyDetector
  import opened Telemetry
  import opened CaptureLoop
  import opened CaptureRuns
  import opened AlertTheorems

  predicate InFlow(p: ParsedPacket, key: FlowKey) {
    p.srcIp == key.srcIp && p.dstIp == key.dstIp && p.srcPort == key.srcPort && p.dstPort == key.dstPort &&
    p.protocol == key.protocol
  }

  /** How many of the first `n` packets offered belong to a flow, and their sizes added up. */
  function SentIn(offered: seq<ParsedPacket>, n: nat, key: FlowKey): nat
    requires n <= |offered|
  {
    if n == 0 then 0 else SentIn(offered, n - 1, key) + (if InFlow(offered[n - 1], key) then 1 else 0)
  }

  function BytesIn(offered: seq<ParsedPacket>, n: nat, key: FlowKey): nat
    requires n <= |offered|
  {
    if n == 0 then 0
    else BytesIn(offered, n - 1, key) + (if InFlow(offered[n - 1], key) then offered[n - 1].packetSize else 0)
  }

  function Sent(offered: seq<ParsedPacket>, key: FlowKey): nat {
    SentIn(offered, |offered|, key)
  }

  lemma {:induction false} SentIsHits(offered: seq<ParsedPacket>, n: nat, key: FlowKey)
    requires n <= |offered|
    ensures Hits(ItemsOf(offered), n, key) == SentIn(offered, n, key) <= n
    ensures Volume(ItemsOf(offered), n, key) == BytesIn(offered, n, key)
  {
    if n > 0 {
      SentIsHits(offered, n - 1, key);
    }
  }

  predicate Matches(p: ParsedPacket, protocol: u8) {
    protocol == 0 || p.protocol == protocol
  }

  /** The flow occurred, is of the protocol (0 stands for any), and no flow of the protocol has more
      packets. */
  predicate Busiest(offered: seq<ParsedPacket>, protocol: u8, key: FlowKey) {
    (protocol == 0 || key.protocol == protocol) && Sent(offered, key) > 0 &&
    forall p :: p in offered && Matches(p, protocol) ==> Sent(offered, KeyOf(p)) <= Sent(offered, key)
  }

  /** Some busiest flow of the protocol is among the first 2048 flows of the period. */
  predicate BusiestAdmitted(offered: seq<ParsedPacket>, protocol: u8) {
    exists p :: p in offered && KeyOf(p) in Admitted(ItemsOf(offered), FLOW_TABLE_CAPACITY) &&
      Busiest(offered, protocol, KeyOf(p))
  }

  /** A reported flow is a busiest one, with its exact packet count and its bytes as a 64-bit word. */
  predicate IsBusiest(flow: Option<FlowEntry>, offered: seq<ParsedPacket>, protocol: u8) {
    flow.Some? && Busiest(offered, protocol, flow.value.key) &&
    flow.value.packets == Sent(offered, flow.value.key) &&
    flow.value.bytes == BytesIn(offered, |offered|, flow.value.key) % 0x1_0000_0000_0000_0000
  }

  // ----- The table's busiest entry and the period's busiest flow -----

  /** An entry holds its flow's exact count, and stands for a packet that was offered. */
  lemma EntryCounts(offered: seq<ParsedPacket>, entries: seq<FlowEntry>, k: nat) returns (p: ParsedPacket)
    requires |offered| < TWO64 && entries == Entries(offered, FLOW_TABLE_CAPACITY) && k < |entries|
    ensures entries[k].packets == Sent(offered, entries[k].key) > 0
    ensures entries[k].bytes == Wrap64(BytesIn(offered, |offered|, entries[k].key))
    ensures p in offered && KeyOf(p) == entries[k].key
    ensures entries[k].key in Admitted(ItemsOf(offered), FLOW_TABLE_CAPACITY)
  {
    var h := ItemsOf(offered);
    EntriesAreTallies(offered, FLOW_TABLE_CAPACITY);
    SentIsHits(offered, |offered|, entries[k].key);
    FirstsComplete(h, |h|, entries[k].key);
    var m :| 0 <= m < |offered| && KeyOf(offered[m]) == entries[k].key;
    p := offered[m];
    assert h[m].key == entries[k].key;
    assert Admitted(h, FLOW_TABLE_CAPACITY)[k] == entries[k].key;
  }

  lemma AdmittedEntry(offered: seq<ParsedPacket>, entries: seq<FlowEntry>, key: FlowKey) returns (k: nat)
    requires entries == Entries(offered, FLOW_TABLE_CAPACITY)
    requires key in Admitted(ItemsOf(offered), FLOW_TABLE_CAPACITY)
    ensures k < |entries| && entries[k].key == key
  {
    var keys := Admitted(ItemsOf(offered), FLOW_TABLE_CAPACITY);
    k :| 0 <= k < |keys| && keys[k] == key;
  }

  /** The table's top entry is the period's busiest flow exactly when a busiest flow was admitted. */
  lemma TopBusiestIff(offered: seq<ParsedPacket>, protocol: u8)
    requires |offered| < TWO64
    ensures var entries := Entries(offered, FLOW_TABLE_CAPACITY);
      IsBusiest(TopOf(entries, protocol, |entries|), offered, protocol) <==> BusiestAdmitted(offered, protocol)
  {
    var entries := Entries(offered, FLOW_TABLE_CAPACITY);
    var top := TopOf(entries, protocol, |entries|);
    TopIsBusiest(entries, protocol);
    if BusiestAdmitted(offered, protocol) {
      TopIsBusiestOfPeriod(offered, entries, protocol, top);
    }
    if IsBusiest(top, offered, protocol) {
      var k :| 0 <= k < |entries| && IsTopAt(entries, protocol, k) && entries[k] == top.value;
      var p := EntryCounts(offered, entries, k);
      assert KeyOf(p) in Admitted(ItemsOf(offered), FLOW_TABLE_CAPACITY);
    }
  }

  lemma TopIsBusiestOfPeriod(offered: seq<ParsedPacket>, entries: seq<FlowEntry>, protocol: u8, top: Option<FlowEntry>)
    requires |offered| < TWO64 && entries == Entries(offered, FLOW_TABLE_CAPACITY)
    requires IsTop(entries, protocol, top) && BusiestAdmitted(offered, protocol)
    ensures IsBusiest(top, offered, protocol)
  {
    var p :| p in offered && KeyOf(p) in Admitted(ItemsOf(offered), FLOW_TABLE_CAPACITY) &&
      Busiest(offered, protocol, KeyOf(p));
    var j := AdmittedEntry(offered, entries, KeyOf(p));
    var q := EntryCounts(offered, entries, j);
    assert OfProtocol(entries[j], protocol);
    var k :| 0 <= k < |entries| && IsTopAt(entries, protocol, k) && entries[k] == top.value;
    var r := EntryCounts(offered, entries, k);
    assert Sent(offered, KeyOf(p)) == entries[j].packets <= entries[k].packets == Sent(offered, entries[k].key);
  }

  // ----- Without overflow -----

  /** A busiest packet among the first `n`, if any matches. */
  lemma {:induction false} MostAmong(offered: seq<ParsedPacket>, protocol: u8, n: nat) returns (at: nat)
    requires n <= |offered|
    ensures (exists m :: 0 <= m < n && Matches(offered[m], protocol)) ==>
      at < n && Matches(offered[at], protocol) &&
      forall m :: 0 <= m < n && Matches(offered[m], protocol) ==>
        Sent(offered, KeyOf(offered[m])) <= Sent(offered, KeyOf(offered[at]))
    decreases n
  {
    at := 0;
    if n > 0 {
      at := MostAmong(offered, protocol, n - 1);
      var last := n - 1;
      if Matches(offered[last], protocol) {
        if exists m :: 0 <= m < last && Matches(offered[m], protocol) {
          if Sent(offered, KeyOf(offered[last])) > Sent(offered, KeyOf(offered[at])) {
            at := last;
          }
        } else {
          at := last;
        }
      }
    }
  }

  /** Without overflow a busiest flow is admitted as soon as the protocol occurs. */
  lemma WithoutOverflow(offered: seq<ParsedPacket>, protocol: u8)
    requires |offered| < TWO64 && !FlowsOverflowed(offered, FLOW_TABLE_CAPACITY)
    requires exists p :: p in offered && Matches(p, protocol)
    ensures BusiestAdmitted(offered, protocol)
  {
    var p :| p in offered && Matches(p, protocol);
    var m :| 0 <= m < |offered| && offered[m] == p;
    var at := MostAmong(offered, protocol, |offered|);
    var top := offered[at];
    EveryPacketHasEntry(offered, FLOW_TABLE_CAPACITY, top);
    var entries := Entries(offered, FLOW_TABLE_CAPACITY);
    var e :| e in entries && e.key == KeyOf(top);
    var k :| 0 <= k < |entries| && entries[k] == e;
    var q := EntryCounts(offered, entries, k);
    MaximalIsBusiest(offered, protocol, at);
  }

  lemma MaximalIsBusiest(offered: seq<ParsedPacket>, protocol: u8, at: nat)
    requires at < |offered| && Matches(offered[at], protocol) && Sent(offered, KeyOf(offered[at])) > 0
    requires forall m :: 0 <= m < |offered| && Matches(offered[m], protocol) ==>
      Sent(offered, KeyOf(offered[m])) <= Sent(offered, KeyOf(offered[at]))
    ensures Busiest(offered, protocol, KeyOf(offered[at]))
  {
    forall p | p in offered && Matches(p, protocol)
      ensures Sent(offered, KeyOf(p)) <= Sent(offered, KeyOf(offered[at]))
    {
      var m :| 0 <= m < |offered| && offered[m] == p;
    }
  }

  // ----- Threshold alerts of a flush -----

  /** Alert `a` of a flush is a threshold alert; a scan alert names no real flow. */
  ghost predicate ThresholdAlert(xs: seq<Sighting>, t0: int, i: nat, a: nat)
    requires i < |xs|
  {
    var r := FlushRaised(xs, t0, i);
    a < |r.alerts| == |r.flows| && r.alerts[a].kind != PortScanSuspected
  }

  function AlertProtocol(xs: seq<Sighting>, t0: int, i: nat, a: nat): u8
    requires i < |xs| && ThresholdAlert(xs, t0, i, a)
  {
    ProtocolForAlert(FlushRaised(xs, t0, i).alerts[a].protocol)
  }

  /** It carries the busiest flow of its protocol in the period. */
  ghost predicate CarriesBusiest(xs: seq<Sighting>, t0: int, i: nat, a: nat)
    requires i < |xs| && ThresholdAlert(xs, t0, i, a)
  {
    IsBusiest(FlushRaised(xs, t0, i).flows[a], Period(xs, t0, i), AlertProtocol(xs, t0, i, a))
  }

  lemma ThresholdFlow(xs: seq<Sighting>, t0: int, i: nat, a: nat)
    requires i < |xs| && ThresholdAlert(xs, t0, i, a)
    ensures var entries := FlushEntries(xs, t0, i);
      FlushRaised(xs, t0, i).flows[a] == TopOf(entries, AlertProtocol(xs, t0, i, a), |entries|)
  {
    NoWrap(Rolling(xs, i));
    RaisedShape(Totals(Rolling(xs, i)), xs[i].thresholds, FlushEntries(xs, t0, i));
  }

  /** For every flush of fewer than 2^64 packets and every threshold alert: it carries the busiest
      flow of its protocol exactly when a busiest flow was among the first 2048. */
  lemma BusiestCarriedIff(xs: seq<Sighting>, t0: int, i: nat, a: nat)
    requires i < |xs| && |Period(xs, t0, i)| < TWO64
    ensures ThresholdAlert(xs, t0, i, a) ==>
      (CarriesBusiest(xs, t0, i, a) <==> BusiestAdmitted(Period(xs, t0, i), AlertProtocol(xs, t0, i, a)))
  {
    if ThresholdAlert(xs, t0, i, a) {
      ThresholdFlow(xs, t0, i, a);
      TopBusiestIff(Period(xs, t0, i), AlertProtocol(xs, t0, i, a));
    }
  }

  /** A threshold alert raised without overflow and with an untorn threshold. */
  ghost predicate BusiestExpected(xs: seq<Sighting>, t0: int, i: nat, a: nat)
    requires i < |xs|
  {
    ThresholdAlert(xs, t0, i, a) && ClockForward(xs, t0) && FlushAt(xs, t0, i) &&
    |Period(xs, t0, i)| < TWO64 && !FlowsOverflowed(Period(xs, t0, i), FLOW_TABLE_CAPACITY) &&
    UntornFor(FlushRaised(xs, t0, i).alerts[a], xs[i].thresholds)
  }

  /** Every such alert carries the busiest flow. */
  lemma AlertsCarryBusiest(xs: seq<Sighting>, t0: int, i: nat, a: nat)
    requires i < |xs|
    ensures BusiestExpected(xs, t0, i, a) ==> CarriesBusiest(xs, t0, i, a)
  {
    if BusiestExpected(xs, t0, i, a) {
      AlertsCarryFlows(xs, t0, i, a);
      FlowCarriedIff(xs, t0, i, a);
      AdmittedMatches(Period(xs, t0, i), AlertProtocol(xs, t0, i, a));
      WithoutOverflow(Period(xs, t0, i), AlertProtocol(xs, t0, i, a));
      BusiestCarriedIff(xs, t0, i, a);
    }
  }

  lemma AdmittedMatches(offered: seq<ParsedPacket>, protocol: u8)
    requires FlowAdmitted(offered, protocol)
    ensures exists p :: p in offered && Matches(p, protocol)
  {
    var p :| p in offered && (protocol == 0 || p.protocol == protocol) &&
      KeyOf(p) in Admitted(ItemsOf(offered), FLOW_TABLE_CAPACITY);
    assert Matches(p, protocol);
  }
}
