/** What one flush hands to the uploader, as a function of the tables' contents. */
module Telemetry {
  import opened Machine
  import opened Packets
  import opened TrafficStats
  import opened FlowTables
  import opened ScanDetector
  import opened DnsWindows
  import opened ClientActivity
  import opened FxRings
  import opened AnomalyDetector

  const PORT_SCAN_MIN_ENDPOINTS: nat := 12

  datatype UploadJob = UploadJob(
    stats: Stats,
    windowSeconds: int,
    timestamp: int,
    alerts: seq<Alert>,
    alertFlows: seq<Option<FlowEntry>>,  // one per alert
    dnsEvents: seq<DnsEvent>,
    clients: seq<ClientEntry>,
    fxPackets: seq<FxPacket>,
    syncRuleset: bool)

  function ProtocolForAlert(protocol: string): u8 {
    if protocol == "TCP" then PROTO_TCP
    else if protocol == "UDP" then PROTO_UDP
    else 0
  }

  datatype Raised = Raised(alerts: seq<Alert>, flows: seq<Option<FlowEntry>>)

  function FlowFor(a: Alert, entries: seq<FlowEntry>): Option<FlowEntry> {
    TopOf(entries, ProtocolForAlert(a.protocol), |entries|)
  }

  function FlowsFor(alerts: seq<Alert>, entries: seq<FlowEntry>): (f: seq<Option<FlowEntry>>)
    ensures |f| == |alerts|
  {
    seq(|alerts|, i requires 0 <= i < |alerts| => FlowFor(alerts[i], entries))
  }

  function ScanAlert(scan: Scan): Alert {
    Alert(PortScanSuspected, Medium, "TCP", Wrap64(scan.fanout), 0)
  }

  function ScanFlow(scan: Scan): FlowEntry {
    FlowEntry(FlowKey(scan.src, scan.dst, 0, 0, PROTO_TCP), 0, 0)
  }

  /** The scan alert, if one is due and a slot is left. */
  function WithScan(r: Raised, entries: seq<FlowEntry>): Raised {
    var scan := FindScan(entries);
    if |r.alerts| < ANOMALY_MAX_ALERTS && scan.fanout >= PORT_SCAN_MIN_ENDPOINTS
    then Raised(r.alerts + [ScanAlert(scan)], r.flows + [Some(ScanFlow(scan))])
    else r
  }

  /** Threshold alerts with their busiest flows, then the scan alert if one is due. */
  function Raise(stats: Stats, thresholds: ThresholdReads, entries: seq<FlowEntry>): Raised
    requires Fits(stats)
  {
    var alerts := Alerts(stats, thresholds);
    WithScan(Raised(alerts, FlowsFor(alerts, entries)), entries)
  }

  /** Forensic samples accompany alerts only. */
  function Samples(alerts: seq<Alert>, fx: seq<FxPacket>): seq<FxPacket> {
    if |alerts| > 0 then Newest(fx, Min(FX_SAMPLE_MAX, |fx|)) else []
  }

  function RosterOf(leases: seq<ClientEntry>, activity: seq<Seen>, now: int): (m: seq<ClientEntry>)
    ensures |m| == |leases|
  {
    seq(|leases|, i requires 0 <= i < |leases| => leases[i].(online := Online(activity, leases[i].ip, now)))
  }
}
