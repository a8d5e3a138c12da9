/** Threshold alerts over a traffic snapshot. */
module AnomalyDetector {
  import opened Machine
  import opened TrafficStats

  const ANOMALY_MAX_ALERTS: nat := 4
  const UDP_PACKET_THRESHOLD_DEFAULT: u64 := 100
  const TCP_PACKET_THRESHOLD_DEFAULT: u64 := 150
  const BYTE_THRESHOLD_DEFAULT: u64 := 500000

  datatype Kind = UdpFloodSuspected | TcpSpikeSuspected | HighTrafficVolume | PortScanSuspected
  datatype Severity = High | Medium
  datatype Alert = Alert(kind: Kind, severity: Severity, protocol: string, packetCount: u64, bytesCount: u64)

  const NO_ALERT := Alert(UdpFloodSuspected, High, "", 0, 0)

  /** How one threshold is read at a flush. The backend value is a volatile word written by the
      uploader thread, and the code reads it twice, once to test it and once to return it; `env` is
      the parsed environment variable, if there is a usable one. */
  datatype Reads = Reads(tested: u64, returned: u64, env: Option<u64>)
  datatype ThresholdReads = ThresholdReads(udp: Reads, tcp: Reads, bytes: Reads)

  function EnvThreshold(env: Option<u64>, fallback: u64): u64 {
    match env
    case Some(v) => if v == 0 then fallback else v
    case None => fallback
  }

  function Threshold(r: Reads, fallback: u64): u64 {
    if r.tested > 0 then r.returned else EnvThreshold(r.env, fallback)
  }

  /** A ruleset update landed between the two reads and cleared the value. */
  predicate Torn(r: Reads) {
    r.tested > 0 && r.returned == 0
  }

  /** A threshold is at least 1 exactly when its read was not torn. */
  lemma ThresholdPositive(r: Reads, fallback: u64)
    requires fallback > 0
    ensures Threshold(r, fallback) >= 1 <==> !Torn(r)
  {
  }

  function UdpAlert(s: Stats, r: Reads): seq<Alert>
    requires Fits(s)
  {
    if s.udpPackets > Threshold(r, UDP_PACKET_THRESHOLD_DEFAULT)
    then [Alert(UdpFloodSuspected, High, "UDP", s.udpPackets, s.udpBytes)] else []
  }

  function TcpAlert(s: Stats, r: Reads): seq<Alert>
    requires Fits(s)
  {
    if s.tcpPackets > Threshold(r, TCP_PACKET_THRESHOLD_DEFAULT)
    then [Alert(TcpSpikeSuspected, Medium, "TCP", s.tcpPackets, s.tcpBytes)] else []
  }

  function ByteAlert(s: Stats, r: Reads): seq<Alert>
    requires Fits(s)
  {
    if s.totalBytes > Threshold(r, BYTE_THRESHOLD_DEFAULT)
    then [Alert(HighTrafficVolume, Medium, "UNKNOWN", s.totalPackets, s.totalBytes)] else []
  }

  /** All alerts a snapshot deserves, in the order they are raised. */
  function Alerts(s: Stats, r: ThresholdReads): (a: seq<Alert>)
    requires Fits(s)
    ensures |a| < ANOMALY_MAX_ALERTS
  {
    UdpAlert(s, r.udp) + TcpAlert(s, r.tcp) + ByteAlert(s, r.bytes)
  }

  /** Fills the alert array from the front, never past `max`. */
  method Check(s: Stats, r: ThresholdReads, out: array<Alert>, max: nat) returns (count: nat)
    requires Fits(s) && max <= out.Length
    modifies out
    ensures count == Min(max, |Alerts(s, r)|)
    ensures out[..count] == Alerts(s, r)[..count]
    ensures out[count..] == old(out[count..])
    ensures max >= 3 ==> Exactly(out[..count], s, r)
  {
    count := 0;
    if s.udpPackets > Threshold(r.udp, UDP_PACKET_THRESHOLD_DEFAULT) && count < max {
      out[count] := Alert(UdpFloodSuspected, High, "UDP", s.udpPackets, s.udpBytes);
      count := count + 1;
    }
    assert out[..count] == UdpAlert(s, r.udp)[..count];
    if s.tcpPackets > Threshold(r.tcp, TCP_PACKET_THRESHOLD_DEFAULT) && count < max {
      out[count] := Alert(TcpSpikeSuspected, Medium, "TCP", s.tcpPackets, s.tcpBytes);
      count := count + 1;
    }
    assert out[..count] == (UdpAlert(s, r.udp) + TcpAlert(s, r.tcp))[..count];
    if s.totalBytes > Threshold(r.bytes, BYTE_THRESHOLD_DEFAULT) && count < max {
      out[count] := Alert(HighTrafficVolume, Medium, "UNKNOWN", s.totalPackets, s.totalBytes);
      count := count + 1;
    }
    AllFilled(out[..count], s, r, max);
  }

  // ----- Which alerts those are -----

  /** A counter is above its threshold: the backend's value if one is set, as the second read returned
      it; else the environment's if it is usable; else the built-in one. */
  predicate Above(counter: int, r: Reads, builtIn: int) {
    (r.tested > 0 ==> counter > r.returned) &&
    (r.tested == 0 && r.env.Some? && r.env.value > 0 ==> counter > r.env.value) &&
    (r.tested == 0 && (r.env == None || r.env == Some(0)) ==> counter > builtIn)
  }

  predicate Exceeded(s: Stats, r: ThresholdReads, kind: Kind) {
    match kind
    case UdpFloodSuspected => Above(s.udpPackets, r.udp, 100)
    case TcpSpikeSuspected => Above(s.tcpPackets, r.tcp, 150)
    case HighTrafficVolume => Above(s.totalBytes, r.bytes, 500000)
    case PortScanSuspected => false
  }

  /** What an alert of each kind says about the snapshot. */
  predicate Says(a: Alert, s: Stats) {
    match a.kind
    case UdpFloodSuspected =>
      a.severity == High && a.protocol == "UDP" && a.packetCount == s.udpPackets && a.bytesCount == s.udpBytes
    case TcpSpikeSuspected =>
      a.severity == Medium && a.protocol == "TCP" && a.packetCount == s.tcpPackets && a.bytesCount == s.tcpBytes
    case HighTrafficVolume =>
      a.severity == Medium && a.protocol == "UNKNOWN" && a.packetCount == s.totalPackets && a.bytesCount == s.totalBytes
    case PortScanSuspected => false
  }

  predicate RaisedIn(alerts: seq<Alert>, kind: Kind) {
    exists i :: 0 <= i < |alerts| && alerts[i].kind == kind
  }

  function Turn(kind: Kind): nat {
    match kind
    case UdpFloodSuspected => 0
    case TcpSpikeSuspected => 1
    case HighTrafficVolume => 2
    case PortScanSuspected => 3
  }

  /** A kind is in the list exactly when its counter is above its threshold, once, in its turn, and
      with its own counts. */
  predicate Exactly(alerts: seq<Alert>, s: Stats, r: ThresholdReads) {
    (forall kind :: RaisedIn(alerts, kind) <==> Exceeded(s, r, kind)) &&
    (forall i, j :: 0 <= i < j < |alerts| ==> Turn(alerts[i].kind) < Turn(alerts[j].kind)) &&
    (forall i :: 0 <= i < |alerts| ==> Says(alerts[i], s))
  }

  lemma AlertsExactly(s: Stats, r: ThresholdReads)
    requires Fits(s)
    ensures Exactly(Alerts(s, r), s, r)
  {
    forall kind ensures RaisedIn(Alerts(s, r), kind) <==> Exceeded(s, r, kind) {
      KindExactly(s, r, kind);
    }
  }

  lemma AllFilled(filled: seq<Alert>, s: Stats, r: ThresholdReads, max: nat)
    requires Fits(s)
    ensures max >= 3 && |filled| == Min(max, |Alerts(s, r)|) && filled == Alerts(s, r)[..|filled|] ==>
      Exactly(filled, s, r)
  {
    AlertsExactly(s, r);
  }

  lemma KindExactly(s: Stats, r: ThresholdReads, kind: Kind)
    requires Fits(s)
    ensures RaisedIn(Alerts(s, r), kind) <==> Exceeded(s, r, kind)
  {
    var u, t, b := UdpAlert(s, r.udp), TcpAlert(s, r.tcp), ByteAlert(s, r.bytes);
    var a := Alerts(s, r);
    assert a == u + t + b;
    if Exceeded(s, r, kind) {
      var i := match kind
        case UdpFloodSuspected => 0
        case TcpSpikeSuspected => |u|
        case _ => |u| + |t|;
      assert a[i].kind == kind;
    }
  }

  /** What each alert in the list says about the snapshot. */
  lemma AlertsMeaning(s: Stats, r: ThresholdReads, a: Alert)
    requires Fits(s) && a in Alerts(s, r)
    ensures match a.kind
      case UdpFloodSuspected => a.protocol == "UDP" && s.udpPackets > Threshold(r.udp, UDP_PACKET_THRESHOLD_DEFAULT)
      case TcpSpikeSuspected => a.protocol == "TCP" && s.tcpPackets > Threshold(r.tcp, TCP_PACKET_THRESHOLD_DEFAULT)
      case HighTrafficVolume => a.protocol == "UNKNOWN" && s.totalBytes > Threshold(r.bytes, BYTE_THRESHOLD_DEFAULT)
      case PortScanSuspected => false
  {
    assert a in UdpAlert(s, r.udp) || a in TcpAlert(s, r.tcp) || a in ByteAlert(s, r.bytes);
  }
}
