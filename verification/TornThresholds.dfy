/** The one way a protocol alert can go out without the busiest flow although the flow table had room:
    the uploader thread cleared its threshold between the two reads of the volatile word. Without
    overflow, the promise of the busiest matching flow holds exactly when the read of the threshold
    was not torn. */
module TornThresholds {
  import opened Machine
  import opened Packets
  import opened TrafficStats
  import opened DottedQuads
  import opened PacketParser
  import opened FrameCodec
  import opened PacketWindows
  import opened FlowTables
  import opened ScanTheorems
  import opened AnomalyDetector
  import opened Telemetry
  import opened CaptureLoop
  import opened CaptureRuns
  import opened AlertTheorems
  import opened BusiestFlows
  import opened FlushContents

  function KindOf(udp: bool): Kind {
    if udp then UdpFloodSuspected else TcpSpikeSuspected
  }

  function ReadOf(udp: bool, thresholds: ThresholdReads): Reads {
    if udp then thresholds.udp else thresholds.tcp
  }

  /** The run is one over frames. */
  ghost predicate OfFrames(xs: seq<Sighting>) {
    exists h :: FromFrames(FilterBoth, h, xs)
  }

  /** How many jobs with the synchronisation flag were submitted before packet `i`. */
  function Syncs(xs: seq<Sighting>, t0: int, r0: int, i: nat): nat
    requires i <= |xs|
  {
    if i == 0 then 0 else Syncs(xs, t0, r0, i - 1) + (if SyncAt(xs, t0, r0, i - 1) then 1 else 0)
  }

  /** One threshold word took the values `words`, the first of them before the loop started. Each
      flush reads it twice, at `first[i]` and not earlier at `second[i]`; only the uploader thread
      writes it, at most once for each such job, so no read sees more updates than jobs submitted. */
  predicate ReadFrom(xs: seq<Sighting>, t0: int, r0: int, values: seq<Reads>,
                     words: seq<u64>, first: seq<nat>, second: seq<nat>)
  {
    |values| == |xs| && |first| == |xs| && |second| == |xs| &&
    (forall i :: 0 <= i < |xs| && FlushAt(xs, t0, i) ==>
      first[i] <= second[i] <= Syncs(xs, t0, r0, i) && second[i] < |words| &&
      values[i].tested == words[first[i]] && (values[i].tested > 0 ==> values[i].returned == words[second[i]])) &&
    (forall i, j :: 0 <= i < j < |xs| && FlushAt(xs, t0, i) && FlushAt(xs, t0, j) ==> second[i] <= first[j])
  }

  ghost predicate Readable(xs: seq<Sighting>, t0: int, r0: int, values: seq<Reads>) {
    exists words, first, second :: ReadFrom(xs, t0, r0, values, words, first, second)
  }

  /** A word that was never updated is readable like that. */
  lemma ConstantReadable(xs: seq<Sighting>, t0: int, r0: int, values: seq<Reads>, v: u64)
    requires |values| == |xs| && forall i :: 0 <= i < |xs| ==> values[i].tested == v && values[i].returned == v
    ensures Readable(xs, t0, r0, values)
  {
    var zeros := seq(|xs|, _ => 0);
    assert ReadFrom(xs, t0, r0, values, [v], zeros, zeros);
  }

  datatype Word = UdpWord | TcpWord | ByteWord

  function ReadOfWord(word: Word, t: ThresholdReads): Reads {
    match word
    case UdpWord => t.udp
    case TcpWord => t.tcp
    case ByteWord => t.bytes
  }

  function ReadsOf(xs: seq<Sighting>, word: Word): (r: seq<Reads>)
    ensures |r| == |xs|
  {
    seq(|xs|, i requires 0 <= i < |xs| => ReadOfWord(word, xs[i].thresholds))
  }

  /** All three words were read like that. The last synchronisation before the loop is no earlier than
      the first window. */
  ghost predicate UpdatesPossible(xs: seq<Sighting>, t0: int, r0: int) {
    t0 <= r0 && forall word :: Readable(xs, t0, r0, ReadsOf(xs, word))
  }

  /** Alert `a` of the flush at packet `i` of a run over frames is a UDP (or TCP) alert raised with
      threshold read `r`, in a period without overflow and of fewer than 2^64 packets. */
  ghost predicate AlertWith(xs: seq<Sighting>, t0: int, r0: int, i: nat, a: nat, udp: bool, r: Reads) {
    OfFrames(xs) && UpdatesPossible(xs, t0, r0) && i < |xs| && ClockForward(xs, t0) && FlushAt(xs, t0, i) &&
    |Period(xs, t0, i)| < TWO64 && !FlowsOverflowed(Period(xs, t0, i), FLOW_TABLE_CAPACITY) &&
    ReadOf(udp, xs[i].thresholds) == r &&
    a < |FlushRaised(xs, t0, i).alerts| == |FlushRaised(xs, t0, i).flows| &&
    FlushRaised(xs, t0, i).alerts[a].kind == KindOf(udp)
  }

  ghost predicate AlwaysCarriesBusiest(udp: bool, r: Reads) {
    forall xs, t0, r0, i, a :: AlertWith(xs, t0, r0, i, a, udp, r) ==> CarriesBusiest(xs, t0, i, a)
  }

  /** Over all runs: alerts raised with this read always carry the busiest matching flow of the period
      if and only if the read is not torn. */
  lemma CarriesBusiestIffNotTorn(udp: bool, r: Reads)
    ensures AlwaysCarriesBusiest(udp, r) <==> !Torn(r)
  {
    if Torn(r) {
      TornLosesFlow(udp, r);
    } else {
      forall xs, t0, r0, i, a | AlertWith(xs, t0, r0, i, a, udp, r) ensures CarriesBusiest(xs, t0, i, a) {
        assert BusiestExpected(xs, t0, i, a);
        AlertsCarryBusiest(xs, t0, i, a);
      }
    }
  }

  // ----- The failing run -----

  const HOST := Ipv4(192, 168, 1, 10)
  const PEER := Ipv4(203, 0, 113, 5)

  /** The frame of one packet between the two hosts, and what it parses to. */
  function FrameOf(protocol: u8, srcPort: u16): seq<u8>
    requires protocol == PROTO_TCP || protocol == PROTO_UDP
  {
    Encode(PlainFrame(HOST, PEER, protocol, srcPort, 443, []))
  }

  function PacketOf(protocol: u8, srcPort: u16): ParsedPacket {
    Record(HOST, PEER, protocol, srcPort, 443, 38, None)
  }

  lemma FrameAccepted(protocol: u8, srcPort: u16, now: int, thresholds: ThresholdReads)
    requires protocol == PROTO_TCP || protocol == PROTO_UDP
    ensures Accept(FilterBoth, Arrival(FrameOf(protocol, srcPort), now, thresholds, []))
         == Some(Sighting(PacketOf(protocol, srcPort), now, thresholds, []))
  {
    PlainFrameParses(HOST, PEER, protocol, srcPort, 443);
  }

  function Watched(udp: bool): u8 { if udp then PROTO_UDP else PROTO_TCP }
  function Unwatched(udp: bool): u8 { if udp then PROTO_TCP else PROTO_UDP }

  const UNSET := Reads(0, 0, None)

  /** The threshold words as read, the watched one with `r` and the others unset. */
  function Watching(udp: bool, r: Reads): ThresholdReads {
    if udp then ThresholdReads(r, UNSET, UNSET) else ThresholdReads(UNSET, r, UNSET)
  }

  /** After a minute a watched packet triggers a flush that synchronises the rules; five seconds later
      an unwatched one triggers the next, and only there is the threshold read torn. */
  function TwoFlushes(udp: bool, r: Reads): (xs: seq<Sighting>)
    ensures |xs| == 2
  {
    [Sighting(PacketOf(Watched(udp), 40000), 60, Watching(udp, Reads(r.tested, r.tested, r.env)), []),
     Sighting(PacketOf(Unwatched(udp), 40000), 65, Watching(udp, r), [])]
  }

  lemma TwoOfFrames(a: Arrival, b: Arrival, x: Sighting, y: Sighting)
    requires Accept(FilterBoth, a) == Some(x) && Accept(FilterBoth, b) == Some(y)
    ensures OfFrames([x, y])
  {
    assert FromFrames(FilterBoth, [a, b], [x, y]);
  }

  lemma BothFrames(udp: bool, r: Reads)
    ensures OfFrames(TwoFlushes(udp, r))
  {
    var xs := TwoFlushes(udp, r);
    FrameAccepted(Watched(udp), 40000, 60, xs[0].thresholds);
    FrameAccepted(Unwatched(udp), 40000, 65, xs[1].thresholds);
    TwoOfFrames(Arrival(FrameOf(Watched(udp), 40000), 60, xs[0].thresholds, []),
                Arrival(FrameOf(Unwatched(udp), 40000), 65, xs[1].thresholds, []), xs[0], xs[1]);
    assert xs == [xs[0], xs[1]];
  }

  lemma BothFlush(udp: bool, r: Reads)
    ensures var xs := TwoFlushes(udp, r);
      ClockForward(xs, 0) && FlushAt(xs, 0, 0) && FlushAt(xs, 0, 1) && PeriodStart(xs, 0, 1) == 1
  {
    var xs := TwoFlushes(udp, r);
    assert WindowStart(xs, 0, 0) == 0;
    assert FlushAt(xs, 0, 0);
    assert WindowStart(xs, 0, 1) == 60;
  }

  /** The first flush hands over a ruleset update. */
  lemma UpdateSubmitted(udp: bool, r: Reads)
    ensures var xs := TwoFlushes(udp, r);
      SyncAt(xs, 0, 0, 0) && Syncs(xs, 0, 0, 0) == 0 && Syncs(xs, 0, 0, 1) == 1
  {
    var xs := TwoFlushes(udp, r);
    BothFlush(udp, r);
    assert LastSync(xs, 0, 0, 0) == 0;
    assert SyncAt(xs, 0, 0, 0);
  }

  /** It clears the watched word between the two reads of the second flush. */
  lemma WatchedReadable(udp: bool, r: Reads, values: seq<Reads>)
    requires Torn(r) && |values| == 2
    requires values[0] == Reads(r.tested, r.tested, r.env) && values[1] == r
    ensures Readable(TwoFlushes(udp, r), 0, 0, values)
  {
    UpdateSubmitted(udp, r);
    assert ReadFrom(TwoFlushes(udp, r), 0, 0, values, [r.tested, 0], [0, 0], [0, 1]);
  }

  lemma UpdateUnderWay(udp: bool, r: Reads)
    requires Torn(r)
    ensures UpdatesPossible(TwoFlushes(udp, r), 0, 0)
  {
    var xs := TwoFlushes(udp, r);
    forall word ensures Readable(xs, 0, 0, ReadsOf(xs, word)) {
      if word == (if udp then UdpWord else TcpWord) {
        WatchedReadable(udp, r, ReadsOf(xs, word));
      } else {
        ConstantReadable(xs, 0, 0, ReadsOf(xs, word), 0);
      }
    }
  }

  lemma BothRetained(udp: bool, r: Reads)
    ensures var w := Rolling(TwoFlushes(udp, r), 1);
      |w| == 2 && w[0].protocol == Watched(udp) && w[1].protocol == Unwatched(udp)
  {
    var xs := TwoFlushes(udp, r);
    var h := Records(xs);
    BothFlush(udp, r);
    ConsecutiveSnapshotsShare(xs, 0, 0, 0, 1);
    assert h[0] == RecordOf(xs[0].packet, 60) && h[1] == RecordOf(xs[1].packet, 65);
    WindowSize(h, 2, PACKET_WINDOW_CAPACITY);
    WindowElement(h, 2, PACKET_WINDOW_CAPACITY, 0);
    WindowElement(h, 2, PACKET_WINDOW_CAPACITY, 1);
  }

  lemma BothCounted(udp: bool, r: Reads)
    ensures var t := Totals(Rolling(TwoFlushes(udp, r), 1));
      (if udp then t.udpPackets else t.tcpPackets) == 1
  {
    BothRetained(udp, r);
    OneOfTwo(udp, Rolling(TwoFlushes(udp, r), 1));
  }

  lemma OneOfTwo(udp: bool, w: seq<PktRecord>)
    requires |w| == 2 && w[0].protocol == Watched(udp) && w[1].protocol == Unwatched(udp)
    ensures (if udp then Totals(w).udpPackets else Totals(w).tcpPackets) == 1
  {
    TotalsOfTwo(w);
  }

  lemma TotalsOfTwo(w: seq<PktRecord>)
    requires |w| == 2
    ensures Totals(w) == Plus(Unit(w[0].protocol, w[0].size), Unit(w[1].protocol, w[1].size))
  {
    assert w == [w[0]] + [w[1]];
    TotalsSnoc([w[0]], w[1]);
    assert [w[0]] == [] + [w[0]];
    TotalsSnoc([], w[0]);
  }

  lemma NoMatchingFlow(udp: bool, r: Reads)
    ensures var xs := TwoFlushes(udp, r);
      !FlowsOverflowed(Period(xs, 0, 1), FLOW_TABLE_CAPACITY) &&
      TopOf(FlushEntries(xs, 0, 1), Watched(udp), |FlushEntries(xs, 0, 1)|).None?
  {
    var xs := TwoFlushes(udp, r);
    BothFlush(udp, r);
    var offered, entries := Period(xs, 0, 1), FlushEntries(xs, 0, 1);
    assert offered[0] == xs[1].packet && |offered| == 1;
    EntriesAreTallies(offered, FLOW_TABLE_CAPACITY);
    TopIsBusiest(entries, Watched(udp));
    forall k | 0 <= k < |entries| ensures !OfProtocol(entries[k], Watched(udp)) {
      var m :| 0 <= m < |offered| && KeyOf(offered[m]) == entries[k].key;
    }
  }

  lemma TornLosesFlow(udp: bool, r: Reads)
    requires Torn(r)
    ensures !AlwaysCarriesBusiest(udp, r)
  {
    var xs := TwoFlushes(udp, r);
    var stats, entries := Totals(Rolling(xs, 1)), FlushEntries(xs, 0, 1);
    BothFrames(udp, r);
    UpdateUnderWay(udp, r);
    BothFlush(udp, r);
    BothCounted(udp, r);
    NoMatchingFlow(udp, r);
    NoWrap(Rolling(xs, 1));
    RaisedShape(stats, xs[1].thresholds, entries);
    FirstAlertKind(stats, xs[1].thresholds, udp);
    var alerts := Alerts(stats, xs[1].thresholds);
    var at :| 0 <= at < |alerts| && alerts[at].kind == KindOf(udp) &&
      ProtocolForAlert(alerts[at].protocol) == Watched(udp);
    assert AlertWith(xs, 0, 0, 1, at, udp, r);
    assert !CarriesBusiest(xs, 0, 1, at);
  }

  lemma FirstAlertKind(stats: Stats, thresholds: ThresholdReads, udp: bool)
    requires Fits(stats) && Torn(ReadOf(udp, thresholds))
    requires (if udp then stats.udpPackets else stats.tcpPackets) == 1
    ensures var alerts := Alerts(stats, thresholds);
      exists at :: 0 <= at < |alerts| && alerts[at].kind == KindOf(udp) &&
        ProtocolForAlert(alerts[at].protocol) == Watched(udp)
  {
    var alerts := Alerts(stats, thresholds);
    var at := if udp then 0 else |UdpAlert(stats, thresholds.udp)|;
    assert alerts[at].kind == KindOf(udp);
  }
}
