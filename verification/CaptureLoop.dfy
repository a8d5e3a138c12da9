/** The capture loop: every accepted packet is recorded in all tables, and a flush hands their
    contents to the uploader once five seconds have passed. `Step` is the loop body as a function;
    the class `Agent` is the loop over the real tables, proved equal to it. */
module CaptureLoop {
  import opened Machine
  import opened Packets
  import opened TrafficStats
  import opened PacketWindows
  import opened FlowTables
  import opened ScanDetector
  import opened DnsWindows
  import opened ClientActivity
  import opened FxRings
  import opened AnomalyDetector
  import opened PacketParser
  import opened Telemetry
  import EndpointHash

  const STATS_WINDOW_SECONDS := 5
  const RULES_SYNC_SECONDS := 60

  datatype FilterMode = FilterBoth | FilterTcp | FilterUdp

  predicate ShouldProcess(mode: FilterMode, protocol: u8) {
    !(mode == FilterTcp && protocol != PROTO_TCP) && !(mode == FilterUdp && protocol != PROTO_UDP)
  }

  /** Everything one turn of the loop takes from outside: the frame, the clock, the threshold words
      as read at a flush, and the DHCP leases. */
  datatype Arrival = Arrival(frame: seq<u8>, now: int, thresholds: ThresholdReads, leases: seq<ClientEntry>)

  /** An arrival that was parsed and passed the filter. */
  datatype Sighting = Sighting(packet: ParsedPacket, now: int, thresholds: ThresholdReads, leases: seq<ClientEntry>)

  /** The loop's state: the retained rolling window, what the flow table and the DNS window were
      offered since the last flush, the activity table, the packets ever put in the forensic ring,
      and the jobs submitted so far. */
  datatype Tables = Tables(
    window: seq<PktRecord>,
    flows: seq<ParsedPacket>,
    queries: seq<DnsKey>,
    activity: seq<Seen>,
    fx: seq<FxPacket>,
    windowStart: int,
    lastRulesSync: int,
    jobs: seq<UploadJob>)

  predicate Bounded(s: Tables) {
    |s.window| <= PACKET_WINDOW_CAPACITY && |s.activity| <= CLIENT_ACTIVITY_MAX
  }

  type State = s: Tables | Bounded(s) witness Tables([], [], [], [], [], 0, 0, [])

  function Initial(windowStart: int, lastRulesSync: int): State {
    Tables([], [], [], [], [], windowStart, lastRulesSync, [])
  }

  /** Recording one packet in every table. */
  function Recorded(s: State, p: ParsedPacket, now: int): State {
    s.(window := Pushed(s.window, RecordOf(p, now), PACKET_WINDOW_CAPACITY),
       flows := s.flows + [p],
       queries := if p.isDnsQuery then s.queries + [DnsKey(p.srcIp, p.dnsName)] else s.queries,
       activity := Touched(s.activity, p.srcIp, now, CLIENT_ACTIVITY_MAX),
       fx := s.fx + [FxOf(p, now)])
  }

  predicate FlushDue(s: State, now: int) {
    now - s.windowStart >= STATS_WINDOW_SECONDS
  }

  predicate SyncDue(s: State, now: int) {
    now - s.lastRulesSync >= RULES_SYNC_SECONDS
  }

  /** The job built from these tables. */
  function JobFrom(x: Sighting, window: seq<PktRecord>, flows: seq<ParsedPacket>, queries: seq<DnsKey>,
                   activity: seq<Seen>, fx: seq<FxPacket>, windowStart: int, lastSync: int): UploadJob
    requires Fits(Totals(window))
  {
    var raised := Raise(Totals(window), x.thresholds, Entries(flows, FLOW_TABLE_CAPACITY));
    UploadJob(Totals(window), x.now - windowStart, x.now, raised.alerts, raised.flows,
              Events(queries, DNS_MAX_EVENTS), RosterOf(x.leases, activity, x.now),
              Samples(raised.alerts, fx), x.now - lastSync >= RULES_SYNC_SECONDS)
  }

  function JobOf(s: State, x: Sighting): UploadJob {
    NoWrap(s.window);
    JobFrom(x, s.window, s.flows, s.queries, s.activity, s.fx, s.windowStart, s.lastRulesSync)
  }

  lemma JobParts(s: State, x: Sighting, rolling: Stats, alerts: seq<Alert>, alertFlows: seq<Option<FlowEntry>>)
    requires rolling == Totals(s.window) && Fits(rolling)
    requires Raised(alerts, alertFlows) == Raise(rolling, x.thresholds, Entries(s.flows, FLOW_TABLE_CAPACITY))
    ensures JobOf(s, x) == UploadJob(rolling, x.now - s.windowStart, x.now, alerts, alertFlows,
      Events(s.queries, DNS_MAX_EVENTS), RosterOf(x.leases, s.activity, x.now),
      Samples(alerts, s.fx), SyncDue(s, x.now))
  {
  }

  /** Handing the job over resets the flow table and the DNS window, but not the rolling window,
      the activity table or the forensic ring. */
  function Flushed(s: State, x: Sighting): State {
    s.(flows := [], queries := [], windowStart := x.now,
       lastRulesSync := if SyncDue(s, x.now) then x.now else s.lastRulesSync,
       jobs := s.jobs + [JobOf(s, x)])
  }

  function Process(s: State, x: Sighting): State {
    var r := Recorded(s, x.packet, x.now);
    if FlushDue(r, x.now) then Flushed(r, x) else r
  }

  /** The sighting an arrival amounts to, if any. */
  function Accept(mode: FilterMode, a: Arrival): Option<Sighting> {
    match Parsed(a.frame)
    case None => None
    case Some(p) => if ShouldProcess(mode, p.protocol) then Some(Sighting(p, a.now, a.thresholds, a.leases)) else None
  }

  function Step(mode: FilterMode, s: State, a: Arrival): State {
    match Accept(mode, a)
    case None => s
    case Some(x) => Process(s, x)
  }

  /** The state after the first `n` frames. */
  function RunFrames(mode: FilterMode, start: State, h: seq<Arrival>, n: nat): State
    requires n <= |h|
  {
    Fold((s: State, a: Arrival) => Step(mode, s, a), start, h, n)
  }

  class Agent {
    const mode: FilterMode
    const flows: FlowTable
    const dns: DnsWindow
    const window: PacketWindow
    const activity: Activity
    const fx: FxRing
    const detector: Detector
    var windowStart: int
    var lastRulesSync: int
    var submitted: seq<UploadJob>  // what uploader_submit was called with, in order

    ghost predicate Separate()
      reads this
    {
      {this as object} !! {flows as object, flows.entries} !! {dns as object, dns.events}
      !! {window as object, window.records} !! {activity as object, activity.entries}
      !! {fx as object, fx.packets} !! {detector as object, detector.seen}
    }

    ghost predicate Valid()
      reads this, flows, flows.entries, dns, dns.events, window, window.records,
            activity, activity.entries, fx, fx.packets
    {
      Separate() &&
      flows.Valid() && flows.entries.Length == FLOW_TABLE_CAPACITY &&
      dns.Valid() && dns.events.Length == DNS_MAX_EVENTS &&
      window.Valid() && window.records.Length == PACKET_WINDOW_CAPACITY &&
      activity.Valid() && activity.entries.Length == CLIENT_ACTIVITY_MAX &&
      fx.Valid() && detector.seen.Length == EndpointHash.SLOTS / 8
    }

    ghost function View(): Tables
      requires activity.Valid()
      reads this, flows, dns, window, activity, activity.entries, fx
    {
      Tables(window.contents, flows.offered, dns.offered, activity.Table(), fx.history,
            windowStart, lastRulesSync, submitted)
    }

    /** The tables are static variables of the program, each initialised on its own. */
    constructor (mode: FilterMode, flows: FlowTable, dns: DnsWindow, window: PacketWindow,
                 activity: Activity, fx: FxRing, detector: Detector, windowStart: int, lastRulesSync: int)
      requires flows.Valid() && flows.entries.Length == FLOW_TABLE_CAPACITY && flows.offered == []
      requires dns.Valid() && dns.events.Length == DNS_MAX_EVENTS && dns.offered == []
      requires window.Valid() && window.records.Length == PACKET_WINDOW_CAPACITY && window.contents == []
      requires activity.Valid() && activity.entries.Length == CLIENT_ACTIVITY_MAX && activity.Table() == []
      requires fx.Valid() && fx.history == [] && detector.seen.Length == EndpointHash.SLOTS / 8
      requires {flows as object, flows.entries} !! {dns as object, dns.events}
        !! {window as object, window.records} !! {activity as object, activity.entries}
        !! {fx as object, fx.packets} !! {detector as object, detector.seen}
      ensures Valid() && this.mode == mode && View() == Initial(windowStart, lastRulesSync)
    {
      this.mode := mode;
      this.flows, this.dns, this.window := flows, dns, window;
      this.activity, this.fx, this.detector := activity, fx, detector;
      this.windowStart, this.lastRulesSync, submitted := windowStart, lastRulesSync, [];
    }

    /** The loop itself, over the frames received until the agent is stopped. */
    method Capture(arrivals: seq<Arrival>)
      requires Valid()
      modifies this, flows, flows.entries, dns, dns.events, window, window.records,
               activity, activity.entries, fx, fx.packets, detector.seen
      ensures Valid()
      ensures Bounded(old(View())) && View() == RunFrames(mode, old(View()), arrivals, |arrivals|)
    {
      for i := 0 to |arrivals|
        invariant Valid() && Bounded(old(View()))
        invariant View() == RunFrames(mode, old(View()), arrivals, i)
      {
        Receive(arrivals[i]);
      }
    }

    method Receive(a: Arrival)
      requires Valid()
      modifies this, flows, flows.entries, dns, dns.events, window, window.records,
               activity, activity.entries, fx, fx.packets, detector.seen
      ensures Valid()
      ensures Bounded(old(View())) && View() == Step(mode, old(View()), a)
    {
      var buffer := new u8[|a.frame|](k requires 0 <= k < |a.frame| => a.frame[k]);
      assert buffer[..] == a.frame;
      OnFrame(buffer, a.now, a.thresholds, a.leases);
    }

    /** One turn of the loop. */
    method OnFrame(frame: array<u8>, now: int, thresholds: ThresholdReads, leases: seq<ClientEntry>)
      requires Valid()
      modifies this, flows, flows.entries, dns, dns.events, window, window.records,
               activity, activity.entries, fx, fx.packets, detector.seen
      ensures Valid()
      ensures Bounded(old(View())) &&
        View() == Step(mode, old(View()), Arrival(old(frame[..]), now, thresholds, leases))
    {
      var parsed := ParsePacket(frame);
      if parsed.None? || !ShouldProcess(mode, parsed.value.protocol) {
        return;
      }
      var packet := parsed.value;
      RecordPacket(packet, now);
      if now - windowStart >= STATS_WINDOW_SECONDS {
        Flush(Sighting(packet, now, thresholds, leases));
      }
    }

    method RecordPacket(packet: ParsedPacket, now: int)
      requires Valid()
      modifies flows, flows.entries, dns, dns.events, window, window.records,
               activity, activity.entries, fx, fx.packets
      ensures Valid()
      ensures Bounded(old(View())) && View() == Recorded(old(View()), packet, now)
    {
      RecordActivity(packet, now);
      RecordFlow(packet);
      if packet.isDnsQuery {
        RecordQuery(packet);
      }
      RecordInWindow(packet, now);
      RecordForensics(packet, now);
    }

    method RecordActivity(packet: ParsedPacket, now: int)
      requires Valid()
      modifies activity, activity.entries
      ensures Valid()
      ensures Bounded(old(View())) && View() == old(View()).(
        activity := Touched(old(View()).activity, packet.srcIp, now, CLIENT_ACTIVITY_MAX))
    {
      activity.Touch(packet.srcIp, now);
    }

    method RecordFlow(packet: ParsedPacket)
      requires Valid()
      modifies flows, flows.entries
      ensures Valid()
      ensures View() == old(View()).(flows := old(View()).flows + [packet])
    {
      flows.Add(packet);
    }

    method RecordQuery(packet: ParsedPacket)
      requires Valid()
      modifies dns, dns.events
      ensures Valid()
      ensures View() == old(View()).(queries := old(View()).queries + [DnsKey(packet.srcIp, packet.dnsName)])
    {
      dns.Add(packet.srcIp, packet.dnsName);
    }

    method RecordInWindow(packet: ParsedPacket, now: int)
      requires Valid()
      modifies window, window.records
      ensures Valid()
      ensures View() == old(View()).(
        window := Pushed(old(View()).window, RecordOf(packet, now), PACKET_WINDOW_CAPACITY))
    {
      window.Push(packet, now);
    }

    method RecordForensics(packet: ParsedPacket, now: int)
      requires Valid()
      modifies fx, fx.packets
      ensures Valid()
      ensures View() == old(View()).(fx := old(View()).fx + [FxOf(packet, now)])
    {
      fx.Push(packet, now);
    }

    method Flush(x: Sighting)
      requires Valid()
      modifies this, flows, flows.entries, dns, dns.events, detector.seen
      ensures Valid()
      ensures Bounded(old(View())) && View() == Flushed(old(View()), x)
    {
      var job := BuildJob(x);
      Submit(job, x.now);
      ResetTables();
    }

    method Submit(job: UploadJob, now: int)
      requires Valid()
      modifies this
      ensures Valid()
      ensures View() == old(View()).(windowStart := now,
        lastRulesSync := if job.syncRuleset then now else old(lastRulesSync),
        jobs := old(submitted) + [job])
    {
      submitted := submitted + [job];
      if job.syncRuleset {
        lastRulesSync := now;
      }
      windowStart := now;
    }

    method ResetTables()
      requires Valid()
      modifies flows, flows.entries, dns, dns.events
      ensures Valid()
      ensures View() == old(View()).(flows := [], queries := [])
    {
      flows.Reset();
      dns.Reset();
    }

    method BuildJob(x: Sighting) returns (job: UploadJob)
      requires Valid()
      modifies detector.seen
      ensures Bounded(View()) && job == JobOf(View(), x)
    {
      var rolling := window.Snapshot();
      NoWrap(window.contents);
      var alerts, alertFlows := RaiseAlerts(rolling, x.thresholds);
      job := Assemble(x, rolling, alerts, alertFlows);
    }

    method Assemble(x: Sighting, rolling: Stats, alerts: seq<Alert>, alertFlows: seq<Option<FlowEntry>>)
      returns (job: UploadJob)
      requires dns.Valid() && dns.events.Length == DNS_MAX_EVENTS && activity.Valid() && fx.Valid()
      requires Bounded(View()) && rolling == Totals(window.contents) && Fits(rolling)
      requires Raised(alerts, alertFlows) == Raise(rolling, x.thresholds, Entries(flows.offered, FLOW_TABLE_CAPACITY))
      ensures job == JobOf(View(), x)
    {
      JobParts(View(), x, rolling, alerts, alertFlows);
      var sync := x.now - lastRulesSync >= RULES_SYNC_SECONDS;
      var samples := SampleRing(|alerts|);
      var clients := CollectRoster(x.leases, x.now);
      job := UploadJob(rolling, x.now - windowStart, x.now, alerts, alertFlows,
                       dns.events[..dns.count], clients, samples, sync);
    }

    /** Threshold checks over the rolling window, scan detection over the flow table. */
    method RaiseAlerts(rolling: Stats, thresholds: ThresholdReads)
      returns (alerts: seq<Alert>, alertFlows: seq<Option<FlowEntry>>)
      requires Fits(rolling) && detector.seen.Length == EndpointHash.SLOTS / 8
      requires flows.Valid() && flows.entries.Length == FLOW_TABLE_CAPACITY
      modifies detector.seen
      ensures Raised(alerts, alertFlows) == Raise(rolling, thresholds, Entries(flows.offered, FLOW_TABLE_CAPACITY))
    {
      alerts := ThresholdAlerts(rolling, thresholds);
      alertFlows := BusiestFlows(alerts);
      if |alerts| < ANOMALY_MAX_ALERTS {
        alerts, alertFlows := AddScan(alerts, alertFlows);
      }
    }

    method ThresholdAlerts(rolling: Stats, thresholds: ThresholdReads) returns (alerts: seq<Alert>)
      requires Fits(rolling)
      ensures alerts == Alerts(rolling, thresholds)
    {
      var out := new Alert[ANOMALY_MAX_ALERTS](_ => NO_ALERT);
      var alertCount := Check(rolling, thresholds, out, ANOMALY_MAX_ALERTS);
      alerts := out[..alertCount];
    }

    method AddScan(raised: seq<Alert>, raisedFlows: seq<Option<FlowEntry>>)
      returns (alerts: seq<Alert>, alertFlows: seq<Option<FlowEntry>>)
      requires |raised| < ANOMALY_MAX_ALERTS && detector.seen.Length == EndpointHash.SLOTS / 8
      requires flows.Valid() && flows.entries.Length == FLOW_TABLE_CAPACITY
      modifies detector.seen
      ensures Raised(alerts, alertFlows)
           == WithScan(Raised(raised, raisedFlows), Entries(flows.offered, FLOW_TABLE_CAPACITY))
    {
      alerts, alertFlows := raised, raisedFlows;
      var scan := detector.ScanFanout(flows.entries[..flows.count]);
      if scan.fanout >= PORT_SCAN_MIN_ENDPOINTS {
        alerts := alerts + [ScanAlert(scan)];
        alertFlows := alertFlows + [Some(ScanFlow(scan))];
      }
    }

    /** The busiest flow of each alert's protocol. */
    method BusiestFlows(alerts: seq<Alert>) returns (alertFlows: seq<Option<FlowEntry>>)
      requires flows.Valid() && flows.entries.Length == FLOW_TABLE_CAPACITY
      ensures alertFlows == FlowsFor(alerts, Entries(flows.offered, FLOW_TABLE_CAPACITY))
    {
      alertFlows := [];
      ghost var entries := flows.entries[..flows.count];
      for i := 0 to |alerts|
        invariant |alertFlows| == i
        invariant forall j :: 0 <= j < i ==> alertFlows[j] == FlowFor(alerts[j], entries)
      {
        var flow := flows.Top(ProtocolForAlert(alerts[i].protocol));
        alertFlows := alertFlows + [flow];
      }
    }

    method SampleRing(alertCount: nat) returns (samples: seq<FxPacket>)
      requires fx.Valid()
      ensures samples == if alertCount > 0 then Newest(fx.history, Min(FX_SAMPLE_MAX, |fx.history|)) else []
    {
      if alertCount == 0 {
        return [];
      }
      var out := new FxPacket[FX_SAMPLE_MAX](_ => FxPacket(0, "", "", 0, 0, 0, 0));
      var want := fx.Recent(out, FX_SAMPLE_MAX);
      samples := out[..want];
    }

    method CollectRoster(leases: seq<ClientEntry>, now: int) returns (clients: seq<ClientEntry>)
      requires activity.Valid()
      ensures clients == RosterOf(leases, activity.Table(), now)
    {
      var roster := new ClientEntry[|leases|](i requires 0 <= i < |leases| => leases[i]);
      activity.MarkOnline(roster, |leases|, now);
      clients := roster[..];
    }
  }
}
