/** The whole job of a flush, as a function of the packet sequence alone, and that every flush of
    every run submits it. `FlushMeaning` says what is in it. */
module FlushContents {
  import opened Machine
  import opened Packets
  import opened TrafficStats
  import opened PacketWindows
  import opened DnsWindows
  import opened ClientActivity
  import opened FxRings
  import opened Telemetry
  import opened CaptureLoop
  import opened CaptureRuns
  import opened AlertTheorems

  function QueryOf(p: ParsedPacket): seq<DnsKey> {
    if p.isDnsQuery then [DnsKey(p.srcIp, p.dnsName)] else []
  }

  /** The DNS queries among packets `lo` to `hi`. */
  function QueriesFrom(xs: seq<Sighting>, lo: nat, hi: nat): seq<DnsKey>
    requires lo <= hi <= |xs|
  {
    if lo == hi then [] else QueriesFrom(xs, lo, hi - 1) + QueryOf(xs[hi - 1].packet)
  }

  /** Who was seen when. */
  function Touches(xs: seq<Sighting>): (h: seq<Seen>)
    ensures |h| == |xs|
  {
    seq(|xs|, i requires 0 <= i < |xs| => Seen(xs[i].packet.srcIp, xs[i].now))
  }

  function FxHistory(xs: seq<Sighting>, n: nat): (h: seq<FxPacket>)
    requires n <= |xs|
    ensures |h| == n
  {
    seq(n, i requires 0 <= i < n => FxOf(xs[i].packet, xs[i].now))
  }

  predicate SyncAt(xs: seq<Sighting>, t0: int, r0: int, i: nat)
    requires i < |xs|
    decreases i, 1
  {
    FlushAt(xs, t0, i) && xs[i].now - LastSync(xs, t0, r0, i) >= RULES_SYNC_SECONDS
  }

  /** When rules were last synchronised before packet `n` is handled. */
  function LastSync(xs: seq<Sighting>, t0: int, r0: int, n: nat): int
    requires n <= |xs|
    decreases n, 0
  {
    if n == 0 then r0 else if SyncAt(xs, t0, r0, n - 1) then xs[n - 1].now else LastSync(xs, t0, r0, n - 1)
  }

  // ----- The other tables along a run -----

  ghost predicate HoldsRest(s: State, t0: int, r0: int, xs: seq<Sighting>, n: nat) {
    n <= |xs| &&
    s.windowStart == WindowStart(xs, t0, n) &&
    s.lastRulesSync == LastSync(xs, t0, r0, n) &&
    s.queries == QueriesFrom(xs, PeriodStart(xs, t0, n), n) &&
    s.activity == ClientActivity.Run(Touches(xs), n, CLIENT_ACTIVITY_MAX) &&
    s.fx == FxHistory(xs, n)
  }

  ghost predicate RestTurn(s: State, x: Sighting, t: State) {
    var due := x.now - s.windowStart >= STATS_WINDOW_SECONDS;
    t.windowStart == (if due then x.now else s.windowStart) &&
    t.lastRulesSync == (if due && x.now - s.lastRulesSync >= RULES_SYNC_SECONDS then x.now else s.lastRulesSync) &&
    t.queries == (if due then [] else s.queries + QueryOf(x.packet)) &&
    t.activity == Touched(s.activity, x.packet.srcIp, x.now, CLIENT_ACTIVITY_MAX) &&
    t.fx == s.fx + [FxOf(x.packet, x.now)]
  }

  lemma ProcessRest(s: State, x: Sighting)
    ensures RestTurn(s, x, Process(s, x))
  {
  }

  lemma RestTurnHolds(s: State, t0: int, r0: int, xs: seq<Sighting>, n: nat, t: State)
    requires n < |xs| && HoldsRest(s, t0, r0, xs, n) && RestTurn(s, xs[n], t)
    ensures HoldsRest(t, t0, r0, xs, n + 1)
  {
    assert Touches(xs)[n] == Seen(xs[n].packet.srcIp, xs[n].now);
    assert FxHistory(xs, n + 1) == FxHistory(xs, n) + [FxOf(xs[n].packet, xs[n].now)];
  }

  lemma ProcessHoldsRest(s: State, t0: int, r0: int, xs: seq<Sighting>, n: nat)
    requires n < |xs|
    ensures HoldsRest(s, t0, r0, xs, n) ==> HoldsRest(Process(s, xs[n]), t0, r0, xs, n + 1)
  {
    if HoldsRest(s, t0, r0, xs, n) {
      ProcessRest(s, xs[n]);
      RestTurnHolds(s, t0, r0, xs, n, Process(s, xs[n]));
    }
  }

  lemma StartHoldsRest(t0: int, r0: int, xs: seq<Sighting>)
    ensures HoldsRest(Initial(t0, r0), t0, r0, xs, 0)
  {
    assert FxHistory(xs, 0) == [];
  }

  lemma RunHoldsRest(t0: int, r0: int, xs: seq<Sighting>, n: nat)
    requires n <= |xs|
    ensures HoldsRest(CaptureRuns.Run(Initial(t0, r0), xs, n), t0, r0, xs, n)
  {
    var inv := (s: State, k: nat) => HoldsRest(s, t0, r0, xs, k);
    forall s: State, k: nat | k < n && inv(s, k) ensures inv(Body()(s, xs[k]), k + 1) {
      ProcessHoldsRest(s, t0, r0, xs, k);
    }
    StartHoldsRest(t0, r0, xs);
    FoldInvariant<State, Sighting>(Body(), Initial(t0, r0), xs, n, inv);
    assert inv(CaptureRuns.Run(Initial(t0, r0), xs, n), n);
  }

  // ----- The job of a flush -----

  function PeriodQueries(xs: seq<Sighting>, t0: int, i: nat): seq<DnsKey>
    requires i < |xs|
  {
    QueriesFrom(xs, PeriodStart(xs, t0, i), i + 1)
  }

  /** What the flush at packet `i` submits: the rolling totals, the alerts over them and over the
      flows of the period, the queries of the period, and the clients and samples of all time. */
  function JobAt(xs: seq<Sighting>, t0: int, r0: int, i: nat): UploadJob
    requires i < |xs|
  {
    NoWrap(Rolling(xs, i));
    JobFrom(xs[i], Rolling(xs, i), Period(xs, t0, i), PeriodQueries(xs, t0, i),
            ClientActivity.Run(Touches(xs), i + 1, CLIENT_ACTIVITY_MAX), FxHistory(xs, i + 1),
            WindowStart(xs, t0, i), LastSync(xs, t0, r0, i))
  }

  lemma JobAlerts(xs: seq<Sighting>, t0: int, r0: int, i: nat)
    requires i < |xs|
    ensures Raised(JobAt(xs, t0, r0, i).alerts, JobAt(xs, t0, r0, i).alertFlows) == FlushRaised(xs, t0, i)
  {
  }

  /** Every flush of every run submits exactly that job, and nothing else submits. */
  lemma FlushJob(t0: int, r0: int, xs: seq<Sighting>, i: nat)
    requires i < |xs|
    ensures var s, t := CaptureRuns.Run(Initial(t0, r0), xs, i), CaptureRuns.Run(Initial(t0, r0), xs, i + 1);
      t.jobs == if FlushAt(xs, t0, i) then s.jobs + [JobAt(xs, t0, r0, i)] else s.jobs
  {
    var s := CaptureRuns.Run(Initial(t0, r0), xs, i);
    RunHolds(Initial(t0, r0), t0, xs, i);
    RunHoldsRest(t0, r0, xs, i);
    RunStep(Initial(t0, r0), xs, i);
    StateJob(s, t0, r0, xs, i);
  }

  /** When the last packet of a run triggers a flush, its job is the last one submitted. */
  lemma LastJobOfRun(t0: int, r0: int, xs: seq<Sighting>, i: nat)
    requires |xs| == i + 1 && FlushAt(xs, t0, i)
    ensures LastIs(CaptureRuns.Run(Initial(t0, r0), xs, i + 1).jobs, JobAt(xs, t0, r0, i))
  {
    FlushJob(t0, r0, xs, i);
    LastOf(CaptureRuns.Run(Initial(t0, r0), xs, i + 1).jobs, CaptureRuns.Run(Initial(t0, r0), xs, i).jobs,
           JobAt(xs, t0, r0, i));
  }

  /** The same from frames on. */
  lemma LastJob(mode: FilterMode, t0: int, r0: int, h: seq<Arrival>, xs: seq<Sighting>, i: nat)
    requires FromFrames(mode, h, xs) && |xs| == i + 1 && FlushAt(xs, t0, i)
    ensures LastIs(RunFrames(mode, Initial(t0, r0), h, i + 1).jobs, JobAt(xs, t0, r0, i))
  {
    FromFramesRun(mode, Initial(t0, r0), h, xs);
    LastJobOfRun(t0, r0, xs, i);
  }

  predicate LastIs<T(==)>(t: seq<T>, x: T) {
    |t| > 0 && t[|t| - 1] == x
  }

  lemma LastOf<T>(t: seq<T>, s: seq<T>, x: T)
    requires t == s + [x]
    ensures LastIs(t, x)
  {
  }

  lemma StateJob(s: State, t0: int, r0: int, xs: seq<Sighting>, i: nat)
    requires i < |xs| && Holds(s, t0, xs, i) && HoldsRest(s, t0, r0, xs, i)
    ensures Process(s, xs[i]).jobs == if FlushAt(xs, t0, i) then s.jobs + [JobAt(xs, t0, r0, i)] else s.jobs
  {
    TablesSnoc(xs, t0, i);
    FxSnoc(xs, i);
    NoWrap(Rolling(xs, i));
    ProcessJob(s, xs[i], Rolling(xs, i), Period(xs, t0, i), PeriodQueries(xs, t0, i),
               ClientActivity.Run(Touches(xs), i + 1, CLIENT_ACTIVITY_MAX), FxHistory(xs, i + 1));
  }

  lemma TablesSnoc(xs: seq<Sighting>, t0: int, i: nat)
    requires i < |xs|
    ensures Rolling(xs, i) == Pushed(PacketWindows.Run(Records(xs), i, PACKET_WINDOW_CAPACITY),
                                     RecordOf(xs[i].packet, xs[i].now), PACKET_WINDOW_CAPACITY)
    ensures Period(xs, t0, i) == PacketsFrom(xs, PeriodStart(xs, t0, i), i) + [xs[i].packet]
    ensures ClientActivity.Run(Touches(xs), i + 1, CLIENT_ACTIVITY_MAX)
      == Touched(ClientActivity.Run(Touches(xs), i, CLIENT_ACTIVITY_MAX),
                 xs[i].packet.srcIp, xs[i].now, CLIENT_ACTIVITY_MAX)
  {
    PeriodSnoc(xs, PeriodStart(xs, t0, i), i);
    TurnWindow(xs, i);
    assert Touches(xs)[i] == Seen(xs[i].packet.srcIp, xs[i].now);
  }

  lemma FxSnoc(xs: seq<Sighting>, i: nat)
    requires i < |xs|
    ensures FxHistory(xs, i + 1) == FxHistory(xs, i) + [FxOf(xs[i].packet, xs[i].now)]
  {
  }

  /** One turn, from the tables as they stand when the job is built: the flushing packet is in all
      of them. */
  lemma ProcessJob(s: State, x: Sighting, window: seq<PktRecord>, flows: seq<ParsedPacket>,
                   queries: seq<DnsKey>, activity: seq<Seen>, fx: seq<FxPacket>)
    requires window == Pushed(s.window, RecordOf(x.packet, x.now), PACKET_WINDOW_CAPACITY) && Fits(Totals(window))
    requires flows == s.flows + [x.packet] && queries == s.queries + QueryOf(x.packet)
    requires activity == Touched(s.activity, x.packet.srcIp, x.now, CLIENT_ACTIVITY_MAX)
    requires fx == s.fx + [FxOf(x.packet, x.now)]
    ensures Process(s, x).jobs ==
      if x.now - s.windowStart < STATS_WINDOW_SECONDS then s.jobs
      else s.jobs + [JobFrom(x, window, flows, queries, activity, fx, s.windowStart, s.lastRulesSync)]
  {
    var r := Recorded(s, x.packet, x.now);
    assert s.queries + [] == s.queries;
    assert r.queries == queries;
    assert FlushDue(r, x.now) ==> Process(s, x).jobs == s.jobs + [JobOf(r, x)];
  }
}
