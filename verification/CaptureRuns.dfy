/** Whole runs of the capture loop: how flushes are spaced, which packets each rolling snapshot
    holds, and how often a packet is counted. */
module CaptureRuns {
  import opened Machine
  import opened Packets
  import opened TrafficStats
  import opened PacketWindows
  import opened CaptureLoop
  import opened Telemetry

  type LoopBody = (State, Sighting) -> State

  function Body(): LoopBody {
    (s: State, x: Sighting) => Process(s, x)
  }

  /** The state after the first `n` accepted packets. */
  function Run(start: State, xs: seq<Sighting>, n: nat): State
    requires n <= |xs|
  {
    Fold<State, Sighting>(Body(), start, xs, n)
  }

  /** Rejected frames leave no trace: a run over frames is the run over its accepted packets. */
  lemma FramesRunAccepted(mode: FilterMode, start: State, h: seq<Arrival>, n: nat)
    requires n <= |h|
    ensures var xs := Chosen((a: Arrival) => Accept(mode, a), h, n);
      RunFrames(mode, start, h, n) == Run(start, xs, |xs|)
  {
    FoldChosen((a: Arrival) => Accept(mode, a), Body(), (s: State, a: Arrival) => Step(mode, s, a), start, h, n);
  }

  /** The sightings are what a list of frames, all accepted, amounts to. */
  predicate FromFrames(mode: FilterMode, h: seq<Arrival>, xs: seq<Sighting>) {
    |h| == |xs| && forall i :: 0 <= i < |h| ==> Accept(mode, h[i]) == Some(xs[i])
  }

  lemma FromFramesRun(mode: FilterMode, start: State, h: seq<Arrival>, xs: seq<Sighting>)
    requires FromFrames(mode, h, xs)
    ensures RunFrames(mode, start, h, |h|) == Run(start, xs, |xs|)
  {
    FramesRunAccepted(mode, start, h, |h|);
    ChosenAll((a: Arrival) => Accept(mode, a), h, xs, |h|);
    assert xs[..|h|] == xs;
  }

  // ----- Flushes -----

  /** Where the current flow period starts: just after the last flush. */
  function PeriodStart(xs: seq<Sighting>, t0: int, n: nat): (p: nat)
    requires n <= |xs|
    ensures p <= n
  {
    if n == 0 then 0 else if FlushAt(xs, t0, n - 1) then n else PeriodStart(xs, t0, n - 1)
  }

  /** `window_start` before packet `n` is handled. */
  function WindowStart(xs: seq<Sighting>, t0: int, n: nat): int
    requires n <= |xs|
    decreases n, 0
  {
    if n == 0 then t0 else if FlushAt(xs, t0, n - 1) then xs[n - 1].now else WindowStart(xs, t0, n - 1)
  }

  /** Packet `i` triggers a flush. */
  predicate FlushAt(xs: seq<Sighting>, t0: int, i: nat)
    requires i < |xs|
    decreases i, 1
  {
    xs[i].now - WindowStart(xs, t0, i) >= STATS_WINDOW_SECONDS
  }

  function Records(xs: seq<Sighting>): (h: seq<PktRecord>)
    ensures |h| == |xs|
  {
    seq(|xs|, i requires 0 <= i < |xs| => RecordOf(xs[i].packet, xs[i].now))
  }

  function PacketsFrom(xs: seq<Sighting>, lo: nat, hi: nat): (p: seq<ParsedPacket>)
    requires lo <= hi <= |xs|
    ensures |p| == hi - lo
  {
    seq(hi - lo, i requires 0 <= i < hi - lo => xs[lo + i].packet)
  }

  predicate Idle(start: State, t0: int) {
    |start.window| == 0 && |start.flows| == 0 && start.windowStart == t0 && |start.jobs| == 0
  }

  /** What one turn of the loop does to the tables the snapshots come from. */
  ghost predicate TurnOf(s: State, x: Sighting, t: State) {
    var due := x.now - s.windowStart >= STATS_WINDOW_SECONDS;
    t.windowStart == (if due then x.now else s.windowStart) &&
    t.flows == (if due then [] else s.flows + [x.packet]) &&
    t.window == Pushed(s.window, RecordOf(x.packet, x.now), PACKET_WINDOW_CAPACITY) &&
    (!due ==> t.jobs == s.jobs) &&
    (due ==> |t.jobs| == |s.jobs| + 1 && t.jobs[..|s.jobs|] == s.jobs &&
             t.jobs[|s.jobs|].stats == Totals(t.window))
  }

  lemma ProcessIsTurn(s: State, x: Sighting)
    ensures TurnOf(s, x, Process(s, x))
  {
  }

  /** What the tables hold after `n` packets, in terms of the packet sequence alone. */
  ghost predicate Holds(s: State, t0: int, xs: seq<Sighting>, n: nat) {
    n <= |xs| &&
    s.windowStart == WindowStart(xs, t0, n) &&
    s.flows == PacketsFrom(xs, PeriodStart(xs, t0, n), n) &&
    s.window == PacketWindows.Run(Records(xs), n, PACKET_WINDOW_CAPACITY)
  }

  lemma TurnHolds(s: State, t0: int, xs: seq<Sighting>, n: nat, t: State)
    requires n < |xs| && Holds(s, t0, xs, n) && TurnOf(s, xs[n], t)
    ensures Holds(t, t0, xs, n + 1)
  {
    TurnFlows(s.flows, xs, t0, n);
    TurnWindow(xs, n);
  }

  lemma TurnFlows(flows: seq<ParsedPacket>, xs: seq<Sighting>, t0: int, n: nat)
    requires n < |xs| && flows == PacketsFrom(xs, PeriodStart(xs, t0, n), n)
    ensures PacketsFrom(xs, PeriodStart(xs, t0, n + 1), n + 1)
         == if FlushAt(xs, t0, n) then [] else flows + [xs[n].packet]
  {
    assert PacketsFrom(xs, n + 1, n + 1) == [];
    var p := PeriodStart(xs, t0, n);
    assert PacketsFrom(xs, p, n) + [xs[n].packet] == PacketsFrom(xs, p, n + 1);
  }

  lemma TurnWindow(xs: seq<Sighting>, n: nat)
    requires n < |xs|
    ensures PacketWindows.Run(Records(xs), n + 1, PACKET_WINDOW_CAPACITY)
         == Pushed(PacketWindows.Run(Records(xs), n, PACKET_WINDOW_CAPACITY),
                   RecordOf(xs[n].packet, xs[n].now), PACKET_WINDOW_CAPACITY)
  {
    assert Records(xs)[n] == RecordOf(xs[n].packet, xs[n].now);
  }

  predicate ClockForward(xs: seq<Sighting>, t0: int) {
    (forall i :: 0 <= i < |xs| ==> t0 <= xs[i].now) &&
    (forall i, j :: 0 <= i <= j < |xs| ==> xs[i].now <= xs[j].now)
  }

  /** The window start is the time of the last flush, if there was one. */
  lemma {:induction false} WindowStartIsLastFlush(xs: seq<Sighting>, t0: int, n: nat)
    requires n <= |xs|
    ensures var p := PeriodStart(xs, t0, n);
      WindowStart(xs, t0, n) == (if p == 0 then t0 else xs[p - 1].now) &&
      (p > 0 ==> FlushAt(xs, t0, p - 1)) &&
      forall k :: p <= k < n ==> !FlushAt(xs, t0, k) && WindowStart(xs, t0, k) == WindowStart(xs, t0, n)
  {
    if n > 0 {
      WindowStartIsLastFlush(xs, t0, n - 1);
    }
  }

  /** A flush is at least five seconds after everything up to the previous flush, and strictly
      after every earlier packet. */
  lemma FlushIsLater(xs: seq<Sighting>, t0: int, k: nat, i: nat)
    requires k < i < |xs| && FlushAt(xs, t0, i) && ClockForward(xs, t0)
    ensures xs[k].now < xs[i].now
    ensures k < PeriodStart(xs, t0, i) ==> xs[k].now + STATS_WINDOW_SECONDS <= xs[i].now
  {
    WindowStartIsLastFlush(xs, t0, i);
    var p := PeriodStart(xs, t0, i);
    if k >= p {
      assert !FlushAt(xs, t0, k) && WindowStart(xs, t0, k) == WindowStart(xs, t0, i);
    } else {
      assert xs[k].now <= xs[p - 1].now;
    }
  }

  /** Packet `k` is in the rolling snapshot taken when packet `i` is handled. */
  predicate InSnapshot(xs: seq<Sighting>, k: nat, i: nat)
    requires k <= i < |xs|
  {
    PacketWindows.Start(Records(xs), i + 1, PACKET_WINDOW_CAPACITY) <= k
  }

  lemma RecordsOrdered(xs: seq<Sighting>, t0: int)
    requires ClockForward(xs, t0)
    ensures PacketWindows.ClockOrdered(Records(xs))
  {
  }

  /** A snapshot holds exactly the young enough packets among the last 16384. */
  lemma SnapshotMeaning(xs: seq<Sighting>, t0: int, k: nat, i: nat)
    requires k <= i < |xs| && ClockForward(xs, t0)
    ensures InSnapshot(xs, k, i) <==>
      xs[k].now >= xs[i].now - PACKET_WINDOW_SECONDS && i + 1 - k <= PACKET_WINDOW_CAPACITY
  {
    RecordsOrdered(xs, t0);
    StartIsWanted(Records(xs), i + 1, k, PACKET_WINDOW_CAPACITY);
  }

  /** Two consecutive rolling snapshots share at most one packet: the one that triggered the earlier
      flush, and that one exactly when the later flush comes five seconds after it and the window
      did not saturate in between. */
  lemma ConsecutiveSnapshotsShare(xs: seq<Sighting>, t0: int, k: nat, i: nat, j: nat)
    requires k <= i < j < |xs| && ClockForward(xs, t0)
    requires FlushAt(xs, t0, i) && FlushAt(xs, t0, j) && PeriodStart(xs, t0, j) == i + 1
    ensures InSnapshot(xs, k, j) <==>
      k == i && xs[j].now == xs[i].now + STATS_WINDOW_SECONDS && j - i < PACKET_WINDOW_CAPACITY
    ensures InSnapshot(xs, i, i)
  {
    SnapshotMeaning(xs, t0, k, j);
    SnapshotMeaning(xs, t0, i, i);
    FlushIsLater(xs, t0, i, j);
    if k < i {
      FlushIsLater(xs, t0, k, i);
    }
  }

  /** No packet is reported in three snapshots. */
  lemma NoThirdSnapshot(xs: seq<Sighting>, t0: int, k: nat, a: nat, b: nat, c: nat)
    requires k <= a < b < c < |xs| && ClockForward(xs, t0)
    requires FlushAt(xs, t0, a) && FlushAt(xs, t0, b) && FlushAt(xs, t0, c)
    ensures !InSnapshot(xs, k, c)
  {
    SnapshotMeaning(xs, t0, k, c);
    FlushSeparates(xs, t0, a, b);
    FlushSeparates(xs, t0, b, c);
  }

  lemma FlushSeparates(xs: seq<Sighting>, t0: int, a: nat, b: nat)
    requires a < b < |xs| && ClockForward(xs, t0) && FlushAt(xs, t0, a) && FlushAt(xs, t0, b)
    ensures xs[a].now + STATS_WINDOW_SECONDS <= xs[b].now
  {
    WindowStartIsLastFlush(xs, t0, b);
    assert a < PeriodStart(xs, t0, b);
    FlushIsLater(xs, t0, a, b);
  }

  // ----- Counting -----

  /** The window kept at a flush reaches back at most one packet before the flow period. */
  lemma SnapshotReach(xs: seq<Sighting>, t0: int, i: nat)
    requires i < |xs| && ClockForward(xs, t0) && FlushAt(xs, t0, i)
    ensures PacketWindows.Start(Records(xs), i + 1, PACKET_WINDOW_CAPACITY) + 1 >= PeriodStart(xs, t0, i)
  {
    var st, p := PacketWindows.Start(Records(xs), i + 1, PACKET_WINDOW_CAPACITY), PeriodStart(xs, t0, i);
    if st + 1 < p {
      WindowStartIsLastFlush(xs, t0, i);
      ConsecutiveSnapshotsShare(xs, t0, p - 2, p - 1, i);
      assert false;
    }
  }

  /** The packet count one flush reports: those since the last flush, and at most one more. */
  lemma FlushSize(window: seq<PktRecord>, t0: int, xs: seq<Sighting>, i: nat)
    requires i < |xs| && ClockForward(xs, t0) && FlushAt(xs, t0, i)
    requires window == PacketWindows.Run(Records(xs), i + 1, PACKET_WINDOW_CAPACITY)
    ensures var p := PeriodStart(xs, t0, i);
      Totals(window).totalPackets <= i + 1 - p + (if p > 0 then 1 else 0)
  {
    SnapshotReach(xs, t0, i);
    WindowSize(Records(xs), i + 1, PACKET_WINDOW_CAPACITY);
    TotalsBounded(window);
  }

  /** The totals of the snapshots taken at the flushes among the first `n` packets. */
  function Snapshots(xs: seq<Sighting>, t0: int, n: nat): (r: seq<Stats>)
    requires n <= |xs|
  {
    if n == 0 then []
    else if FlushAt(xs, t0, n - 1)
    then Snapshots(xs, t0, n - 1) + [Totals(PacketWindows.Run(Records(xs), n, PACKET_WINDOW_CAPACITY))]
    else Snapshots(xs, t0, n - 1)
  }

  function StatsOf(jobs: seq<UploadJob>): (r: seq<Stats>)
    ensures |r| == |jobs|
  {
    seq(|jobs|, i requires 0 <= i < |jobs| => jobs[i].stats)
  }

  ghost predicate HoldsSnapshots(s: State, t0: int, xs: seq<Sighting>, n: nat) {
    Holds(s, t0, xs, n) && StatsOf(s.jobs) == Snapshots(xs, t0, n)
  }

  lemma StartSnapshots(start: State, t0: int, xs: seq<Sighting>)
    requires Idle(start, t0)
    ensures HoldsSnapshots(start, t0, xs, 0)
  {
  }

  lemma StatsSnoc(before: seq<UploadJob>, after: seq<UploadJob>)
    requires |after| == |before| + 1 && after[..|before|] == before
    ensures StatsOf(after) == StatsOf(before) + [after[|before|].stats]
  {
    assert forall i :: 0 <= i < |before| ==> after[..|before|][i] == after[i];
  }

  lemma TurnSnapshots(s: State, t0: int, xs: seq<Sighting>, n: nat, t: State)
    requires n < |xs| && HoldsSnapshots(s, t0, xs, n) && TurnOf(s, xs[n], t)
    ensures HoldsSnapshots(t, t0, xs, n + 1)
  {
    TurnHolds(s, t0, xs, n, t);
    if FlushAt(xs, t0, n) {
      StatsSnoc(s.jobs, t.jobs);
    }
  }

  lemma ProcessSnapshots(s: State, t0: int, xs: seq<Sighting>, n: nat)
    requires n < |xs|
    ensures HoldsSnapshots(s, t0, xs, n) ==> HoldsSnapshots(Process(s, xs[n]), t0, xs, n + 1)
  {
    if HoldsSnapshots(s, t0, xs, n) {
      ProcessIsTurn(s, xs[n]);
      TurnSnapshots(s, t0, xs, n, Process(s, xs[n]));
    }
  }

  /** The snapshots submitted are those of the packet sequence. */
  lemma RunSnapshots(start: State, t0: int, xs: seq<Sighting>, n: nat)
    requires Idle(start, t0) && n <= |xs|
    ensures HoldsSnapshots(Run(start, xs, n), t0, xs, n)
  {
    StartSnapshots(start, t0, xs);
    var inv := (s: State, k: nat) => HoldsSnapshots(s, t0, xs, k);
    forall s: State, k: nat | k < n && inv(s, k) ensures inv(Body()(s, xs[k]), k + 1) {
      ProcessSnapshots(s, t0, xs, k);
    }
    FoldInvariant<State, Sighting>(Body(), start, xs, n, inv);
    assert inv(Run(start, xs, n), n);
  }

  /** In every reachable state the flow table covers the packets since the last flush, and the rolling
      window what its own history says. */
  lemma RunHolds(start: State, t0: int, xs: seq<Sighting>, n: nat)
    requires Idle(start, t0) && n <= |xs|
    ensures Holds(Run(start, xs, n), t0, xs, n)
  {
    RunSnapshots(start, t0, xs, n);
  }

  function TotalPackets(snapshots: seq<Stats>): int {
    if |snapshots| == 0 then 0
    else TotalPackets(snapshots[..|snapshots| - 1]) + snapshots[|snapshots| - 1].totalPackets
  }

  /** The packets reported so far, against the packets of completed flow periods. */
  lemma {:induction false} SnapshotsBounded(xs: seq<Sighting>, t0: int, n: nat)
    requires n <= |xs| && ClockForward(xs, t0)
    ensures var r, p := Snapshots(xs, t0, n), PeriodStart(xs, t0, n);
      (|r| == 0 <==> p == 0) && TotalPackets(r) <= p + Max(0, |r| - 1)
    decreases n
  {
    if n > 0 {
      SnapshotsBounded(xs, t0, n - 1);
      if FlushAt(xs, t0, n - 1) {
        FlushSize(PacketWindows.Run(Records(xs), n, PACKET_WINDOW_CAPACITY), t0, xs, n - 1);
        var r := Snapshots(xs, t0, n);
        assert r[..|r| - 1] == Snapshots(xs, t0, n - 1);
      }
    }
  }

  /** Over any run with a clock that never goes backwards, the packets reported in all snapshots
      are at most the packets processed plus one for every flush after the first. */
  lemma TotalsReportedBound(start: State, t0: int, xs: seq<Sighting>, n: nat)
    requires Idle(start, t0) && n <= |xs| && ClockForward(xs, t0)
    ensures var jobs := Run(start, xs, n).jobs;
      |jobs| > 0 ==> TotalPackets(StatsOf(jobs)) <= n + |jobs| - 1
  {
    RunSnapshots(start, t0, xs, n);
    SnapshotsBounded(xs, t0, n);
  }
}
