/** From the packets to what the uploader sends: when it was handed the jobs of a capture run, the log is
    the reports of flushes, and every alert in it goes out with the flow the packets call for. */
module SentAlerts {
  import opened Machine
  import opened Packets
  import opened AnomalyDetector
  import opened Telemetry
  import opened CaptureLoop
  import opened CaptureRuns
  import opened AlertTheorems
  import opened BusiestFlows
  import opened FlushContents
  import opened FlushMeaning
  import opened Uploader
  import opened UploaderTheorems
  import opened DeliveredJobs
  import opened SendLogs
  import opened UploadRings

  /** The uploader was handed the jobs of this capture run, at the first `n` actions. */
  ghost predicate Handed(t0: int, r0: int, xs: seq<Sighting>, start: Uploader.State, actions: seq<Action>, n: nat) {
    Uploader.Initial(start) && n <= |actions| &&
    Submissions(start, actions, n) == CaptureRuns.Run(CaptureLoop.Initial(t0, r0), xs, |xs|).jobs
  }

  function Flushing(xs: seq<Sighting>, t0: int): nat -> bool {
    (i: nat) => i < |xs| && FlushAt(xs, t0, i)
  }

  function JobMaker(xs: seq<Sighting>, t0: int, r0: int): nat -> UploadJob {
    (i: nat) => if i < |xs| then JobAt(xs, t0, r0, i) else NO_JOB
  }

  lemma {:induction false} JobsCollected(xs: seq<Sighting>, t0: int, r0: int, n: nat)
    requires n <= |xs|
    ensures JobsTo(xs, t0, r0, n) == Collected(Flushing(xs, t0), JobMaker(xs, t0, r0), n)
    decreases n
  {
    if n > 0 {
      JobsCollected(xs, t0, r0, n - 1);
      assert Flushing(xs, t0)(n - 1) <==> FlushAt(xs, t0, n - 1);
      assert JobMaker(xs, t0, r0)(n - 1) == JobAt(xs, t0, r0, n - 1);
    }
  }

  /** The taken jobs are those of the flushes at these packets, one after another. */
  ghost predicate FlushesSent(xs: seq<Sighting>, t0: int, r0: int, q: Queue, flushes: seq<nat>) {
    TakenWereAccepted(q) && |flushes| == |q.taken| &&
    (forall i, j :: 0 <= i < j < |flushes| ==> flushes[i] < flushes[j]) &&
    forall j :: 0 <= j < |flushes| ==>
      flushes[j] < |xs| && FlushAt(xs, t0, flushes[j]) && q.accepted[q.taken[j]] == JobAt(xs, t0, r0, flushes[j])
  }

  lemma TakenAreFlushes(xs: seq<Sighting>, t0: int, r0: int, q: Queue) returns (flushes: seq<nat>)
    requires Fates(q) && q.count <= |q.accepted| && q.accepted <= JobsTo(xs, t0, r0, |xs|)
    ensures FlushesSent(xs, t0, r0, q, flushes)
  {
    var ok, make := Flushing(xs, t0), JobMaker(xs, t0, r0);
    JobsCollected(xs, t0, r0, |xs|);
    IndicesInOrder(ok, |xs|);
    CollectedAt(ok, make, |xs|);
    flushes := PickAt(Indices(ok, |xs|), Collected(ok, make, |xs|), make, q.taken, q.accepted);
    forall j | 0 <= j < |flushes| ensures flushes[j] < |xs| && FlushAt(xs, t0, flushes[j]) {
      assert ok(flushes[j]);
    }
  }

  lemma PickAt(ks: seq<nat>, jobs: seq<UploadJob>, make: nat -> UploadJob, taken: seq<nat>, accepted: seq<UploadJob>)
      returns (flushes: seq<nat>)
    requires |ks| == |jobs| && forall k :: 0 <= k < |ks| ==> jobs[k] == make(ks[k])
    requires accepted <= jobs && forall j :: 0 <= j < |taken| ==> taken[j] < |accepted|
    ensures |flushes| == |taken|
    ensures forall j :: 0 <= j < |taken| ==> flushes[j] == ks[taken[j]] && accepted[taken[j]] == make(flushes[j])
  {
    flushes := seq(|taken|, j requires 0 <= j < |taken| => ks[taken[j]]);
  }

  lemma HandedFlushes(t0: int, r0: int, xs: seq<Sighting>, start: Uploader.State, actions: seq<Action>, n: nat)
      returns (flushes: seq<nat>)
    requires Handed(t0, r0, xs, start, actions, n)
    ensures FlushesSent(xs, t0, r0, Uploader.Run(start, actions, n).queue, flushes)
  {
    var s := Uploader.Run(start, actions, n);
    ReachableInv(start, actions, n);
    AcceptedAreSubmissions(start, actions, n);
    LedgerPrefix(s, Submissions(start, actions, n));
    RunJobs(t0, r0, xs, |xs|);
    flushes := TakenAreFlushes(xs, t0, r0, s.queue);
  }

  // ----- A send found in the log -----

  lemma {:induction false} FoundInPart(sends: seq<Send>, x: Send)
    requires x in sends
    ensures x in Only(sends, PartOf(x))
  {
    if sends[0] != x {
      assert x in sends[1..];
      FoundInPart(sends[1..], x);
    }
  }

  lemma AlertFound(sends: seq<Send>, job: UploadJob, x: Send) returns (a: nat)
    requires Reports(sends, job) && x in sends && x.SendAlert?
    ensures a < |job.alerts| && x.alert == job.alerts[a] && x.timestamp == job.timestamp
    ensures x.flow == if a < |job.alertFlows| then job.alertFlows[a] else None
  {
    FoundInPart(sends, x);
    var alerts := Only(sends, AlertPart);
    a :| 0 <= a < |alerts| && alerts[a] == x;
  }

  lemma {:induction false} FoundInTaken(ready: bool, q: Queue, n: nat, x: Send) returns (k: nat)
    requires n <= |q.taken| && TakenWereAccepted(q) && x in SendsOfTaken(ready, q, n)
    ensures k < n && x in SendsOf(ready, q.accepted[q.taken[k]])
  {
    k := n - 1;
    if x !in SendsOf(ready, q.accepted[q.taken[n - 1]]) {
      k := FoundInTaken(ready, q, n - 1, x);
    }
  }

  lemma InEither(before: seq<Send>, more: seq<Send>, done: nat, x: Send)
    requires done <= |more|
    ensures x in before + more[..done] ==> x in before || x in more
  {
  }

  lemma FoundInFlight(s: Uploader.State, x: Send) returns (k: nat)
    requires SendLog(s) && InFlight(s.consumer) && x in s.sent
    ensures k < |s.queue.taken| && x in SendsOf(s.ready, s.queue.accepted[s.queue.taken[k]])
  {
    var q, m, job := s.queue, |s.queue.taken|, s.consumer.job;
    var before := SendsOfTaken(s.ready, q, m - 1);
    var done := FlightSent(s);
    InEither(before, SendsOf(s.ready, job), done, x);
    if x in before {
      k := FoundInTaken(s.ready, q, m - 1, x);
    } else {
      k := m - 1;
      assert q.accepted[q.taken[k]] == job;
    }
  }

  lemma FoundInJob(s: Uploader.State, x: Send) returns (k: nat)
    requires SendLog(s) && x in s.sent
    ensures k < |s.queue.taken| && x in SendsOf(s.ready, s.queue.accepted[s.queue.taken[k]])
  {
    if InFlight(s.consumer) {
      k := FoundInFlight(s, x);
    } else {
      k := FoundInTaken(s.ready, s.queue, |s.queue.taken|, x);
    }
  }

  /** Whatever is in the log belongs to the report of a job that was taken. */
  lemma FoundInLog(s: Uploader.State, x: Send) returns (k: nat, sends: seq<Send>)
    requires SendLog(s) && x in s.sent
    ensures k < |s.queue.taken| && x in sends && Reports(sends, s.queue.accepted[s.queue.taken[k]])
  {
    k := FoundInJob(s, x);
    sends := SendsOf(s.ready, s.queue.accepted[s.queue.taken[k]]);
    JobReported(s.queue.accepted[s.queue.taken[k]]);
  }

  // ----- Alerts -----

  /** The protocol a kind of alert is about; 0 stands for any. */
  function Watches(kind: Kind): u8 {
    match kind
    case UdpFloodSuspected => 17
    case TcpSpikeSuspected => 6
    case _ => 0
  }

  /** The flow sent with a threshold alert over this period is the busiest one of its protocol exactly
      when some busiest flow was among the first 2048. */
  ghost predicate FlowAsPromised(x: Send, period: seq<ParsedPacket>)
    requires x.SendAlert?
  {
    IsBusiest(x.flow, period, Watches(x.alert.kind)) <==> BusiestAdmitted(period, Watches(x.alert.kind))
  }

  lemma AlertWatches(xs: seq<Sighting>, t0: int, r0: int, i: nat, a: nat)
    requires i < |xs| && a < |JobAt(xs, t0, r0, i).alerts|
    ensures var job := JobAt(xs, t0, r0, i);
      |job.alerts| == |job.alertFlows| &&
      (job.alerts[a].kind != PortScanSuspected ==>
        ThresholdAlert(xs, t0, i, a) && AlertProtocol(xs, t0, i, a) == Watches(job.alerts[a].kind))
  {
    AlertsTell(xs, t0, r0, i);
    JobAlerts(xs, t0, r0, i);
  }

  /** Every alert in the log is one of the flush at some packet `i`, stamped with its time; a threshold
      alert carries the busiest flow of its protocol in that period exactly when a busiest flow was
      among the first 2048, a scan alert the scan. */
  lemma SentAlert(t0: int, r0: int, xs: seq<Sighting>, start: Uploader.State, actions: seq<Action>, n: nat, x: Send)
      returns (i: nat, a: nat)
    requires Handed(t0, r0, xs, start, actions, n)
    requires x in Uploader.Run(start, actions, n).sent && x.SendAlert?
    ensures i < |xs| && FlushAt(xs, t0, i) && x.timestamp == xs[i].now
    ensures a < |JobAt(xs, t0, r0, i).alerts| && x.alert == JobAt(xs, t0, r0, i).alerts[a]
    ensures x.alert.kind != PortScanSuspected && |Period(xs, t0, i)| < TWO64 ==> FlowAsPromised(x, Period(xs, t0, i))
    ensures x.alert.kind != PortScanSuspected && BusiestExpected(xs, t0, i, a) ==>
      IsBusiest(x.flow, Period(xs, t0, i), Watches(x.alert.kind))
    ensures x.alert.kind == PortScanSuspected ==> ScanReported(x.alert, x.flow, Period(xs, t0, i))
  {
    var s := Uploader.Run(start, actions, n);
    ReachableInv(start, actions, n);
    var k, sends := FoundInLog(s, x);
    var flushes := HandedFlushes(t0, r0, xs, start, actions, n);
    i := flushes[k];
    a := AlertFound(sends, JobAt(xs, t0, r0, i), x);
    SentFlow(xs, t0, r0, i, a);
  }

  lemma SentFlow(xs: seq<Sighting>, t0: int, r0: int, i: nat, a: nat)
    requires i < |xs| && a < |JobAt(xs, t0, r0, i).alerts|
    ensures var job, period := JobAt(xs, t0, r0, i), Period(xs, t0, i);
      |job.alertFlows| == |job.alerts| && job.timestamp == xs[i].now &&
      var kind, flow := job.alerts[a].kind, job.alertFlows[a];
      (kind != PortScanSuspected && |period| < TWO64 ==>
        (IsBusiest(flow, period, Watches(kind)) <==> BusiestAdmitted(period, Watches(kind)))) &&
      (kind != PortScanSuspected && BusiestExpected(xs, t0, i, a) ==> IsBusiest(flow, period, Watches(kind))) &&
      (kind == PortScanSuspected ==> ScanReported(job.alerts[a], flow, period))
  {
    var job := JobAt(xs, t0, r0, i);
    AlertWatches(xs, t0, r0, i, a);
    JobAlerts(xs, t0, r0, i);
    if job.alerts[a].kind == PortScanSuspected {
      ScanJustified(xs, t0, i, a);
    } else {
      if |Period(xs, t0, i)| < TWO64 {
        BusiestCarriedIff(xs, t0, i, a);
      }
      AlertsCarryBusiest(xs, t0, i, a);
    }
  }

  /** And conversely the log is, report after report, that of flushes of the run, in order: the reports
      of the executed jobs and the beginning of the one in flight. */
  lemma FlushesReported(t0: int, r0: int, xs: seq<Sighting>, start: Uploader.State, actions: seq<Action>, n: nat)
      returns (cuts: seq<nat>, flushes: seq<nat>)
    requires Handed(t0, r0, xs, start, actions, n)
    ensures var s := Uploader.Run(start, actions, n);
      LogTells(s, cuts) && FlushesSent(xs, t0, r0, s.queue, flushes)
  {
    cuts := SentReports(start, actions, n);
    flushes := HandedFlushes(t0, r0, xs, start, actions, n);
  }
}
