/** The alert theorems, about the jobs a run actually submits. */
module SubmittedAlerts {
  import opened Machine
  import opened FlowTables
  import opened ScanTheorems
  import opened AnomalyDetector
  import opened Telemetry
  import opened CaptureLoop
  import opened CaptureRuns
  import opened AlertTheorems
  import opened BusiestFlows
  import opened FlushContents

  /** The job submitted last in the run over the first `i + 1` packets. */
  ghost predicate Submits(t0: int, r0: int, xs: seq<Sighting>, i: nat, job: UploadJob)
    requires i < |xs|
  {
    FlushAt(xs, t0, i) && LastIs(CaptureRuns.Run(Initial(t0, r0), xs, i + 1).jobs, job)
  }

  lemma SubmittedRaised(t0: int, r0: int, xs: seq<Sighting>, i: nat, job: UploadJob)
    requires i < |xs| && Submits(t0, r0, xs, i, job)
    ensures Raised(job.alerts, job.alertFlows) == FlushRaised(xs, t0, i)
  {
    FlushJob(t0, r0, xs, i);
    JobAlerts(xs, t0, r0, i);
  }

  /** Alert `a` of a job goes out with a flow of its protocol. */
  predicate HasFlow(job: UploadJob, a: nat) {
    a < |job.alerts| && a < |job.alertFlows| && job.alertFlows[a].Some? &&
    OfProtocol(job.alertFlows[a].value, ProtocolForAlert(job.alerts[a].protocol))
  }

  /** A threshold alert goes out with the busiest flow of its protocol in the period exactly when a
      busiest flow was among the period's first 2048. */
  lemma SubmittedBusiestIff(t0: int, r0: int, xs: seq<Sighting>, i: nat, job: UploadJob, a: nat)
    requires i < |xs| && Submits(t0, r0, xs, i, job) && |Period(xs, t0, i)| < TWO64
    requires a < |job.alerts| && job.alerts[a].kind != PortScanSuspected
    ensures |job.alertFlows| == |job.alerts|
    ensures var protocol := ProtocolForAlert(job.alerts[a].protocol);
      IsBusiest(job.alertFlows[a], Period(xs, t0, i), protocol) <==> BusiestAdmitted(Period(xs, t0, i), protocol)
  {
    SubmittedRaised(t0, r0, xs, i, job);
    FlowCarriedIff(xs, t0, i, a);
    BusiestCarriedIff(xs, t0, i, a);
    assert ThresholdAlert(xs, t0, i, a);
  }

  /** Without overflow and with an untorn threshold it always does. */
  lemma SubmittedBusiest(t0: int, r0: int, xs: seq<Sighting>, i: nat, job: UploadJob, a: nat)
    requires i < |xs| && Submits(t0, r0, xs, i, job) && |Period(xs, t0, i)| < TWO64 && ClockForward(xs, t0)
    requires a < |job.alerts| && job.alerts[a].kind != PortScanSuspected
    requires !FlowsOverflowed(Period(xs, t0, i), FLOW_TABLE_CAPACITY) && UntornFor(job.alerts[a], xs[i].thresholds)
    ensures |job.alertFlows| == |job.alerts|
    ensures IsBusiest(job.alertFlows[a], Period(xs, t0, i), ProtocolForAlert(job.alerts[a].protocol))
  {
    SubmittedRaised(t0, r0, xs, i, job);
    FlowCarriedIff(xs, t0, i, a);
    assert BusiestExpected(xs, t0, i, a);
    AlertsCarryBusiest(xs, t0, i, a);
  }

  /** Some flow of its protocol goes out with an alert exactly when it is a scan alert, which names its
      own, or some packet of the period, of its protocol, got its flow into the table. */
  lemma SubmittedFlowIff(t0: int, r0: int, xs: seq<Sighting>, i: nat, job: UploadJob, a: nat)
    requires i < |xs| && Submits(t0, r0, xs, i, job) && a < |job.alerts|
    ensures HasFlow(job, a) <==>
      job.alerts[a].kind == PortScanSuspected ||
      FlowAdmitted(Period(xs, t0, i), ProtocolForAlert(job.alerts[a].protocol))
  {
    SubmittedRaised(t0, r0, xs, i, job);
    FlowCarriedIff(xs, t0, i, a);
  }

  /** Twelve ports of one host from one source in a period without overflow: the job says so. */
  lemma SubmittedScanDetected(t0: int, r0: int, xs: seq<Sighting>, i: nat, job: UploadJob, src: string, dst: string)
    requires i < |xs| && Submits(t0, r0, xs, i, job)
    requires !FlowsOverflowed(Period(xs, t0, i), FLOW_TABLE_CAPACITY)
    requires |PortsReached(Period(xs, t0, i), src, dst)| >= 12
    ensures HasScanAlert(job.alerts, |PortsReached(Period(xs, t0, i), src, dst)|)
  {
    SubmittedRaised(t0, r0, xs, i, job);
    ScanDetected(xs, t0, i, src, dst);
  }

  /** And a job that says so is right about source, destination and number. */
  lemma SubmittedScanJustified(t0: int, r0: int, xs: seq<Sighting>, i: nat, job: UploadJob, a: nat)
    requires i < |xs| && Submits(t0, r0, xs, i, job)
    requires a < |job.alerts| && job.alerts[a].kind == PortScanSuspected
    ensures a < |job.alertFlows| && ScanReported(job.alerts[a], job.alertFlows[a], Period(xs, t0, i))
  {
    SubmittedRaised(t0, r0, xs, i, job);
    FlowCarriedIff(xs, t0, i, a);
    ScanJustified(xs, t0, i, a);
  }
}
