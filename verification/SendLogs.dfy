/** What the uploader sends, read off the log of sends alone: each executed job shows up as one report,
    part by part, and a report says everything in its job and nothing else. */
module SendLogs {
  import opened Machine
  import opened Telemetry
  import opened Uploader
  import opened UploaderTheorems
  import opened Transcripts

  // ----- Reports -----

  /** The parts of a report, in the order they go out. */
  datatype Part = TrafficPart | AlertPart | DnsPart | ClientsPart | ForensicsPart | HeartbeatPart | RulesetPart

  function PartOf(x: Send): Part {
    match x
    case SendTraffic(_, _, _) => TrafficPart
    case SendAlert(_, _, _, _) => AlertPart
    case SendDns(_, _, _) => DnsPart
    case SendClients(_, _) => ClientsPart
    case SendForensics(_) => ForensicsPart
    case SendHeartbeat => HeartbeatPart
    case FetchRuleset => RulesetPart
  }

  function Place(p: Part): nat {
    match p
    case TrafficPart => 0
    case AlertPart => 1
    case DnsPart => 2
    case ClientsPart => 3
    case ForensicsPart => 4
    case HeartbeatPart => 5
    case RulesetPart => 6
  }

  /** The sends of one part, in order. */
  function Only(sends: seq<Send>, part: Part): seq<Send> {
    if |sends| == 0 then []
    else if PartOf(sends[0]) == part then [sends[0]] + Only(sends[1..], part)
    else Only(sends[1..], part)
  }

  predicate InOrder(sends: seq<Send>) {
    forall i, j :: 0 <= i < j < |sends| ==> Place(PartOf(sends[i])) <= Place(PartOf(sends[j]))
  }

  /** One send for each alert of the job, in order, with the flow that goes with it. */
  predicate AlertsSent(sends: seq<Send>, job: UploadJob) {
    |sends| == |job.alerts| &&
    forall a :: 0 <= a < |sends| ==>
      sends[a].SendAlert? && sends[a].alert == job.alerts[a] &&
      sends[a].flow == (if a < |job.alertFlows| then job.alertFlows[a] else None) &&
      sends[a].windowSeconds == job.windowSeconds && sends[a].timestamp == job.timestamp
  }

  /** These sends report the job: its totals, each alert with its flow, its queries, clients and samples
      if there are any, a heartbeat, and a ruleset request if one is due, in this order. */
  predicate Reports(sends: seq<Send>, job: UploadJob) {
    InOrder(sends) &&
    Only(sends, TrafficPart) == [SendTraffic(job.stats, job.windowSeconds, job.timestamp)] &&
    AlertsSent(Only(sends, AlertPart), job) &&
    Only(sends, DnsPart) ==
      (if job.dnsEvents != [] then [SendDns(job.dnsEvents, job.windowSeconds, job.timestamp)] else []) &&
    Only(sends, ClientsPart) == (if job.clients != [] then [SendClients(job.clients, job.timestamp)] else []) &&
    Only(sends, ForensicsPart) == (if job.fxPackets != [] then [SendForensics(job.fxPackets)] else []) &&
    Only(sends, HeartbeatPart) == [SendHeartbeat] &&
    Only(sends, RulesetPart) == (if job.syncRuleset then [FetchRuleset] else [])
  }

  lemma {:induction false} OnlyConcat(a: seq<Send>, b: seq<Send>, part: Part)
    ensures Only(a + b, part) == Only(a, part) + Only(b, part)
  {
    if |a| == 0 {
      assert a + b == b;
    } else {
      assert (a + b)[1..] == a[1..] + b;
      OnlyConcat(a[1..], b, part);
    }
  }

  /** Sends that are all of one part. */
  predicate AllOf(sends: seq<Send>, part: Part) {
    forall i :: 0 <= i < |sends| ==> PartOf(sends[i]) == part
  }

  lemma {:induction false} OnlyAll(sends: seq<Send>, own: Part, part: Part)
    requires AllOf(sends, own)
    ensures Only(sends, part) == if own == part then sends else []
  {
    if |sends| > 0 {
      OnlyAll(sends[1..], own, part);
      assert [sends[0]] + sends[1..] == sends;
    }
  }

  /** These sends are of parts up to the given one, in order, and none of them of a later part. */
  predicate UpTo(sends: seq<Send>, last: Part) {
    InOrder(sends) && forall i :: 0 <= i < |sends| ==> Place(PartOf(sends[i])) <= Place(last)
  }

  /** Appending the sends of a later part. */
  lemma AppendPart(sends: seq<Send>, last: Part, more: seq<Send>, own: Part)
    requires UpTo(sends, last) && AllOf(more, own) && Place(last) < Place(own)
    ensures UpTo(sends + more, own)
  {
  }

  /** Running a job reports it. */
  lemma JobReported(job: UploadJob)
    ensures Reports(SendsOf(true, job), job)
  {
    AlertsAreSent(job);
    var traffic := [SendTraffic(job.stats, job.windowSeconds, job.timestamp)];
    var dns := if job.dnsEvents != [] then [SendDns(job.dnsEvents, job.windowSeconds, job.timestamp)] else [];
    var clients := if job.clients != [] then [SendClients(job.clients, job.timestamp)] else [];
    var samples := if job.fxPackets != [] then [SendForensics(job.fxPackets)] else [];
    var rules := if job.syncRuleset then [FetchRuleset] else [];
    PartsInOrder(traffic, AlertSends(job), dns, clients, samples, [SendHeartbeat], rules);
    assert SendsOf(true, job) == Seven(traffic, AlertSends(job), dns, clients, samples, [SendHeartbeat], rules);
    forall part {
      PartsApart(traffic, AlertSends(job), dns, clients, samples, [SendHeartbeat], rules, part);
    }
  }

  lemma AlertsAreSent(job: UploadJob)
    ensures AllOf(AlertSends(job), AlertPart) && AlertsSent(AlertSends(job), job)
  {
  }

  function Seven(t: seq<Send>, a: seq<Send>, d: seq<Send>, c: seq<Send>, f: seq<Send>, h: seq<Send>,
                 r: seq<Send>): seq<Send>
  {
    t + a + d + c + f + h + r
  }

  predicate OwnParts(t: seq<Send>, a: seq<Send>, d: seq<Send>, c: seq<Send>, f: seq<Send>, h: seq<Send>, r: seq<Send>) {
    AllOf(t, TrafficPart) && AllOf(a, AlertPart) && AllOf(d, DnsPart) && AllOf(c, ClientsPart) &&
    AllOf(f, ForensicsPart) && AllOf(h, HeartbeatPart) && AllOf(r, RulesetPart)
  }

  lemma PartsInOrder(t: seq<Send>, a: seq<Send>, d: seq<Send>, c: seq<Send>, f: seq<Send>, h: seq<Send>, r: seq<Send>)
    requires OwnParts(t, a, d, c, f, h, r)
    ensures InOrder(Seven(t, a, d, c, f, h, r))
  {
    AppendPart(t, TrafficPart, a, AlertPart);
    AppendPart(t + a, AlertPart, d, DnsPart);
    AppendPart(t + a + d, DnsPart, c, ClientsPart);
    AppendPart(t + a + d + c, ClientsPart, f, ForensicsPart);
    AppendPart(t + a + d + c + f, ForensicsPart, h, HeartbeatPart);
    AppendPart(t + a + d + c + f + h, HeartbeatPart, r, RulesetPart);
  }

  lemma PartsApart(t: seq<Send>, a: seq<Send>, d: seq<Send>, c: seq<Send>, f: seq<Send>, h: seq<Send>, r: seq<Send>,
                   part: Part)
    requires OwnParts(t, a, d, c, f, h, r)
    ensures Only(Seven(t, a, d, c, f, h, r), part) ==
      match part
      case TrafficPart => t
      case AlertPart => a
      case DnsPart => d
      case ClientsPart => c
      case ForensicsPart => f
      case HeartbeatPart => h
      case RulesetPart => r
  {
    OnlySeven(t, a, d, c, f, h, r, part);
    OnlyAll(t, TrafficPart, part);
    OnlyAll(a, AlertPart, part);
    OnlyAll(d, DnsPart, part);
    OnlyAll(c, ClientsPart, part);
    OnlyAll(f, ForensicsPart, part);
    OnlyAll(h, HeartbeatPart, part);
    OnlyAll(r, RulesetPart, part);
  }

  lemma OnlySeven(t: seq<Send>, a: seq<Send>, d: seq<Send>, c: seq<Send>, f: seq<Send>, h: seq<Send>, r: seq<Send>,
                  part: Part)
    ensures Only(Seven(t, a, d, c, f, h, r), part) == Only(t, part) + Only(a, part) + Only(d, part) + Only(c, part) +
      Only(f, part) + Only(h, part) + Only(r, part)
  {
    OnlyConcat(t, a, part);
    OnlyConcat(t + a, d, part);
    OnlyConcat(t + a + d, c, part);
    OnlyConcat(t + a + d + c, f, part);
    OnlyConcat(t + a + d + c + f, h, part);
    OnlyConcat(t + a + d + c + f + h, r, part);
  }

  // ----- The log is one report after another -----

  function Reporting(): Judge<Send, UploadJob> {
    (sends: seq<Send>, job: UploadJob) => Reports(sends, job)
  }

  function TakenJobs(q: Queue, n: nat): (jobs: seq<UploadJob>)
    requires n <= |q.taken| && TakenWereAccepted(q)
    ensures |jobs| == n && forall j :: 0 <= j < n ==> jobs[j] == q.accepted[q.taken[j]]
  {
    seq(n, j requires 0 <= j < n => q.accepted[q.taken[j]])
  }

  lemma TakenSnoc(q: Queue, n: nat)
    requires 0 < n <= |q.taken| && TakenWereAccepted(q)
    ensures TakenJobs(q, n) == TakenJobs(q, n - 1) + [q.accepted[q.taken[n - 1]]]
  {
  }

  lemma {:induction false} TakenReported(q: Queue, n: nat) returns (cuts: seq<nat>)
    requires n <= |q.taken| && TakenWereAccepted(q)
    ensures AllReported(Reporting(), SendsOfTaken(true, q, n), cuts, TakenJobs(q, n))
    decreases n
  {
    cuts := [0];
    if n > 0 {
      var before := TakenReported(q, n - 1);
      var sent, job := SendsOfTaken(true, q, n - 1), q.accepted[q.taken[n - 1]];
      JobReported(job);
      OneMoreReport(Reporting(), sent, before, TakenJobs(q, n - 1), SendsOf(true, job), job);
      TakenSnoc(q, n);
      cuts := before + [|sent + SendsOf(true, job)|];
    }
  }

  lemma {:induction false} NothingSent(q: Queue, n: nat)
    requires n <= |q.taken| && TakenWereAccepted(q)
    ensures SendsOfTaken(false, q, n) == []
  {
    if n > 0 {
      NothingSent(q, n - 1);
    }
  }

  /** What one state of the uploader has sent: with a device id the reports of the executed jobs, each
      whole and in order, then the beginning of the report of the job in flight; without one nothing. */
  ghost predicate LogTells(s: Uploader.State, cuts: seq<nat>) {
    var q, m := s.queue, Executed(s);
    TakenWereAccepted(q) && 0 <= m <= |q.taken| &&
    (!s.ready ==> s.sent == []) &&
    (s.ready && !InFlight(s.consumer) ==> AllReported(Reporting(), s.sent, cuts, TakenJobs(q, m))) &&
    (s.ready && InFlight(s.consumer) ==>
      m < |q.taken| && FlightReported(Reporting(), s.sent, cuts, TakenJobs(q, m), q.accepted[q.taken[m]]))
  }

  lemma FlightSent(s: Uploader.State) returns (done: nat)
    requires SendLog(s) && InFlight(s.consumer)
    ensures |s.queue.taken| > 0 && s.consumer.job == s.queue.accepted[s.queue.taken[|s.queue.taken| - 1]]
    ensures done <= |SendsOf(s.ready, s.consumer.job)| &&
      s.sent == SendsOfTaken(s.ready, s.queue, |s.queue.taken| - 1) + SendsOf(s.ready, s.consumer.job)[..done]
  {
    done := if s.consumer.Sending? then s.consumer.done else 0;
  }

  lemma NextBegun(q: Queue, m: nat, job: UploadJob, done: nat) returns (cuts: seq<nat>)
    requires m <= |q.taken| && TakenWereAccepted(q) && done <= |SendsOf(true, job)|
    ensures var sent := SendsOfTaken(true, q, m) + SendsOf(true, job)[..done];
      FlightReported(Reporting(), sent, cuts, TakenJobs(q, m), job)
  {
    cuts := TakenReported(q, m);
    JobReported(job);
    PartOfNext(Reporting(), SendsOfTaken(true, q, m), cuts, TakenJobs(q, m), SendsOf(true, job), done, job);
  }

  lemma FlightLog(s: Uploader.State) returns (cuts: seq<nat>)
    requires SendLog(s) && InFlight(s.consumer)
    ensures LogTells(s, cuts)
  {
    cuts := [];
    var q, m, job := s.queue, |s.queue.taken| - 1, s.consumer.job;
    var done := FlightSent(s);
    if s.ready {
      cuts := NextBegun(q, m, job, done);
    } else {
      NothingSent(q, m);
    }
  }

  lemma RestLog(s: Uploader.State) returns (cuts: seq<nat>)
    requires SendLog(s) && !InFlight(s.consumer)
    ensures LogTells(s, cuts)
  {
    cuts := [];
    if s.ready {
      cuts := TakenReported(s.queue, |s.queue.taken|);
    } else {
      NothingSent(s.queue, |s.queue.taken|);
    }
  }

  /** In every reachable state of every interleaving. */
  lemma SentReports(start: Uploader.State, actions: seq<Action>, n: nat) returns (cuts: seq<nat>)
    requires Uploader.Initial(start) && n <= |actions|
    ensures LogTells(Uploader.Run(start, actions, n), cuts)
  {
    ReachableInv(start, actions, n);
    var s := Uploader.Run(start, actions, n);
    if InFlight(s.consumer) {
      cuts := FlightLog(s);
    } else {
      cuts := RestLog(s);
    }
  }
}
