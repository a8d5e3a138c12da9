/** The capture run and the uploader together: what goes out is the sends of the flushes' jobs, in
    order, without the dropped ones. */
module DeliveredJobs {
  import opened Telemetry
  import opened CaptureLoop
  import opened CaptureRuns
  import opened FlushContents
  import opened Uploader
  import opened UploaderTheorems

  /** The jobs of the flushes among the first `n` packets. */
  function JobsTo(xs: seq<Sighting>, t0: int, r0: int, n: nat): seq<UploadJob>
    requires n <= |xs|
  {
    if n == 0 then []
    else if FlushAt(xs, t0, n - 1) then JobsTo(xs, t0, r0, n - 1) + [JobAt(xs, t0, r0, n - 1)]
    else JobsTo(xs, t0, r0, n - 1)
  }

  lemma {:induction false} RunJobs(t0: int, r0: int, xs: seq<Sighting>, n: nat)
    requires n <= |xs|
    ensures CaptureRuns.Run(CaptureLoop.Initial(t0, r0), xs, n).jobs == JobsTo(xs, t0, r0, n)
    decreases n
  {
    if n > 0 {
      RunJobs(t0, r0, xs, n - 1);
      FlushJob(t0, r0, xs, n - 1);
    }
  }

  /** The sends of the picked jobs, in order. */
  function SendsAt(ready: bool, jobs: seq<UploadJob>, picked: seq<nat>, n: nat): seq<Send>
    requires n <= |picked| && forall i :: 0 <= i < |picked| ==> picked[i] < |jobs|
  {
    if n == 0 then [] else SendsAt(ready, jobs, picked, n - 1) + SendsOf(ready, jobs[picked[n - 1]])
  }

  lemma {:induction false} SameSends(ready: bool, q: Queue, jobs: seq<UploadJob>, n: nat)
    requires n <= |q.taken| && TakenWereAccepted(q) && q.accepted <= jobs
    ensures SendsOfTaken(ready, q, n) == SendsAt(ready, jobs, q.taken, n)
    decreases n
  {
    if n > 0 {
      SameSends(ready, q, jobs, n - 1);
    }
  }

  /** `picked` runs upwards through `jobs` and, below `front`, misses exactly the dropped ones. */
  predicate AllBut(picked: seq<nat>, dropped: seq<nat>, front: int) {
    (forall i, j :: 0 <= i < j < |picked| ==> picked[i] < picked[j]) &&
    (forall i :: 0 <= i < |picked| ==> picked[i] < front && picked[i] !in dropped) &&
    (forall k: nat :: k < front && k !in dropped ==> k in picked)
  }

  /** What one state of the uploader has made of these jobs. */
  ghost predicate Delivered(s: Uploader.State, jobs: seq<UploadJob>) {
    var q := s.queue;
    q.accepted <= jobs && q.count <= |q.accepted| && AllBut(q.taken, q.lost, Front(q)) &&
    (forall i :: 0 <= i < |q.taken| ==> q.taken[i] < |jobs|) &&
    (!InFlight(s.consumer) ==> s.sent == SendsAt(s.ready, jobs, q.taken, |q.taken|)) &&
    (InFlight(s.consumer) ==>
      |q.taken| > 0 && SendsAt(s.ready, jobs, q.taken, |q.taken| - 1) <= s.sent &&
      s.sent <= SendsAt(s.ready, jobs, q.taken, |q.taken|))
  }

  lemma SentSoFar(s: Uploader.State)
    requires Inv(s)
    ensures var q := s.queue;
      (!InFlight(s.consumer) ==> s.sent == SendsOfTaken(s.ready, q, |q.taken|)) &&
      (InFlight(s.consumer) ==>
        |q.taken| > 0 && SendsOfTaken(s.ready, q, |q.taken| - 1) <= s.sent <= SendsOfTaken(s.ready, q, |q.taken|))
  {
    var q := s.queue;
    if s.consumer.Sending? {
      var all, before := SendsOf(s.ready, s.consumer.job), SendsOfTaken(s.ready, q, |q.taken| - 1);
      assert SendsOfTaken(s.ready, q, |q.taken|) == before + all;
      Prefixes(before, all, s.consumer.done);
    } else if s.consumer.Unlocking? {
      Prefixes(SendsOfTaken(s.ready, q, |q.taken| - 1), SendsOf(s.ready, s.consumer.job), 0);
    }
  }

  lemma Prefixes<T>(before: seq<T>, all: seq<T>, done: nat)
    requires done <= |all|
    ensures before <= before + all[..done] <= before + all && before + all[..0] == before
  {
  }

  lemma StateDelivers(s: Uploader.State, jobs: seq<UploadJob>)
    requires Inv(s) && s.queue.accepted <= jobs
    ensures Delivered(s, jobs)
  {
    var q := s.queue;
    SentSoFar(s);
    SameSends(s.ready, q, jobs, |q.taken|);
    if |q.taken| > 0 {
      SameSends(s.ready, q, jobs, |q.taken| - 1);
    }
  }

  lemma LedgerPrefix(s: Uploader.State, submitted: seq<UploadJob>)
    requires Ledger(s, submitted)
    ensures s.queue.accepted <= submitted
    ensures !s.consumer.Unborn? && Pending(s.producer) == [] ==> s.queue.accepted == submitted
  {
  }

  /** Once the thread exists and no submission is under way, every job has been accepted. */
  ghost predicate Settled(s: Uploader.State, jobs: seq<UploadJob>) {
    !s.consumer.Unborn? && Pending(s.producer) == [] ==> s.queue.accepted == jobs
  }

  lemma SubmissionsDelivered(start: Uploader.State, actions: seq<Action>, n: nat, jobs: seq<UploadJob>)
    requires Uploader.Initial(start) && n <= |actions| && Submissions(start, actions, n) == jobs
    ensures Delivered(Uploader.Run(start, actions, n), jobs) && Settled(Uploader.Run(start, actions, n), jobs)
  {
    var s := Uploader.Run(start, actions, n);
    ReachableInv(start, actions, n);
    AcceptedAreSubmissions(start, actions, n);
    LedgerPrefix(s, jobs);
    StateDelivers(s, jobs);
  }

  /** The uploader was handed the jobs of a capture run, and they have been delivered as far as they
      have. */
  ghost predicate RunDelivered(t0: int, r0: int, xs: seq<Sighting>, s: Uploader.State) {
    var jobs := JobsTo(xs, t0, r0, |xs|);
    Delivered(s, jobs) && Settled(s, jobs)
  }

  lemma RunDeliveredBy(t0: int, r0: int, xs: seq<Sighting>, s: Uploader.State, jobs: seq<UploadJob>)
    requires jobs == JobsTo(xs, t0, r0, |xs|)
    ensures Delivered(s, jobs) && Settled(s, jobs) ==> RunDelivered(t0, r0, xs, s)
  {
  }

  /** Whatever the interleaving: when the jobs submitted to the uploader are those of a capture run,
      everything sent is the sends of the jobs of its flushes, in order and whole, without those that
      were dropped, then part of the job in flight. */
  lemma FlushJobsDelivered(t0: int, r0: int, xs: seq<Sighting>, start: Uploader.State, actions: seq<Action>, n: nat)
    requires Uploader.Initial(start) && n <= |actions|
    requires Submissions(start, actions, n) == CaptureRuns.Run(CaptureLoop.Initial(t0, r0), xs, |xs|).jobs
    ensures RunDelivered(t0, r0, xs, Uploader.Run(start, actions, n))
  {
    var jobs := Submissions(start, actions, n);
    RunJobs(t0, r0, xs, |xs|);
    SubmissionsDelivered(start, actions, n, jobs);
    RunDeliveredBy(t0, r0, xs, Uploader.Run(start, actions, n), jobs);
  }
}
