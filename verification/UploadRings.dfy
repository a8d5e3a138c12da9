/** The code inside the uploader's lock, in place on the four-slot array, and the sequence of sends
    of one job: the methods whose effects are the steps of the `Uploader` state machine. */
module UploadRings {
  import opened Machine
  import opened TrafficStats
  import opened Telemetry
  import opened Uploader

  const NO_JOB := UploadJob(ZERO, 0, 0, [], [], [], [], [], false)

  class UploadRing {
    const slots: array<UploadJob>
    var head: nat
    var count: nat
    var dropped: u32

    ghost var accepted: seq<UploadJob>
    ghost var taken: seq<nat>
    ghost var takenAt: seq<nat>
    ghost var lost: seq<nat>

    ghost function View(): Queue
      reads this, slots
    {
      Queue(slots[..], head, count, dropped, accepted, taken, takenAt, lost)
    }

    ghost predicate Valid()
      reads this, slots
    {
      HasSlots(View())
    }

    constructor ()
      ensures Valid() && fresh(slots) && count == 0 && dropped == 0
      ensures accepted == [] && taken == [] && takenAt == [] && lost == []
    {
      slots := new UploadJob[UPLOAD_QUEUE_CAPACITY](_ => NO_JOB);
      head, count, dropped := 0, 0, 0;
      accepted, taken, takenAt, lost := [], [], [], [];
    }

    /** A submission refused before the thread started; otherwise the oldest job makes room if need
        be and the new one goes to the tail. */
    method Submit(job: UploadJob, started: bool)
      requires Valid()
      modifies this, slots
      ensures Valid()
      ensures !started ==> View() == old(View())
      ensures started && old(count) < UPLOAD_QUEUE_CAPACITY ==> View() == WriteTail(old(View()), job)
      ensures started && old(count) == UPLOAD_QUEUE_CAPACITY ==> View() == WriteTail(DropOldest(old(View())), job)
    {
      if !started {
        return;
      }
      if count == UPLOAD_QUEUE_CAPACITY {
        lost := lost + [Max(0, Front(View()))];
        head := (head + 1) % UPLOAD_QUEUE_CAPACITY;
        count := count - 1;
        dropped := Wrap32(dropped + 1);
      }
      ghost var before := slots[..];
      var tail := (head + count) % UPLOAD_QUEUE_CAPACITY;
      slots[tail] := job;
      assert slots[..] == before[tail := job];
      count := count + 1;
      accepted := accepted + [job];
    }

    /** Takes the oldest job. */
    method Take() returns (job: UploadJob)
      requires Valid() && count > 0
      modifies this
      ensures Valid() && View() == Dequeue(old(View())) && job == old(slots[head])
    {
      taken, takenAt := taken + [Max(0, Front(View()))], takenAt + [|accepted|];
      job := slots[head];
      head := (head + 1) % UPLOAD_QUEUE_CAPACITY;
      count := count - 1;
    }
  }

  /** `run_job`, recording each send. */
  method RunJob(ready: bool, job: UploadJob) returns (sends: seq<Send>)
    ensures sends == SendsOf(ready, job)
  {
    if !ready {
      return [];
    }
    sends := [SendTraffic(job.stats, job.windowSeconds, job.timestamp)];
    ghost var first := sends;
    for i := 0 to |job.alerts|
      invariant sends == first + AlertSends(job)[..i]
    {
      var flow := if i < |job.alertFlows| then job.alertFlows[i] else None;
      sends := sends + [SendAlert(job.alerts[i], flow, job.windowSeconds, job.timestamp)];
      assert AlertSends(job)[..i + 1] == AlertSends(job)[..i] + [AlertSends(job)[i]];
    }
    assert sends == first + AlertSends(job);
    if |job.dnsEvents| > 0 {
      sends := sends + [SendDns(job.dnsEvents, job.windowSeconds, job.timestamp)];
    }
    if |job.clients| > 0 {
      sends := sends + [SendClients(job.clients, job.timestamp)];
    }
    if |job.fxPackets| > 0 {
      sends := sends + [SendForensics(job.fxPackets)];
    }
    sends := sends + [SendHeartbeat];
    if job.syncRuleset {
      sends := sends + [FetchRuleset];
    }
  }
}
