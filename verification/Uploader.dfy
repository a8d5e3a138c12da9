/** The upload hand-off as a state machine: the capture thread and the uploader thread share a
    four-slot ring, a mutex and a condition variable. One step is one lock operation, one condition
    operation, one locked update or one send; spurious wakeups are allowed everywhere. */
module Uploader {
  import opened Machine
  import opened TrafficStats
  import opened FlowTables
  import opened DnsWindows
  import opened ClientActivity
  import opened FxRings
  import opened AnomalyDetector
  import opened Telemetry
  import Ring

  const UPLOAD_QUEUE_CAPACITY: nat := 4

  // ----- What running a job sends -----

  datatype Send =
    | SendTraffic(stats: Stats, windowSeconds: int, timestamp: int)
    | SendAlert(alert: Alert, flow: Option<FlowEntry>, windowSeconds: int, timestamp: int)
    | SendDns(events: seq<DnsEvent>, windowSeconds: int, timestamp: int)
    | SendClients(clients: seq<ClientEntry>, timestamp: int)
    | SendForensics(packets: seq<FxPacket>)
    | SendHeartbeat
    | FetchRuleset

  function AlertSends(job: UploadJob): (s: seq<Send>)
    ensures |s| == |job.alerts|
  {
    seq(|job.alerts|, i requires 0 <= i < |job.alerts| =>
      SendAlert(job.alerts[i], if i < |job.alertFlows| then job.alertFlows[i] else None,
                job.windowSeconds, job.timestamp))
  }

  /** `run_job` as the list of its sends; a backend without a device id gets none. */
  function SendsOf(ready: bool, job: UploadJob): seq<Send> {
    if !ready then []
    else
      [SendTraffic(job.stats, job.windowSeconds, job.timestamp)] + AlertSends(job) +
      (if |job.dnsEvents| > 0 then [SendDns(job.dnsEvents, job.windowSeconds, job.timestamp)] else []) +
      (if |job.clients| > 0 then [SendClients(job.clients, job.timestamp)] else []) +
      (if |job.fxPackets| > 0 then [SendForensics(job.fxPackets)] else []) +
      [SendHeartbeat] +
      (if job.syncRuleset then [FetchRuleset] else [])
  }

  // ----- States -----

  datatype Consumer =
    | Unborn
    | Locking                             // about to take the lock at the top of the loop
    | Testing                             // holds the lock, about to test the wait condition
    | Sleeping                            // inside the wait, lock released
    | Waking                              // signalled or spuriously woken, must retake the lock
    | Unlocking(job: UploadJob)           // has dequeued, about to release the lock
    | Sending(job: UploadJob, done: nat)  // running the job
    | Quitting                            // saw the stop flag, about to release the lock
    | Exited

  datatype Producer =
    | Idle                             // before the start
    | Creating                         // running flag set, thread not created yet
    | Created                          // thread exists, started flag not set yet
    | NoThread                         // creation failed
    | Capturing                        // between calls
    | SubmitLocking(job: UploadJob)
    | SubmitTesting(job: UploadJob)    // holds the lock
    | SubmitWriting(job: UploadJob)    // holds the lock, room has been made
    | SubmitSignalling
    | SubmitUnlocking
    | StopLocking
    | StopMarking                      // holds the lock
    | StopSignalling
    | StopUnlocking
    | Joining
    | Stopped

  datatype Holder = Nobody | ByConsumer | ByProducer

  /** The ring, and the history of what went through it: every job accepted, the indices of dequeued
      jobs with the number accepted by then, and the indices of dropped jobs. */
  datatype Queue = Queue(
    slots: seq<UploadJob>, head: nat, count: nat, dropped: u32,
    accepted: seq<UploadJob>, taken: seq<nat>, takenAt: seq<nat>, lost: seq<nat>)

  /** The shared variables, both program counters, and everything sent so far. */
  datatype State = State(
    ready: bool, queue: Queue, running: bool, started: bool, lock: Holder,
    consumer: Consumer, producer: Producer, sent: seq<Send>)

  datatype Action =
    | ConsumerStep
    | SpuriousWake
    | ProducerStep
    | CreateFails
    | BeginSubmit(job: UploadJob)
    | BeginStop

  predicate HasSlots(q: Queue) {
    |q.slots| == UPLOAD_QUEUE_CAPACITY && q.head < UPLOAD_QUEUE_CAPACITY && q.count <= UPLOAD_QUEUE_CAPACITY
  }

  predicate Initial(s: State) {
    HasSlots(s.queue) && s.queue.count == 0 && s.queue.dropped == 0 &&
    s.queue.accepted == [] && s.queue.taken == [] && s.queue.takenAt == [] && s.queue.lost == [] &&
    !s.running && !s.started && s.lock == Nobody && s.consumer == Unborn && s.producer == Idle && s.sent == []
  }

  // ----- Steps -----

  predicate Enabled(s: State, a: Action) {
    match a
    case ConsumerStep =>
      (match s.consumer
       case Unborn | Sleeping | Exited => false
       case Locking | Waking => s.lock == Nobody
       case _ => true)
    case SpuriousWake => s.consumer == Sleeping
    case ProducerStep =>
      (match s.producer
       case NoThread | Capturing | Stopped => false
       case SubmitLocking(_) | StopLocking => s.lock == Nobody
       case Joining => s.consumer == Exited
       case _ => true)
    case CreateFails => s.producer == Creating
    case BeginSubmit(_) => s.producer == Capturing || s.producer == NoThread
    case BeginStop => s.producer == Capturing
  }

  /** The index of the oldest queued job among all accepted ones. */
  function Front(q: Queue): int {
    |q.accepted| - q.count
  }

  function Dequeue(q: Queue): Queue
    requires HasSlots(q) && q.count > 0
  {
    q.(head := (q.head + 1) % UPLOAD_QUEUE_CAPACITY, count := q.count - 1,
       taken := q.taken + [Max(0, Front(q))], takenAt := q.takenAt + [|q.accepted|])
  }

  function DropOldest(q: Queue): Queue
    requires HasSlots(q) && q.count == UPLOAD_QUEUE_CAPACITY
  {
    q.(head := (q.head + 1) % UPLOAD_QUEUE_CAPACITY, count := q.count - 1, dropped := Wrap32(q.dropped + 1),
       lost := q.lost + [Max(0, Front(q))])
  }

  function WriteTail(q: Queue, job: UploadJob): Queue
    requires HasSlots(q) && q.count < UPLOAD_QUEUE_CAPACITY
  {
    q.(slots := q.slots[(q.head + q.count) % UPLOAD_QUEUE_CAPACITY := job], count := q.count + 1,
       accepted := q.accepted + [job])
  }

  /** The test after waking: leave on the stop flag, sleep while there is nothing, else dequeue. */
  function TestQueue(s: State): State
    requires HasSlots(s.queue)
  {
    if s.running && s.queue.count == 0 then s.(lock := Nobody, consumer := Sleeping)
    else if !s.running then s.(consumer := Quitting)
    else s.(queue := Dequeue(s.queue), consumer := Unlocking(s.queue.slots[s.queue.head]))
  }

  function ConsumerNext(s: State): State
    requires HasSlots(s.queue)
  {
    match s.consumer
    case Locking => s.(lock := ByConsumer, consumer := Testing)
    case Waking => s.(lock := ByConsumer, consumer := Testing)
    case Testing => TestQueue(s)
    case Unlocking(job) => s.(lock := Nobody, consumer := Sending(job, 0))
    case Sending(job, done) =>
      if done < |SendsOf(s.ready, job)|
      then s.(sent := s.sent + [SendsOf(s.ready, job)[done]], consumer := Sending(job, done + 1))
      else s.(consumer := Locking)
    case Quitting => s.(lock := Nobody, consumer := Exited)
    case _ => s
  }

  /** Wakes the sleeper, if there is one. */
  function Signal(s: State): State {
    if s.consumer == Sleeping then s.(consumer := Waking) else s
  }

  function ProducerNext(s: State): State
    requires HasSlots(s.queue)
  {
    match s.producer
    case Idle => s.(running := true, producer := Creating)
    case Creating => s.(consumer := Locking, producer := Created)
    case Created => s.(started := true, producer := Capturing)
    case SubmitLocking(job) => s.(lock := ByProducer, producer := SubmitTesting(job))
    case SubmitTesting(job) =>
      if !s.started then s.(producer := SubmitUnlocking)
      else if s.queue.count == UPLOAD_QUEUE_CAPACITY
      then s.(queue := DropOldest(s.queue), producer := SubmitWriting(job))
      else s.(producer := SubmitWriting(job))
    case SubmitWriting(job) =>
      if s.queue.count < UPLOAD_QUEUE_CAPACITY
      then s.(queue := WriteTail(s.queue, job), producer := SubmitSignalling)
      else s
    case SubmitSignalling => Signal(s).(producer := SubmitUnlocking)
    case SubmitUnlocking => s.(lock := Nobody, producer := if s.started then Capturing else NoThread)
    case StopLocking => s.(lock := ByProducer, producer := StopMarking)
    case StopMarking => s.(running := false, producer := StopSignalling)
    case StopSignalling => Signal(s).(producer := StopUnlocking)
    case StopUnlocking => s.(lock := Nobody, producer := Joining)
    case Joining => s.(started := false, producer := Stopped)
    case _ => s
  }

  /** One step of either thread; an action that is not enabled changes nothing. */
  function Next(s: State, a: Action): (t: State)
    requires HasSlots(s.queue)
    ensures HasSlots(t.queue)
  {
    if !Enabled(s, a) then s
    else
      match a
      case ConsumerStep => ConsumerNext(s)
      case SpuriousWake => s.(consumer := Waking)
      case ProducerStep => ProducerNext(s)
      case CreateFails => s.(running := false, producer := NoThread)
      case BeginSubmit(job) => s.(producer := SubmitLocking(job))
      case BeginStop => s.(producer := StopLocking)
  }

  /** A step as a total function: no state reached from the start lacks its four slots. */
  function Turn(s: State, a: Action): State {
    if HasSlots(s.queue) then Next(s, a) else s
  }

  /** The state after the first `n` actions of an interleaving. */
  function Run(s: State, actions: seq<Action>, n: nat): State
    requires n <= |actions|
  {
    Fold((t: State, a: Action) => Turn(t, a), s, actions, n)
  }

  // ----- The invariant -----

  predicate ConsumerHolds(c: Consumer) {
    c.Testing? || c.Unlocking? || c.Quitting?
  }

  predicate ProducerHolds(p: Producer) {
    p.SubmitTesting? || p.SubmitWriting? || p.SubmitSignalling? || p.SubmitUnlocking? ||
    p.StopMarking? || p.StopSignalling? || p.StopUnlocking?
  }

  predicate Stopping(p: Producer) {
    p.StopSignalling? || p.StopUnlocking? || p.Joining? || p.Stopped?
  }

  predicate BeforeThread(p: Producer) {
    p.Idle? || p.Creating?
  }

  /** Mutual exclusion, and what each program counter says about the flags. */
  predicate Control(s: State) {
    (s.lock == ByConsumer <==> ConsumerHolds(s.consumer)) &&
    (s.lock == ByProducer <==> ProducerHolds(s.producer)) &&
    (BeforeThread(s.producer) ==> s.consumer.Unborn?) &&
    (s.consumer.Unborn? ==> !s.started && !Stopping(s.producer)) &&
    (s.producer.Capturing? || s.producer.StopLocking? || s.producer.StopMarking? ==> s.started) &&
    (Stopping(s.producer) ==> !s.running) &&
    (s.producer.Creating? ==> s.running) &&
    (!s.consumer.Unborn? && !Stopping(s.producer) ==> s.running) &&
    (s.producer.SubmitWriting? || s.producer.SubmitSignalling? ==> s.started) &&
    (s.producer.SubmitWriting? ==> s.queue.count < UPLOAD_QUEUE_CAPACITY) &&
    (s.producer.Created? || s.producer.Capturing? || s.started ==> !s.consumer.Unborn?) &&
    (s.producer.Stopped? ==> s.consumer.Exited?) &&
    (s.consumer.Quitting? || s.consumer.Exited? ==> !s.running)
  }

  /** The ring holds the most recently accepted jobs, oldest first. */
  predicate QueueIsSuffix(q: Queue) {
    HasSlots(q) && q.count <= |q.accepted| &&
    Ring.Items(q.slots, q.head, q.count) == q.accepted[|q.accepted| - q.count..]
  }

  predicate Increasing(k: seq<nat>, bound: int) {
    (forall i :: 0 <= i < |k| ==> k[i] < bound) &&
    (forall i, j :: 0 <= i < j < |k| ==> k[i] < k[j])
  }

  /** Every accepted job that has left the queue was either taken or dropped, not both; both happen
      in the order of acceptance, and a taken job was among the last four accepted. */
  ghost predicate Fates(q: Queue) {
    Increasing(q.taken, Front(q)) && Increasing(q.lost, Front(q)) &&
    (forall i, j :: 0 <= i < |q.taken| && 0 <= j < |q.lost| ==> q.taken[i] != q.lost[j]) &&
    (forall k :: 0 <= k < Front(q) ==> k in q.taken || k in q.lost) &&
    |q.taken| + |q.lost| == Front(q) &&
    q.dropped == Wrap32(|q.lost|) &&
    |q.takenAt| == |q.taken| &&
    (forall i :: 0 <= i < |q.taken| ==>
      q.taken[i] < q.takenAt[i] <= |q.accepted| && q.takenAt[i] - q.taken[i] <= UPLOAD_QUEUE_CAPACITY)
  }

  predicate InFlight(c: Consumer) {
    c.Unlocking? || c.Sending?
  }

  predicate TakenWereAccepted(q: Queue) {
    forall i :: 0 <= i < |q.taken| ==> q.taken[i] < |q.accepted|
  }

  /** The sends of the first `n` taken jobs, in order. */
  function SendsOfTaken(ready: bool, q: Queue, n: nat): seq<Send>
    requires n <= |q.taken| && TakenWereAccepted(q)
  {
    if n == 0 then [] else SendsOfTaken(ready, q, n - 1) + SendsOf(ready, q.accepted[q.taken[n - 1]])
  }

  /** The job in flight is the last one taken. */
  predicate IsLastTaken(q: Queue, job: UploadJob)
    requires TakenWereAccepted(q)
  {
    |q.taken| > 0 && job == q.accepted[q.taken[|q.taken| - 1]]
  }

  /** Everything sent is: each executed job's sends, whole and in order, then the part done of the
      job in flight, which is the last one taken. */
  predicate SendLog(s: State) {
    TakenWereAccepted(s.queue) &&
    match s.consumer
    case Unlocking(job) =>
      IsLastTaken(s.queue, job) && s.sent == SendsOfTaken(s.ready, s.queue, |s.queue.taken| - 1)
    case Sending(job, done) =>
      IsLastTaken(s.queue, job) && done <= |SendsOf(s.ready, job)| &&
      s.sent == SendsOfTaken(s.ready, s.queue, |s.queue.taken| - 1) + SendsOf(s.ready, job)[..done]
    case _ => s.sent == SendsOfTaken(s.ready, s.queue, |s.queue.taken|)
  }

  /** The consumer never sleeps on work or on the stop flag unless a signal is about to be given by
      the producer that holds the lock. */
  predicate NoLostWakeup(s: State) {
    s.consumer.Sleeping? && (s.queue.count > 0 || !s.running) ==>
      s.producer.SubmitSignalling? || s.producer.StopSignalling?
  }

  ghost predicate Inv(s: State) {
    Control(s) && QueueIsSuffix(s.queue) && Fates(s.queue) && SendLog(s) && NoLostWakeup(s)
  }

  // ----- Every step keeps the invariant -----

  lemma ControlConsumer(s: State)
    requires HasSlots(s.queue) && Control(s) && Enabled(s, ConsumerStep)
    ensures Control(ConsumerNext(s))
  {
  }

  lemma ControlProducer(s: State)
    requires HasSlots(s.queue) && Control(s) && Enabled(s, ProducerStep)
    ensures Control(ProducerNext(s))
  {
  }

  lemma ControlStep(s: State, a: Action)
    requires HasSlots(s.queue) && Control(s)
    ensures Control(Next(s, a))
  {
    if Enabled(s, a) {
      match a
      case ConsumerStep => ControlConsumer(s);
      case ProducerStep => ControlProducer(s);
      case _ =>
    }
  }

  lemma WakeStep(s: State, a: Action)
    requires HasSlots(s.queue) && Control(s) && NoLostWakeup(s)
    ensures NoLostWakeup(Next(s, a))
  {
  }

  /** A step either leaves the queue alone, dequeues, drops the oldest job or writes a new one. */
  ghost predicate QueueMove(q: Queue, r: Queue)
    requires HasSlots(q)
  {
    r == q ||
    (q.count > 0 && r == Dequeue(q)) ||
    (q.count == UPLOAD_QUEUE_CAPACITY && r == DropOldest(q)) ||
    (q.count < UPLOAD_QUEUE_CAPACITY && exists job :: r == WriteTail(q, job))
  }

  lemma StepMoves(s: State, a: Action)
    requires HasSlots(s.queue)
    ensures QueueMove(s.queue, Next(s, a).queue)
  {
  }

  lemma DequeueKeeps(q: Queue)
    requires QueueIsSuffix(q) && Fates(q) && q.count > 0
    ensures QueueIsSuffix(Dequeue(q)) && Fates(Dequeue(q))
  {
    QueueAdvance(q.slots, q.head, q.count, q.accepted);
    FatesDequeue(q);
  }

  lemma DropKeeps(q: Queue)
    requires QueueIsSuffix(q) && Fates(q) && q.count == UPLOAD_QUEUE_CAPACITY
    ensures QueueIsSuffix(DropOldest(q)) && Fates(DropOldest(q))
  {
    QueueAdvance(q.slots, q.head, q.count, q.accepted);
    FatesDrop(q);
  }

  lemma WriteKeeps(q: Queue, job: UploadJob)
    requires QueueIsSuffix(q) && Fates(q) && q.count < UPLOAD_QUEUE_CAPACITY
    ensures QueueIsSuffix(WriteTail(q, job)) && Fates(WriteTail(q, job))
  {
    QueueWrite(q.slots, q.head, q.count, q.accepted, job);
    FatesWrite(q, job);
  }

  lemma MoveKeeps(q: Queue, r: Queue)
    requires QueueIsSuffix(q) && Fates(q) && QueueMove(q, r)
    ensures QueueIsSuffix(r) && Fates(r)
  {
    if r != q {
      if q.count > 0 && r == Dequeue(q) {
        DequeueKeeps(q);
      } else if q.count == UPLOAD_QUEUE_CAPACITY && r == DropOldest(q) {
        DropKeeps(q);
      } else {
        var job :| r == WriteTail(q, job);
        WriteKeeps(q, job);
      }
    }
  }

  lemma QueueAdvance(slots: seq<UploadJob>, head: nat, count: nat, accepted: seq<UploadJob>)
    requires |slots| == UPLOAD_QUEUE_CAPACITY && head < UPLOAD_QUEUE_CAPACITY && 0 < count <= UPLOAD_QUEUE_CAPACITY
    requires count <= |accepted| && Ring.Items(slots, head, count) == accepted[|accepted| - count..]
    ensures Ring.Items(slots, (head + 1) % UPLOAD_QUEUE_CAPACITY, count - 1) == accepted[|accepted| - (count - 1)..]
    ensures slots[head] == accepted[|accepted| - count]
  {
    Ring.SlotIsModular(head, 1, UPLOAD_QUEUE_CAPACITY);
    Ring.AdvanceHead(slots, head, count);
    DropOneMore(accepted, |accepted| - count);
    assert Ring.Items(slots, head, count)[0] == slots[head];
  }

  lemma QueueWrite(slots: seq<UploadJob>, head: nat, count: nat, accepted: seq<UploadJob>, job: UploadJob)
    requires |slots| == UPLOAD_QUEUE_CAPACITY && head < UPLOAD_QUEUE_CAPACITY && count < UPLOAD_QUEUE_CAPACITY
    requires count <= |accepted| && Ring.Items(slots, head, count) == accepted[|accepted| - count..]
    ensures Ring.Items(slots[(head + count) % UPLOAD_QUEUE_CAPACITY := job], head, count + 1)
         == (accepted + [job])[|accepted| + 1 - (count + 1)..]
  {
    Ring.SlotIsModular(head, count, UPLOAD_QUEUE_CAPACITY);
    Ring.WriteTail(slots, head, count, job);
    SuffixSnoc(accepted[|accepted| - count..], accepted, job);
  }

  /** The indices below `front` are exactly those of the two lists, without overlap. */
  predicate Partition(x: seq<nat>, y: seq<nat>, front: int) {
    Increasing(x, front) && Increasing(y, front) &&
    (forall i, j :: 0 <= i < |x| && 0 <= j < |y| ==> x[i] != y[j]) &&
    (forall k :: 0 <= k < front ==> k in x || k in y) &&
    |x| + |y| == front
  }

  lemma PartitionGrows(x: seq<nat>, y: seq<nat>, front: nat)
    requires Partition(x, y, front)
    ensures Partition(x + [front], y, front + 1)
  {
    var x' := x + [front];
    assert x'[|x|] == front;
    forall k | 0 <= k < front + 1 ensures k in x' || k in y {
      if k < front { assert k in x || k in y; }
    }
  }

  lemma FatesDequeue(q: Queue)
    requires QueueIsSuffix(q) && Fates(q) && q.count > 0
    ensures Fates(Dequeue(q))
  {
    PartitionGrows(q.taken, q.lost, Front(q));
    assert Dequeue(q).taken == q.taken + [Front(q)];
  }

  lemma FatesDrop(q: Queue)
    requires QueueIsSuffix(q) && Fates(q) && q.count == UPLOAD_QUEUE_CAPACITY
    ensures Fates(DropOldest(q))
  {
    PartitionGrows(q.lost, q.taken, Front(q));
    assert DropOldest(q).lost == q.lost + [Front(q)];
    assert Wrap32(Wrap32(|q.lost|) + 1) == Wrap32(|q.lost| + 1);
  }

  lemma FatesWrite(q: Queue, job: UploadJob)
    requires HasSlots(q) && Fates(q) && q.count < UPLOAD_QUEUE_CAPACITY
    ensures Fates(WriteTail(q, job))
  {
    assert Front(WriteTail(q, job)) == Front(q);
  }

  lemma LogStep(s: State, a: Action)
    requires Inv(s)
    ensures SendLog(Next(s, a))
  {
    if Enabled(s, a) {
      if a.ConsumerStep? {
        LogConsumer(s);
      } else {
        OtherLeavesLog(s, a);
        LogOther(s, Next(s, a));
      }
    }
  }

  lemma OtherLeavesLog(s: State, a: Action)
    requires HasSlots(s.queue) && Control(s) && Enabled(s, a) && !a.ConsumerStep?
    ensures var t := Next(s, a);
      t.ready == s.ready && t.queue.taken == s.queue.taken && t.sent == s.sent &&
      s.queue.accepted <= t.queue.accepted &&
      (t.consumer == s.consumer || (!InFlight(s.consumer) && !InFlight(t.consumer)))
  {
  }

  /** Steps that leave the taken jobs, the sends and the consumer's place in its job alone. */
  lemma LogOther(s: State, t: State)
    requires SendLog(s) && t.ready == s.ready && t.queue.taken == s.queue.taken && t.sent == s.sent
    requires s.queue.accepted <= t.queue.accepted
    requires t.consumer == s.consumer || (!InFlight(s.consumer) && !InFlight(t.consumer))
    ensures SendLog(t)
  {
    var n := |s.queue.taken|;
    SendsAgree(s.ready, s.queue, t.queue, n);
    if n > 0 {
      SendsAgree(s.ready, s.queue, t.queue, n - 1);
    }
  }

  lemma {:induction false} SendsAgree(ready: bool, q: Queue, r: Queue, n: nat)
    requires n <= |q.taken| && q.taken <= r.taken && q.accepted <= r.accepted
    requires TakenWereAccepted(q) && TakenWereAccepted(r)
    ensures SendsOfTaken(ready, q, n) == SendsOfTaken(ready, r, n)
  {
    if n > 0 {
      SendsAgree(ready, q, r, n - 1);
    }
  }

  lemma LogConsumer(s: State)
    requires Inv(s) && Enabled(s, ConsumerStep)
    ensures SendLog(ConsumerNext(s))
  {
    if s.consumer.Testing? {
      LogTesting(s);
    } else if s.consumer.Unlocking? {
      LogUnlocking(s, s.consumer.job);
    } else if s.consumer.Sending? {
      LogSending(s, s.consumer.job, s.consumer.done);
    } else {
      LogOther(s, ConsumerNext(s));
    }
  }

  lemma LogTesting(s: State)
    requires HasSlots(s.queue) && QueueIsSuffix(s.queue) && Fates(s.queue) && SendLog(s) && s.consumer.Testing?
    ensures SendLog(TestQueue(s))
  {
    if s.running && s.queue.count > 0 {
      LogDequeue(s.ready, s.queue);
    } else {
      LogOther(s, TestQueue(s));
    }
  }

  lemma LogUnlocking(s: State, job: UploadJob)
    requires HasSlots(s.queue) && SendLog(s) && s.consumer == Unlocking(job)
    ensures SendLog(ConsumerNext(s))
  {
    assert SendsOf(s.ready, job)[..0] == [];
  }

  lemma LogSending(s: State, job: UploadJob, done: nat)
    requires HasSlots(s.queue) && SendLog(s) && s.consumer == Sending(job, done)
    ensures SendLog(ConsumerNext(s))
  {
    SendProgress(s.ready, s.queue, job, done);
  }

  lemma LogDequeue(ready: bool, q: Queue)
    requires QueueIsSuffix(q) && Fates(q) && q.count > 0
    ensures var r := Dequeue(q);
      TakenWereAccepted(r) && TakenWereAccepted(q) && IsLastTaken(r, q.slots[q.head]) &&
      SendsOfTaken(ready, r, |r.taken| - 1) == SendsOfTaken(ready, q, |q.taken|)
  {
    QueueAdvance(q.slots, q.head, q.count, q.accepted);
    FatesDequeue(q);
    SendsAgree(ready, q, Dequeue(q), |q.taken|);
  }

  /** One more send of the last taken job, or the step after its last send. */
  lemma SendProgress(ready: bool, q: Queue, job: UploadJob, done: nat)
    requires TakenWereAccepted(q) && IsLastTaken(q, job) && done <= |SendsOf(ready, job)|
    ensures var all, before := SendsOf(ready, job), SendsOfTaken(ready, q, |q.taken| - 1);
      (done < |all| ==> (before + all[..done]) + [all[done]] == before + all[..done + 1]) &&
      (done == |all| ==> before + all[..done] == SendsOfTaken(ready, q, |q.taken|))
  {
    var all, before := SendsOf(ready, job), SendsOfTaken(ready, q, |q.taken| - 1);
    if done < |all| {
      assert all[..done + 1] == all[..done] + [all[done]];
    } else {
      assert all[..done] == all;
    }
  }

  lemma StepKeepsInv(s: State, a: Action)
    requires Inv(s)
    ensures Inv(Next(s, a))
  {
    ControlStep(s, a);
    WakeStep(s, a);
    StepMoves(s, a);
    MoveKeeps(s.queue, Next(s, a).queue);
    LogStep(s, a);
  }

  lemma TurnKeepsInv(s: State, a: Action)
    ensures Inv(s) ==> Inv(Turn(s, a))
  {
    if Inv(s) {
      StepKeepsInv(s, a);
    }
  }

  lemma EmptyQueue(q: Queue)
    requires HasSlots(q) && q.count == 0 && q.dropped == 0
    requires q.accepted == [] && q.taken == [] && q.takenAt == [] && q.lost == []
    ensures QueueIsSuffix(q) && Fates(q)
  {
    assert Ring.Items(q.slots, q.head, 0) == [];
  }

  lemma InitialRest(s: State)
    requires Initial(s)
    ensures Control(s) && SendLog(s) && NoLostWakeup(s)
  {
    assert SendsOfTaken(s.ready, s.queue, 0) == [];
  }

  lemma InitialInv(s: State)
    requires Initial(s)
    ensures Inv(s)
  {
    EmptyQueue(s.queue);
    InitialRest(s);
  }

  /** The invariant holds in every reachable state of every interleaving. */
  lemma ReachableInv(s: State, actions: seq<Action>, n: nat)
    requires Initial(s) && n <= |actions|
    ensures Inv(Run(s, actions, n))
  {
    InitialInv(s);
    var inv := (t: State, k: nat) => Inv(t);
    forall t: State, k: nat | k < n && inv(t, k) ensures inv(Turn(t, actions[k]), k + 1) {
      TurnKeepsInv(t, actions[k]);
    }
    FoldInvariant((t: State, a: Action) => Turn(t, a), s, actions, n, inv);
    assert inv(Run(s, actions, n), n);
  }
}
