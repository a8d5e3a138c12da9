/** What every interleaving of the capture thread and the uploader thread guarantees. */
module UploaderTheorems {
  import opened Machine
  import opened Telemetry
  import opened Uploader
  import Ring

  // ----- Every accepted job has exactly one fate -----

  predicate IsQueued(s: State, i: nat) { Front(s.queue) <= i < |s.queue.accepted| }

  predicate IsDropped(s: State, i: nat) { i in s.queue.lost }

  predicate IsInFlight(s: State, i: nat) {
    InFlight(s.consumer) && |s.queue.taken| > 0 && i == s.queue.taken[|s.queue.taken| - 1]
  }

  predicate IsExecuted(s: State, i: nat) {
    exists k :: 0 <= k < Executed(s) <= |s.queue.taken| && s.queue.taken[k] == i
  }

  function Executed(s: State): int {
    if InFlight(s.consumer) then |s.queue.taken| - 1 else |s.queue.taken|
  }

  function Count(b: bool): nat { if b then 1 else 0 }

  /** In every reachable state each accepted job is queued, dropped, in flight or executed, and only
      one of these; and the numbers add up. */
  lemma OneFate(start: State, actions: seq<Action>, n: nat, i: nat)
    requires Initial(start) && n <= |actions| && i < |Run(start, actions, n).queue.accepted|
    ensures var s := Run(start, actions, n);
      Count(IsQueued(s, i)) + Count(IsDropped(s, i)) + Count(IsInFlight(s, i)) + Count(IsExecuted(s, i)) == 1
  {
    ReachableInv(start, actions, n);
    OneFateOf(Run(start, actions, n), i);
  }

  lemma OneFateOf(s: State, i: nat)
    requires Inv(s) && i < |s.queue.accepted|
    ensures Count(IsQueued(s, i)) + Count(IsDropped(s, i)) + Count(IsInFlight(s, i)) + Count(IsExecuted(s, i)) == 1
  {
    var q := s.queue;
    if i < Front(q) {
      assert i in q.taken || i in q.lost;
      if i in q.taken {
        var k :| 0 <= k < |q.taken| && q.taken[k] == i;
        assert i !in q.lost;
        if k < Executed(s) {
          assert IsExecuted(s, i);
        }
      } else {
        assert !IsExecuted(s, i) && !IsInFlight(s, i);
      }
    } else {
      assert i !in q.taken && i !in q.lost;
      assert !IsExecuted(s, i) && !IsInFlight(s, i);
    }
  }

  /** Jobs are conserved; the queue is a contiguous suffix of the submissions; jobs are dequeued in
      submission order, each while among the last four submitted; the drop counter counts drops. */
  lemma QueueDiscipline(start: State, actions: seq<Action>, n: nat)
    requires Initial(start) && n <= |actions|
    ensures var s := Run(start, actions, n); var q := s.queue;
      && HasSlots(q)
      && |q.accepted| == Executed(s) + Count(InFlight(s.consumer)) + q.count + |q.lost|
      && q.count <= |q.accepted|
      && Ring.Items(q.slots, q.head, q.count) == q.accepted[|q.accepted| - q.count..]
      && (forall i, j :: 0 <= i < j < |q.taken| ==> q.taken[i] < q.taken[j])
      && |q.takenAt| == |q.taken|
      && (forall i :: 0 <= i < |q.taken| ==>
            q.takenAt[i] - 4 <= q.taken[i] < q.takenAt[i] <= |q.accepted|)
      && q.dropped == Wrap32(|q.lost|)
  {
    ReachableInv(start, actions, n);
  }

  /** A dropped job had four accepted after it, or three and the one that pushes it out. */
  ghost predicate DropsLate(s: State) {
    forall i :: 0 <= i < |s.queue.lost| ==>
      s.queue.lost[i] + (if s.producer.SubmitWriting? then 3 else 4) < |s.queue.accepted|
  }

  lemma DropsLateStep(s: State, a: Action)
    ensures Inv(s) && DropsLate(s) ==> Inv(Turn(s, a)) && DropsLate(Turn(s, a))
  {
    if Inv(s) && DropsLate(s) {
      TurnKeepsInv(s, a);
      if Enabled(s, a) {
        if a == ProducerStep {
          DropsLateProducer(s);
        } else {
          LostStays(s, a);
        }
      }
    }
  }

  lemma LostStays(s: State, a: Action)
    requires HasSlots(s.queue) && Enabled(s, a) && a != ProducerStep
    ensures Next(s, a).queue.lost == s.queue.lost && Next(s, a).queue.accepted == s.queue.accepted
    ensures Next(s, a).producer.SubmitWriting? <==> s.producer.SubmitWriting?
  {
  }

  lemma DropsLateProducer(s: State)
    requires HasSlots(s.queue) && s.queue.count <= |s.queue.accepted| && DropsLate(s) && Enabled(s, ProducerStep)
    requires s.producer.SubmitWriting? ==> s.queue.count < UPLOAD_QUEUE_CAPACITY
    ensures DropsLate(ProducerNext(s))
  {
  }

  /** Nothing is dropped before four later jobs have been submitted. */
  lemma DroppedLate(start: State, actions: seq<Action>, n: nat)
    requires Initial(start) && n <= |actions|
    ensures DropsLate(Run(start, actions, n))
  {
    InitialInv(start);
    var inv := (t: State, k: nat) => Inv(t) && DropsLate(t);
    forall t: State, k: nat | k < n && inv(t, k) ensures inv(Turn(t, actions[k]), k + 1) {
      DropsLateStep(t, actions[k]);
    }
    FoldInvariant((t: State, a: Action) => Turn(t, a), start, actions, n, inv);
    assert inv(Run(start, actions, n), n);
  }

  /** Telemetry goes out in order, each executed job whole and once: when the consumer is between
      jobs, what was sent is exactly the sends of the executed jobs. */
  lemma SentInOrder(start: State, actions: seq<Action>, n: nat)
    requires Initial(start) && n <= |actions|
    ensures var s := Run(start, actions, n);
      TakenWereAccepted(s.queue) &&
      (!InFlight(s.consumer) ==> s.sent == SendsOfTaken(s.ready, s.queue, Executed(s))) &&
      (InFlight(s.consumer) ==> Executed(s) >= 0 && SendsOfTaken(s.ready, s.queue, Executed(s)) <= s.sent)
  {
    ReachableInv(start, actions, n);
    var s := Run(start, actions, n);
    if s.consumer.Sending? {
      assert SendsOfTaken(s.ready, s.queue, |s.queue.taken| - 1) <= s.sent;
    }
  }

  // ----- What was accepted is what was submitted -----

  function Offered(s: State, a: Action): seq<UploadJob> {
    if a.BeginSubmit? && Enabled(s, a) then [a.job] else []
  }

  /** The jobs `uploader_submit` was called with, in order. */
  function Submissions(start: State, actions: seq<Action>, n: nat): seq<UploadJob>
    requires n <= |actions|
  {
    Emitted((t: State, a: Action) => Turn(t, a), (t: State, a: Action) => Offered(t, a), start, actions, n)
  }

  /** The submission being made, if it has not reached the ring yet. */
  function Pending(p: Producer): seq<UploadJob> {
    if p.SubmitLocking? || p.SubmitTesting? || p.SubmitWriting? then [p.job] else []
  }

  /** With a thread, nothing submitted is refused; without one, nothing is ever accepted. */
  ghost predicate Ledger(s: State, submitted: seq<UploadJob>) {
    if s.consumer.Unborn? then
      s.queue.accepted == [] && !s.started && (BeforeThread(s.producer) ==> submitted == [])
    else
      s.queue.accepted + Pending(s.producer) == submitted && !s.producer.NoThread? &&
      (s.producer.SubmitUnlocking? || |Pending(s.producer)| > 0 ==> s.started)
  }

  lemma LedgerProducer(s: State, submitted: seq<UploadJob>)
    requires HasSlots(s.queue) && Control(s) && Ledger(s, submitted) && Enabled(s, ProducerStep)
    ensures Ledger(ProducerNext(s), submitted)
  {
    if s.producer.SubmitWriting? && !s.consumer.Unborn? {
      assert ProducerNext(s).queue.accepted == s.queue.accepted + [s.producer.job];
    }
  }

  lemma LedgerConsumer(s: State, submitted: seq<UploadJob>)
    requires HasSlots(s.queue) && Control(s) && Ledger(s, submitted) && Enabled(s, ConsumerStep)
    ensures Ledger(ConsumerNext(s), submitted)
  {
  }

  lemma LedgerStep(s: State, a: Action, submitted: seq<UploadJob>)
    requires HasSlots(s.queue) && Control(s) && Ledger(s, submitted)
    ensures Ledger(Next(s, a), submitted + Offered(s, a))
  {
    assert submitted + [] == submitted;
    if Enabled(s, a) {
      match a
      case ProducerStep => LedgerProducer(s, submitted);
      case ConsumerStep => LedgerConsumer(s, submitted);
      case _ =>
    }
  }

  lemma LedgerTurn(s: State, a: Action, submitted: seq<UploadJob>)
    requires Inv(s) && Ledger(s, submitted)
    ensures Inv(Turn(s, a)) && Ledger(Turn(s, a), submitted + Offered(s, a))
  {
    TurnKeepsInv(s, a);
    LedgerStep(s, a, submitted);
  }

  /** Once the thread exists, the accepted jobs are exactly the submitted ones in order, except for a
      submission still on its way to the ring; without the thread none is accepted. */
  lemma AcceptedAreSubmissions(start: State, actions: seq<Action>, n: nat)
    requires Initial(start) && n <= |actions|
    ensures Ledger(Run(start, actions, n), Submissions(start, actions, n))
  {
    InitialInv(start);
    var step, emit := (t: State, a: Action) => Turn(t, a), (t: State, a: Action) => Offered(t, a);
    var inv := (t: State, h: seq<UploadJob>) => Inv(t) && Ledger(t, h);
    forall t, a, h | inv(t, h) ensures inv(step(t, a), h + emit(t, a)) {
      LedgerTurn(t, a, h);
    }
    FoldEmits(step, emit, start, actions, n, inv);
  }

  // ----- No lost wakeup -----

  /** A consumer asleep while there is work or a stop request is about to be signalled by the
      producer, which holds the lock and whose next step wakes it. */
  lemma SleeperIsWoken(start: State, actions: seq<Action>, n: nat)
    requires Initial(start) && n <= |actions|
    ensures var s := Run(start, actions, n);
      HasSlots(s.queue) &&
      (s.consumer.Sleeping? && (s.queue.count > 0 || !s.running) ==>
        s.lock == ByProducer && Enabled(s, ProducerStep) && Next(s, ProducerStep).consumer == Waking)
  {
    ReachableInv(start, actions, n);
  }

  // ----- Clean shutdown -----

  /** Bound on the consumer's own steps once the stop flag is set. */
  function ConsumerRank(s: State): nat {
    match s.consumer
    case Unborn | Exited => 0
    case Quitting => 1
    case Testing => 2
    case Locking | Waking => 3
    case Sleeping => 4
    case Sending(job, done) => 4 + Max(0, |SendsOf(s.ready, job)| - done)
    case Unlocking(job) => 5 + |SendsOf(s.ready, job)|
  }

  function ProducerRank(p: Producer): nat {
    match p
    case StopSignalling => 3
    case StopUnlocking => 2
    case Joining => 1
    case _ => 0
  }

  function Rank(s: State): nat {
    ConsumerRank(s) + ProducerRank(s.producer)
  }

  /** After the stop mark nothing more is dequeued, the mark stays, and every step brings the end
      closer: the consumer's own steps lower its rank, no other step raises it. */
  lemma StopProgress(s: State, a: Action)
    requires Inv(s) && Stopping(s.producer) && Enabled(s, a)
    ensures var t := Next(s, a);
      Inv(t) && Stopping(t.producer) && !t.running && t.queue == s.queue && Rank(t) < Rank(s) &&
      ConsumerRank(t) <= ConsumerRank(s) && (a == ConsumerStep ==> ConsumerRank(t) < ConsumerRank(s))
  {
    StepKeepsInv(s, a);
    if a == ConsumerStep {
      StopConsumer(s);
    }
  }

  lemma StopConsumer(s: State)
    requires Inv(s) && Stopping(s.producer) && Enabled(s, ConsumerStep)
    ensures var t := ConsumerNext(s);
      t.producer == s.producer && t.queue == s.queue && ConsumerRank(t) < ConsumerRank(s)
  {
  }

  /** The shutdown cannot get stuck, and does not rely on spurious wakeups: until the join is over,
      one of the two threads can take a step. */
  lemma StopNeverStuck(s: State)
    requires Inv(s) && Stopping(s.producer)
    ensures s.producer == Stopped ==> s.consumer == Exited
    ensures s.producer != Stopped ==> Enabled(s, ConsumerStep) || Enabled(s, ProducerStep)
  {
  }

  /** Every action of the list is taken, none is a stutter. */
  predicate AllTaken(s: State, actions: seq<Action>) {
    forall k :: 0 <= k < |actions| ==> Enabled(Run(s, actions, k), actions[k])
  }

  /** `t` is reached from `s` by `n` steps, all after the stop mark. */
  ghost predicate StoppingSince(s: State, t: State, n: nat) {
    Inv(t) && Stopping(t.producer) && t.queue == s.queue && n + Rank(t) <= Rank(s)
  }

  lemma StoppingStep(s: State, t: State, a: Action, n: nat)
    requires StoppingSince(s, t, n) && Enabled(t, a)
    ensures StoppingSince(s, Turn(t, a), n + 1)
  {
    StopProgress(t, a);
  }

  lemma StopRun(s: State, actions: seq<Action>, n: nat)
    requires StoppingSince(s, s, 0) && n <= |actions| && AllTaken(s, actions)
    ensures StoppingSince(s, Run(s, actions, n), n)
  {
    var step := (t: State, a: Action) => Turn(t, a);
    var ok := (t: State, a: Action) => Enabled(t, a);
    var inv := (t: State, k: nat) => StoppingSince(s, t, k);
    forall t, a, k: nat | inv(t, k) && ok(t, a) ensures inv(step(t, a), k + 1) {
      StoppingStep(s, t, a, k);
    }
    forall k | 0 <= k < n ensures ok(Fold(step, s, actions, k), actions[k]) {
      assert Enabled(Run(s, actions, k), actions[k]);
    }
    FoldChain(step, s, actions, n, ok, inv);
  }

  /** So from the stop mark on, every execution has at most `Rank` steps, whatever the interleaving,
      it leaves the queue as it was, and one that cannot be continued has joined the thread. */
  lemma StopTerminates(s: State, actions: seq<Action>)
    requires Inv(s) && Stopping(s.producer) && AllTaken(s, actions)
    ensures var t := Run(s, actions, |actions|);
      |actions| <= Rank(s) && t.queue == s.queue &&
      (!Enabled(t, ConsumerStep) && !Enabled(t, ProducerStep) ==> t.producer == Stopped && t.consumer == Exited)
  {
    var t := Run(s, actions, |actions|);
    StopRun(s, actions, |actions|);
    if t.producer != Stopped || t.consumer != Exited {
      StopNeverStuck(t);
    }
  }
}
