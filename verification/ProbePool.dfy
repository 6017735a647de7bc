/**
 The bounded health-probe worker pool: a queue and a counter behind a mutex, a condition
 variable, worker threads and a bounded completion channel. Threads are interleaved at
 the granularity of the code: a lock section, a notification, a send, a receive and the
 disconnection of the channel are single steps, and any thread may be preempted between
 two of them.
 */
module ProbePool {

  /** A probe request; the pool never looks inside. */
  datatype Request = Request(id: nat)

  // ----- what the mutex guards -----

  datatype Guarded = Guarded(queue: seq<Request>, accepting: bool, outstanding: nat)

  datatype Submitted = Accepted | Full | Stopped

  datatype Taken = Took(request: Request) | Stop | Wait

  /** `saturating_sub` */
  function Minus(a: nat, b: nat): (c: nat)
  {
    if a < b then 0 else a - b
  }

  function SubmitTo(g: Guarded, capacity: nat, r: Request): (out: (Guarded, Submitted))
  {
    if !g.accepting then (g, Stopped)
    else if g.outstanding >= capacity then (g, Full)
    else (Guarded(g.queue + [r], g.accepting, g.outstanding + 1), Accepted)
  }

  /** One turn of the loop in `take_probe_work`, while the lock is held. */
  function TakeFrom(g: Guarded): (out: (Guarded, Taken))
  {
    if g.queue != [] then (Guarded(g.queue[1..], g.accepting, g.outstanding), Took(g.queue[0]))
    else if !g.accepting then (g, Stop)
    else (g, Wait)
  }

  /** The lock section of `shutdown` and of dropping the receiver. */
  function CancelAll(g: Guarded): (out: Guarded)
  {
    Guarded([], false, Minus(g.outstanding, |g.queue|))
  }

  function ReleaseSlot(g: Guarded): (out: Guarded)
  {
    Guarded(g.queue, g.accepting, Minus(g.outstanding, 1))
  }

  /** The guarded state as the program updates it; every method is one lock section. */
  class WorkerState {
    const capacity: nat
    var queue: seq<Request>
    var accepting: bool
    var outstanding: nat

    ghost function Value(): Guarded
      reads this
    {
      Guarded(queue, accepting, outstanding)
    }

    constructor (capacity: nat)
      ensures this.capacity == capacity && Value() == Guarded([], true, 0)
    {
      this.capacity := capacity;
      queue, accepting, outstanding := [], true, 0;
    }

    method Submit(r: Request) returns (result: Submitted)
      modifies this
      ensures (Value(), result) == SubmitTo(old(Value()), capacity, r)
    {
      if !accepting {
        return Stopped;
      }
      if outstanding >= capacity {
        return Full;
      }
      outstanding := outstanding + 1;
      queue := queue + [r];
      return Accepted;
    }

    method Take() returns (result: Taken)
      modifies this
      ensures (Value(), result) == TakeFrom(old(Value()))
    {
      if queue != [] {
        result := Took(queue[0]);
        queue := queue[1..];
        return;
      }
      return if accepting then Wait else Stop;
    }

    method Cancel() returns (cancelled: nat)
      modifies this
      ensures Value() == CancelAll(old(Value())) && cancelled == |old(queue)|
    {
      accepting := false;
      cancelled := |queue|;
      queue := [];
      outstanding := Minus(outstanding, cancelled);
    }

    method Release()
      modifies this
      ensures Value() == ReleaseSlot(old(Value()))
    {
      outstanding := Minus(outstanding, 1);
    }
  }

  // ----- the threads -----

  /**
   A worker: about to lock in `take_probe_work`, asleep on the condition variable,
   probing, about to send its completion, about to give its slot back after a failed
   send, or gone.
   */
  datatype Worker = Idle | Asleep | Probing(request: Request) | Sending(request: Request) | Failing | Gone

  /** The receiving side: between calls, holding a completion whose slot it has yet to release, or being dropped. */
  datatype Receiver = Open | Holding | Cancelled | Notified | Closed

  /** The thread in `shutdown`: not in it, cancelled, and waiting to join. */
  datatype Shutdown = NotCalled | Cancelling | Joining

  datatype Pool = Pool(
    capacity: nat,
    g: Guarded,
    workers: seq<Worker>,
    channel: seq<Request>,
    receiver: Receiver,
    shutdown: Shutdown,
    notifies: nat,
    lost: nat,
    accepted: seq<Request>,
    taken: seq<Request>,
    cancelled: seq<Request>,
    probed: seq<Request>)

  datatype Step =
    | Submit(r: Request)
    | NotifyOne(i: nat)
    | NotifyNobody
    | Take(i: nat)
    | WakeUp(i: nat)
    | Probe(i: nat)
    | Send(i: nat)
    | FailedSend(i: nat)
    | GiveBack(i: nat)
    | Receive
    | Release
    | DropReceiver
    | DropNotify
    | Disconnect
    | ShutdownCancel
    | ShutdownNotify

  function Wake(w: Worker): (w': Worker)
  {
    if w == Asleep then Idle else w
  }

  function WakeAll(ws: seq<Worker>): (out: seq<Worker>)
    ensures |out| == |ws|
  {
    seq(|ws|, i requires 0 <= i < |ws| => Wake(ws[i]))
  }

  predicate Enabled(s: Pool, step: Step) {
    match step
    case Submit(_) => true
    case NotifyOne(i) => s.notifies > 0 && i < |s.workers| && s.workers[i] == Asleep
    case NotifyNobody => s.notifies > 0 && forall i :: 0 <= i < |s.workers| ==> s.workers[i] != Asleep
    case Take(i) => i < |s.workers| && s.workers[i] == Idle
    case WakeUp(i) => i < |s.workers| && s.workers[i] == Asleep
    case Probe(i) => i < |s.workers| && s.workers[i].Probing?
    case Send(i) => i < |s.workers| && s.workers[i].Sending? && s.receiver != Closed && |s.channel| < s.capacity
    case FailedSend(i) => i < |s.workers| && s.workers[i].Sending? && s.receiver == Closed
    case GiveBack(i) => i < |s.workers| && s.workers[i] == Failing
    case Receive => s.receiver == Open && s.channel != []
    case Release => s.receiver == Holding
    case DropReceiver => s.receiver == Open
    case DropNotify => s.receiver == Cancelled
    case Disconnect => s.receiver == Notified
    case ShutdownCancel => s.shutdown == NotCalled
    case ShutdownNotify => s.shutdown == Cancelling
  }

  function Next(s: Pool, step: Step): (s': Pool)
    requires Enabled(s, step)
  {
    match step
    case Submit(r) =>
      (match SubmitTo(s.g, s.capacity, r)
       case (g, Accepted) => s.(g := g, accepted := s.accepted + [r], notifies := s.notifies + 1)
       case (g, _) => s.(g := g))
    case NotifyOne(i) => s.(notifies := s.notifies - 1, workers := s.workers[i := Idle])
    case NotifyNobody => s.(notifies := s.notifies - 1)
    case Take(i) =>
      (match TakeFrom(s.g)
       case (g, Took(r)) => s.(g := g, workers := s.workers[i := Probing(r)], taken := s.taken + [r])
       case (_, Stop) => s.(workers := s.workers[i := Gone])
       case (_, Wait) => s.(workers := s.workers[i := Asleep]))
    case WakeUp(i) => s.(workers := s.workers[i := Idle])
    case Probe(i) =>
      s.(workers := s.workers[i := Sending(s.workers[i].request)], probed := s.probed + [s.workers[i].request])
    case Send(i) => s.(channel := s.channel + [s.workers[i].request], workers := s.workers[i := Idle])
    case FailedSend(i) => s.(workers := s.workers[i := Failing])
    case GiveBack(i) => s.(g := ReleaseSlot(s.g), workers := s.workers[i := Idle])
    case Receive => s.(channel := s.channel[1..], receiver := Holding)
    case Release => s.(g := ReleaseSlot(s.g), receiver := Open)
    case DropReceiver => s.(g := CancelAll(s.g), receiver := Cancelled, cancelled := s.cancelled + s.g.queue)
    case DropNotify => s.(workers := WakeAll(s.workers), receiver := Notified)
    case Disconnect => s.(channel := [], lost := s.lost + |s.channel|, receiver := Closed)
    case ShutdownCancel => s.(g := CancelAll(s.g), shutdown := Cancelling, cancelled := s.cancelled + s.g.queue)
    case ShutdownNotify => s.(workers := WakeAll(s.workers), shutdown := Joining)
  }

  /** The steps of the worker threads. */
  predicate WorkerStep(step: Step) {
    step.Take? || step.WakeUp? || step.Probe? || step.Send? || step.FailedSend? || step.GiveBack?
  }

  function WorkerOf(step: Step): (i: nat)
    requires WorkerStep(step)
  {
    match step
    case Take(i) => i
    case WakeUp(i) => i
    case Probe(i) => i
    case Send(i) => i
    case FailedSend(i) => i
    case GiveBack(i) => i
  }

  /** `HealthProbeWorkerPool::new` */
  function Start(workers: nat, capacity: nat): (s: Pool)
  {
    Pool(capacity, Guarded([], true, 0), seq(workers, i => Idle), [], Open, NotCalled, 0, 0, [], [], [], [])
  }

  // ----- counting workers -----

  function Busy(w: Worker): (n: nat)
  {
    if w.Probing? || w.Sending? || w.Failing? then 1 else 0
  }

  function Awake(w: Worker): (n: nat)
  {
    if w.Idle? then 1 else 0
  }

  function Tally(ws: seq<Worker>, f: Worker -> nat): (n: nat)
  {
    if ws == [] then 0 else Tally(ws[..|ws| - 1], f) + f(ws[|ws| - 1])
  }

  lemma {:induction false} TallySet(ws: seq<Worker>, f: Worker -> nat, i: nat, w: Worker)
    requires i < |ws|
    ensures Tally(ws[i := w], f) + f(ws[i]) == Tally(ws, f) + f(w)
  {
    var n := |ws| - 1;
    if i < n {
      TallySet(ws[..n], f, i, w);
      assert ws[i := w][..n] == ws[..n][i := w];
    } else {
      assert ws[i := w][..n] == ws[..n];
    }
  }

  lemma {:induction false} TallyAt(ws: seq<Worker>, f: Worker -> nat, i: nat)
    requires i < |ws|
    ensures f(ws[i]) <= Tally(ws, f)
  {
    var n := |ws| - 1;
    if i < n {
      TallyAt(ws[..n], f, i);
    }
  }

  lemma {:induction false} TallyWake(ws: seq<Worker>)
    ensures Tally(WakeAll(ws), Busy) == Tally(ws, Busy)
    ensures Tally(WakeAll(ws), Awake) >= Tally(ws, Awake)
  {
    if ws != [] {
      var n := |ws| - 1;
      TallyWake(ws[..n]);
      assert WakeAll(ws)[..n] == WakeAll(ws[..n]);
    }
  }

  function ProbingOf(w: Worker): (m: multiset<Request>)
  {
    if w.Probing? then multiset{w.request} else multiset{}
  }

  /** The requests that workers are probing. */
  function ProbingNow(ws: seq<Worker>): (m: multiset<Request>)
  {
    if ws == [] then multiset{} else ProbingNow(ws[..|ws| - 1]) + ProbingOf(ws[|ws| - 1])
  }

  lemma Exchange<T>(a: multiset<T>, p: multiset<T>, b: multiset<T>, q: multiset<T>, c: multiset<T>)
    requires a + p == b + q
    ensures (a + c) + p == (b + c) + q
  {
    assert (a + c) + p == (a + p) + c;
    assert (b + c) + q == (b + q) + c;
  }

  lemma {:induction false} ProbingSnoc(ws: seq<Worker>, w: Worker)
    ensures ProbingNow(ws + [w]) == ProbingNow(ws) + ProbingOf(w)
  {
    assert (ws + [w])[..|ws|] == ws;
  }

  lemma {:induction false} ProbingSet(ws: seq<Worker>, i: nat, w: Worker)
    requires i < |ws|
    ensures ProbingNow(ws[i := w]) + ProbingOf(ws[i]) == ProbingNow(ws) + ProbingOf(w)
  {
    var front, last := ws[..|ws| - 1], ws[|ws| - 1];
    assert ws == front + [last];
    ProbingSnoc(front, last);
    if i < |front| {
      assert ws[i := w] == front[i := w] + [last];
      ProbingSnoc(front[i := w], last);
      ProbingSet(front, i, w);
      Exchange(ProbingNow(front[i := w]), ProbingOf(front[i]), ProbingNow(front), ProbingOf(w), ProbingOf(last));
    } else {
      assert ws[i := w] == front + [w];
      ProbingSnoc(front, w);
      Swap(ProbingNow(front), ProbingOf(w), ProbingOf(last));
    }
  }

  lemma Swap<T>(a: multiset<T>, b: multiset<T>, c: multiset<T>)
    ensures (a + b) + c == (a + c) + b
  {
  }

  lemma {:induction false} ProbingWake(ws: seq<Worker>)
    ensures ProbingNow(WakeAll(ws)) == ProbingNow(ws)
  {
    if ws != [] {
      var n := |ws| - 1;
      ProbingWake(ws[..n]);
      assert WakeAll(ws)[..n] == WakeAll(ws[..n]);
      assert ProbingOf(WakeAll(ws)[n]) == ProbingOf(ws[n]);
    }
  }

  // ----- the invariant -----

  predicate Dropping(r: Receiver) {
    r == Cancelled || r == Notified || r == Closed
  }

  function Held(r: Receiver): (n: nat)
  {
    if r == Holding then 1 else 0
  }

  /**
   Every slot in use is a queued request, a busy worker, an undelivered completion, one
   being delivered, or one discarded.
   */
  predicate Counted(s: Pool) {
    && s.g.outstanding == |s.g.queue| + Tally(s.workers, Busy) + |s.channel| + Held(s.receiver) + s.lost
    && s.g.outstanding <= s.capacity
  }

  /** The pool accepts until it is shut down or its receiver is dropped; from then on the queue is empty. */
  predicate Closing(s: Pool) {
    && (s.g.accepting <==> !Dropping(s.receiver) && s.shutdown == NotCalled)
    && (!s.g.accepting ==> s.g.queue == [])
    && (s.g.accepting ==> s.cancelled == [] && forall i :: 0 <= i < |s.workers| ==> s.workers[i] != Gone)
    && (s.receiver == Closed ==> s.channel == [])
  }

  /** Requests are taken in the order they were accepted, and every one taken is being probed or has been. */
  predicate Recorded(s: Pool) {
    && s.accepted == s.taken + s.cancelled + s.g.queue
    && multiset(s.taken) == multiset(s.probed) + ProbingNow(s.workers)
  }

  predicate SomeAsleep(s: Pool) {
    exists i :: 0 <= i < |s.workers| && s.workers[i] == Asleep
  }

  /**
   No lost wakeup: while a worker sleeps, every queued request has an awake worker or a
   notification on its way; once the pool is closing, the broadcast is still to come.
   */
  predicate Notifying(s: Pool) {
    SomeAsleep(s) ==>
      if s.g.accepting then |s.g.queue| <= s.notifies + Tally(s.workers, Awake)
      else s.shutdown != Joining && s.receiver != Notified && s.receiver != Closed
  }

  predicate Inv(s: Pool) {
    Counted(s) && Closing(s) && Recorded(s) && Notifying(s)
  }

  lemma {:induction false} StartInv(workers: nat, capacity: nat)
    ensures Inv(Start(workers, capacity))
  {
    AllIdle(workers);
  }

  lemma {:induction false} AllIdle(n: nat)
    ensures Tally(seq(n, i => Idle), Busy) == 0
    ensures ProbingNow(seq(n, i => Idle)) == multiset{}
  {
    if n > 0 {
      AllIdle(n - 1);
      assert seq(n, i => Idle)[..n - 1] == seq(n - 1, i => Idle);
    }
  }

  lemma {:induction false} CountedByWorker(s: Pool, step: Step)
    requires Counted(s) && Closing(s) && Enabled(s, step) && (WorkerStep(step) || step.NotifyOne?)
    ensures Counted(Next(s, step))
  {
    var s', i := Next(s, step), if step.NotifyOne? then step.i else WorkerOf(step);
    TallySet(s.workers, Busy, i, s'.workers[i]);
    TallyAt(s.workers, Busy, i);
  }

  lemma {:induction false} CountedKept(s: Pool, step: Step)
    requires Counted(s) && Closing(s) && Enabled(s, step)
    ensures Counted(Next(s, step))
  {
    if WorkerStep(step) || step.NotifyOne? {
      CountedByWorker(s, step);
    } else if step.DropNotify? || step.ShutdownNotify? {
      TallyWake(s.workers);
    }
  }

  lemma {:induction false} ClosingKept(s: Pool, step: Step)
    requires Closing(s) && Enabled(s, step)
    ensures Closing(Next(s, step))
  {
  }

  lemma {:induction false} ProbingSame(ws: seq<Worker>, i: nat, w: Worker)
    requires i < |ws| && !ws[i].Probing? && !w.Probing?
    ensures ProbingNow(ws[i := w]) == ProbingNow(ws)
  {
    ProbingSet(ws, i, w);
    assert ProbingNow(ws[i := w]) + multiset{} == ProbingNow(ws[i := w]);
    assert ProbingNow(ws) + multiset{} == ProbingNow(ws);
  }

  lemma {:induction false} ProbingStarts(ws: seq<Worker>, i: nat, r: Request)
    requires i < |ws| && !ws[i].Probing?
    ensures ProbingNow(ws[i := Probing(r)]) == ProbingNow(ws) + multiset{r}
  {
    ProbingSet(ws, i, Probing(r));
    assert ProbingNow(ws[i := Probing(r)]) + multiset{} == ProbingNow(ws[i := Probing(r)]);
  }

  lemma {:induction false} ProbingEnds(ws: seq<Worker>, i: nat, w: Worker)
    requires i < |ws| && ws[i].Probing? && !w.Probing?
    ensures ProbingNow(ws) == ProbingNow(ws[i := w]) + multiset{ws[i].request}
  {
    ProbingSet(ws, i, w);
    assert ProbingNow(ws) + multiset{} == ProbingNow(ws);
  }

  /** Accepted requests stay split into taken, cancelled and queued ones, in order. */
  lemma {:induction false} OrderKept(s: Pool, step: Step)
    requires Closing(s) && Recorded(s) && Enabled(s, step)
    ensures var s' := Next(s, step); s'.accepted == s'.taken + s'.cancelled + s'.g.queue
  {
    match step
    case Submit(r) =>
      assert s.accepted + [r] == s.taken + s.cancelled + (s.g.queue + [r]);
    case Take(i) =>
      if s.g.queue != [] {
        MoveFirst(s.taken, s.g.queue);
        assert s.taken + [] == s.taken;
      }
    case DropReceiver =>
      MoveAll(s.taken, s.cancelled, s.g.queue);
    case ShutdownCancel =>
      MoveAll(s.taken, s.cancelled, s.g.queue);
    case _ =>
  }

  lemma MoveFirst<T>(a: seq<T>, q: seq<T>)
    requires q != []
    ensures a + q == (a + [q[0]]) + [] + q[1..]
  {
  }

  lemma MoveAll<T>(a: seq<T>, c: seq<T>, q: seq<T>)
    ensures a + c + q == a + (c + q) + []
  {
  }

  /** Every request taken stays accounted for: being probed, or probed. */
  lemma {:induction false} ProbesKept(s: Pool, step: Step)
    requires Recorded(s) && Enabled(s, step)
    ensures var s' := Next(s, step); multiset(s'.taken) == multiset(s'.probed) + ProbingNow(s'.workers)
  {
    var s' := Next(s, step);
    match step
    case NotifyOne(i) => ProbingSame(s.workers, i, Idle);
    case Take(i) =>
      if s.g.queue != [] {
        ProbingStarts(s.workers, i, s.g.queue[0]);
        TookOne(s.taken, s.probed, ProbingNow(s.workers), s.g.queue[0]);
      } else {
        ProbingSame(s.workers, i, s'.workers[i]);
      }
    case WakeUp(i) => ProbingSame(s.workers, i, Idle);
    case Probe(i) =>
      ProbingEnds(s.workers, i, s'.workers[i]);
      ProbedOne(s.taken, s.probed, ProbingNow(s'.workers), s.workers[i].request);
    case Send(i) => ProbingSame(s.workers, i, Idle);
    case FailedSend(i) => ProbingSame(s.workers, i, Failing);
    case GiveBack(i) => ProbingSame(s.workers, i, Idle);
    case DropNotify => ProbingWake(s.workers);
    case ShutdownNotify => ProbingWake(s.workers);
    case _ =>
  }

  lemma TookOne<T>(taken: seq<T>, probed: seq<T>, now: multiset<T>, r: T)
    requires multiset(taken) == multiset(probed) + now
    ensures multiset(taken + [r]) == multiset(probed) + (now + multiset{r})
  {
    assert multiset(taken + [r]) == multiset(taken) + multiset{r};
  }

  lemma ProbedOne<T>(taken: seq<T>, probed: seq<T>, now: multiset<T>, r: T)
    requires multiset(taken) == multiset(probed) + (now + multiset{r})
    ensures multiset(taken) == multiset(probed + [r]) + now
  {
    assert multiset(probed + [r]) == multiset(probed) + multiset{r};
  }

  lemma {:induction false} NotifyingByWorker(s: Pool, step: Step)
    requires Closing(s) && Notifying(s) && Enabled(s, step) && (WorkerStep(step) || step.NotifyOne?)
    ensures Notifying(Next(s, step))
  {
    var s', i := Next(s, step), if step.NotifyOne? then step.i else WorkerOf(step);
    TallySet(s.workers, Awake, i, s'.workers[i]);
  }

  lemma {:induction false} NotifyingKept(s: Pool, step: Step)
    requires Closing(s) && Notifying(s) && Enabled(s, step)
    ensures Notifying(Next(s, step))
  {
    if WorkerStep(step) || step.NotifyOne? {
      NotifyingByWorker(s, step);
    }
  }

  lemma {:induction false} StepKeeps(s: Pool, step: Step)
    requires Inv(s) && Enabled(s, step)
    ensures Inv(Next(s, step))
  {
    CountedKept(s, step);
    ClosingKept(s, step);
    OrderKept(s, step);
    ProbesKept(s, step);
    NotifyingKept(s, step);
  }

  // ----- every interleaving -----

  /** Every step is enabled where it happens. */
  predicate Run(s: Pool, steps: seq<Step>)
    decreases |steps|
  {
    steps == [] || (Enabled(s, steps[0]) && Run(Next(s, steps[0]), steps[1..]))
  }

  function Final(s: Pool, steps: seq<Step>): (s': Pool)
    requires Run(s, steps)
    decreases |steps|
  {
    if steps == [] then s else Final(Next(s, steps[0]), steps[1..])
  }

  lemma {:induction false} RunKeeps(s: Pool, steps: seq<Step>)
    requires Inv(s) && Run(s, steps)
    ensures Inv(Final(s, steps)) && Final(s, steps).capacity == s.capacity && |Final(s, steps).workers| == |s.workers|
    decreases |steps|
  {
    if steps != [] {
      StepKeeps(s, steps[0]);
      StepShape(s, steps[0]);
      RunKeeps(Next(s, steps[0]), steps[1..]);
    }
  }

  lemma {:induction false} StepShape(s: Pool, step: Step)
    requires Enabled(s, step)
    ensures Next(s, step).capacity == s.capacity && |Next(s, step).workers| == |s.workers|
  {
  }

  /**
   In every reachable state the counter is exact and within the capacity, and a worker
   with a completion is never blocked: the channel has room, or the receiver is gone.
   */
  lemma {:induction false} SendNeverBlocks(workers: nat, capacity: nat, steps: seq<Step>, i: nat)
    requires Run(Start(workers, capacity), steps)
    requires i < |Final(Start(workers, capacity), steps).workers|
          && Final(Start(workers, capacity), steps).workers[i].Sending?
    ensures var s := Final(Start(workers, capacity), steps);
            && |s.g.queue| + Tally(s.workers, Busy) + |s.channel| <= s.g.outstanding <= s.capacity == capacity
            && (Enabled(s, Send(i)) || Enabled(s, FailedSend(i)))
  {
    StartInv(workers, capacity);
    RunKeeps(Start(workers, capacity), steps);
    var s := Final(Start(workers, capacity), steps);
    TallyAt(s.workers, Busy, i);
  }

  /** How much each step takes off the counter. */
  function Subtracts(s: Pool, step: Step): (n: nat)
  {
    match step
    case GiveBack(_) => 1
    case Release => 1
    case DropReceiver => |s.g.queue|
    case ShutdownCancel => |s.g.queue|
    case _ => 0
  }

  /** No subtraction on the counter ever saturates. */
  lemma {:induction false} NoSaturation(workers: nat, capacity: nat, steps: seq<Step>, step: Step)
    requires Run(Start(workers, capacity), steps) && Enabled(Final(Start(workers, capacity), steps), step)
    ensures var s := Final(Start(workers, capacity), steps); Subtracts(s, step) <= s.g.outstanding
  {
    StartInv(workers, capacity);
    RunKeeps(Start(workers, capacity), steps);
    var s := Final(Start(workers, capacity), steps);
    if step.GiveBack? {
      TallyAt(s.workers, Busy, step.i);
    }
  }

  /**
   Conservation: at every moment the accepted requests are the taken ones, then the
   cancelled ones, then the queued ones, in submission order; a request is taken once,
   and each one taken is being probed or was probed once.
   */
  lemma {:induction false} RequestsConserved(workers: nat, capacity: nat, steps: seq<Step>)
    requires Run(Start(workers, capacity), steps)
    ensures var s := Final(Start(workers, capacity), steps);
            && s.accepted == s.taken + s.cancelled + s.g.queue
            && multiset(s.taken) == multiset(s.probed) + ProbingNow(s.workers)
            && (!s.g.accepting ==> s.g.queue == [])
            && (s.g.accepting ==> s.cancelled == [])
  {
    StartInv(workers, capacity);
    RunKeeps(Start(workers, capacity), steps);
  }

  // ----- shutdown -----

  /** How many steps a worker still has before it is gone, once the pool is closing. */
  function Left(w: Worker): (n: nat)
  {
    match w
    case Probing(_) => 4
    case Sending(_) => 3
    case Failing => 2
    case Asleep => 2
    case Idle => 1
    case Gone => 0
  }

  function Remaining(s: Pool): (n: nat)
  {
    Tally(s.workers, Left)
  }

  /** While `shutdown` joins, every step of a worker brings the end closer, and no other step puts it off. */
  lemma {:induction false} JoinCloser(s: Pool, step: Step)
    requires Inv(s) && s.shutdown == Joining && Enabled(s, step)
    ensures Next(s, step).shutdown == Joining
    ensures if WorkerStep(step) then Remaining(Next(s, step)) < Remaining(s)
            else Remaining(Next(s, step)) == Remaining(s)
  {
    var s' := Next(s, step);
    if WorkerStep(step) {
      TallySet(s.workers, Left, WorkerOf(step), s'.workers[WorkerOf(step)]);
    } else if step.DropNotify? {
      assert !SomeAsleep(s);
      assert WakeAll(s.workers) == s.workers;
    }
  }

  predicate AllGone(s: Pool) {
    forall i :: 0 <= i < |s.workers| ==> s.workers[i] == Gone
  }

  /**
   While a worker is left, some worker can take a step, without any help from the receiver
   and without a spurious wakeup.
   */
  lemma {:induction false} JoinEnabled(s: Pool) returns (step: Step)
    requires Inv(s) && s.shutdown == Joining && !AllGone(s)
    ensures WorkerStep(step) && Enabled(s, step) && !step.WakeUp?
  {
    var i :| 0 <= i < |s.workers| && s.workers[i] != Gone;
    TallyAt(s.workers, Busy, i);
    assert !SomeAsleep(s);
    assert s.workers[i] != Asleep;
    match s.workers[i]
    case Idle => step := Take(i);
    case Probing(_) => step := Probe(i);
    case Sending(_) => step := if s.receiver == Closed then FailedSend(i) else Send(i);
    case Failing => step := GiveBack(i);
  }

  function WorkerSteps(steps: seq<Step>): (n: nat)
  {
    if steps == [] then 0 else (if WorkerStep(steps[0]) then 1 else 0) + WorkerSteps(steps[1..])
  }

  /**
   `shutdown` cannot wait for ever: from any state in which it joins, and in whatever
   order the threads run, the workers take at most `Remaining` more steps; and when none
   of them can take one, all are gone.
   */
  lemma {:induction false} JoinBounded(s: Pool, steps: seq<Step>)
    requires Inv(s) && s.shutdown == Joining && Run(s, steps)
    ensures WorkerSteps(steps) + Remaining(Final(s, steps)) <= Remaining(s)
    decreases |steps|
  {
    if steps != [] {
      StepKeeps(s, steps[0]);
      JoinCloser(s, steps[0]);
      JoinBounded(Next(s, steps[0]), steps[1..]);
    }
  }

  /**
   And it can always finish with the workers alone, while the thread that drains
   completions is the one that joins.
   */
  lemma {:induction false} JoinCompletes(s: Pool) returns (steps: seq<Step>)
    requires Inv(s) && s.shutdown == Joining
    ensures Run(s, steps) && WorkerSteps(steps) == |steps| && AllGone(Final(s, steps))
    ensures forall i :: 0 <= i < |steps| ==> !steps[i].WakeUp?
    decreases Remaining(s)
  {
    steps := [];
    if !AllGone(s) {
      var step := JoinEnabled(s);
      StepKeeps(s, step);
      JoinCloser(s, step);
      var later := JoinCompletes(Next(s, step));
      steps := [step] + later;
      assert steps[1..] == later;
    }
  }

  /** After the join every accepted request was either probed or cancelled, each once. */
  lemma {:induction false} JoinedConserves(workers: nat, capacity: nat, steps: seq<Step>)
    requires Run(Start(workers, capacity), steps) && AllGone(Final(Start(workers, capacity), steps)) && workers > 0
    ensures var s := Final(Start(workers, capacity), steps);
            && s.accepted == s.taken + s.cancelled
            && multiset(s.accepted) == multiset(s.probed) + multiset(s.cancelled)
            && s.g.outstanding == |s.channel| + Held(s.receiver) + s.lost
  {
    StartInv(workers, capacity);
    RunKeeps(Start(workers, capacity), steps);
    var s := Final(Start(workers, capacity), steps);
    assert s.workers[0] == Gone;
    GoneCounts(s.workers);
    assert s.taken + s.cancelled + [] == s.taken + s.cancelled;
    assert multiset(s.taken + s.cancelled) == multiset(s.taken) + multiset(s.cancelled);
  }

  lemma {:induction false} GoneCounts(ws: seq<Worker>)
    requires forall i :: 0 <= i < |ws| ==> ws[i] == Gone
    ensures Tally(ws, Busy) == 0 && ProbingNow(ws) == multiset{}
  {
    if ws != [] {
      GoneCounts(ws[..|ws| - 1]);
    }
  }

  /**
   No lost wakeup: in every reachable state with a request in the queue, a worker is awake
   for it or a notification is on its way.
   */
  lemma {:induction false} QueuedIsServed(workers: nat, capacity: nat, steps: seq<Step>)
    requires Run(Start(workers, capacity), steps) && workers > 0
    ensures var s := Final(Start(workers, capacity), steps);
            s.g.queue != [] ==> s.notifies > 0 || exists i ::
              0 <= i < |s.workers| && s.workers[i] != Asleep && s.workers[i] != Gone
  {
    StartInv(workers, capacity);
    RunKeeps(Start(workers, capacity), steps);
    var s := Final(Start(workers, capacity), steps);
    if s.g.queue != [] && s.notifies == 0 {
      if SomeAsleep(s) {
        var i := SomeAwake(s.workers);
      } else {
        assert s.workers[0] != Asleep && s.workers[0] != Gone;
      }
    }
  }

  lemma {:induction false} SomeAwake(ws: seq<Worker>) returns (i: nat)
    requires Tally(ws, Awake) > 0
    ensures i < |ws| && ws[i] == Idle
  {
    var n := |ws| - 1;
    if ws[n] == Idle {
      i := n;
    } else {
      i := SomeAwake(ws[..n]);
    }
  }
}
