/** The ordered worker pool (plugins/common/parallel/ordered.go): one goroutine enqueues, any number
    of workers apply `fn`, and one reader emits the results in the order of enqueueing. Each step is
    one channel operation, or one computation, of one goroutine. */
module Ordered {
  import opened Metrics

  /** The enqueuing goroutine. A future is known by the number of the Enqueue call that made it. */
  datatype Enqueuer =
    | Ready          // between two calls of Enqueue
    | SendFuture     // sending the future of the last metric to `queue`
    | SendJob        // sending its job to `workerQueue`
    | QueueClosed    // in Stop, `queue` closed
    | AllClosed      // in Stop, both closed, waiting for the goroutines

  datatype Worker = Free | Working(j: nat) | Sending(j: nat, out: seq<Metric>) | Closing(j: nat) | Gone

  datatype Reader = Waiting | Reading(j: nat) | Emitting(j: nat, rest: seq<Metric>) | Finished

  datatype Pool = Pool(
    queueSize: nat,
    input: seq<Metric>,       // the metrics of all calls of Enqueue, in order
    enq: Enqueuer,
    queue: seq<nat>,          // buffered futures
    jobs: seq<nat>,           // buffered jobs
    closed: set<nat>,         // closed futures
    workers: seq<Worker>,
    reader: Reader,
    emitted: seq<Metric>)

  type Fn = Metric -> seq<Metric>

  function Initial(queueSize: nat, workerCount: nat): Pool {
    Pool(queueSize, [], Ready, [], [], {}, seq(workerCount, _ => Free), Waiting, [])
  }

  datatype Step =
    | Enqueue(m: Metric) | PutFuture | HandFuture | PutJob | CloseQueue | CloseJobs
    | TakeJob(w: nat) | Compute(w: nat) | Deliver(w: nat) | CloseFuture(w: nat) | LeaveWorker(w: nat)
    | TakeFuture | EmitOne | EndEmit | NextFuture | LeaveReader

  /** Steps that happen on their own; the others are calls of Enqueue and Stop. */
  predicate Internal(s: Step) {
    !s.Enqueue? && !s.CloseQueue?
  }

  predicate Stopping(p: Pool) {
    p.enq.QueueClosed? || p.enq.AllClosed?
  }

  /** A buffered channel accepts while it has room; an empty one also hands over directly to a
      waiting reader, which is the only way if its size is zero. Futures are unbuffered. */
  predicate Enabled(p: Pool, s: Step) {
    match s
    case Enqueue(m) => p.enq.Ready?
    case PutFuture => p.enq.SendFuture? && p.input != [] && |p.queue| < p.queueSize
    case HandFuture => p.enq.SendFuture? && p.input != [] && p.queue == [] && p.reader.Waiting?
    case PutJob => p.enq.SendJob? && p.input != [] && |p.jobs| < |p.workers|
    case CloseQueue => p.enq.Ready?
    case CloseJobs => p.enq.QueueClosed?
    case TakeJob(w) => w < |p.workers| && p.workers[w].Free? && p.jobs != []
    case Compute(w) => w < |p.workers| && p.workers[w].Working? && p.workers[w].j < |p.input|
    case Deliver(w) => w < |p.workers| && p.workers[w].Sending? && p.reader == Reading(p.workers[w].j)
    case CloseFuture(w) => w < |p.workers| && p.workers[w].Closing?
    case LeaveWorker(w) => w < |p.workers| && p.workers[w].Free? && p.jobs == [] && p.enq.AllClosed?
    case TakeFuture => p.reader.Waiting? && p.queue != []
    case EmitOne => p.reader.Emitting? && p.reader.rest != []
    case EndEmit => p.reader.Emitting? && p.reader.rest == []
    case NextFuture => p.reader.Reading? && p.reader.j in p.closed
    case LeaveReader => p.reader.Waiting? && p.queue == [] && Stopping(p)
  }

  function Next(fn: Fn, p: Pool, s: Step): Pool
    requires Enabled(p, s)
  {
    match s
    case Enqueue(m) => p.(input := p.input + [m], enq := SendFuture)
    case PutFuture => p.(queue := p.queue + [|p.input| - 1], enq := SendJob)
    case HandFuture => p.(reader := Reading(|p.input| - 1), enq := SendJob)
    case PutJob => p.(jobs := p.jobs + [|p.input| - 1], enq := Ready)
    case CloseQueue => p.(enq := QueueClosed)
    case CloseJobs => p.(enq := AllClosed)
    case TakeJob(w) => p.(workers := p.workers[w := Working(p.jobs[0])], jobs := p.jobs[1..])
    case Compute(w) => p.(workers := p.workers[w := Sending(p.workers[w].j, fn(p.input[p.workers[w].j]))])
    case Deliver(w) => p.(reader := Emitting(p.workers[w].j, p.workers[w].out),
                          workers := p.workers[w := Closing(p.workers[w].j)])
    case CloseFuture(w) => p.(closed := p.closed + {p.workers[w].j}, workers := p.workers[w := Free])
    case LeaveWorker(w) => p.(workers := p.workers[w := Gone])
    case TakeFuture => p.(reader := Reading(p.queue[0]), queue := p.queue[1..])
    case EmitOne => p.(emitted := p.emitted + [p.reader.rest[0]], reader := Emitting(p.reader.j, p.reader.rest[1..]))
    case EndEmit => p.(reader := Reading(p.reader.j))
    case NextFuture => p.(reader := Waiting)
    case LeaveReader => p.(reader := Finished)
  }

  // The specification: all results, in the order of enqueueing.

  function Results(fn: Fn, input: seq<Metric>): seq<Metric> {
    if input == [] then [] else Results(fn, input[..|input| - 1]) + fn(input[|input| - 1])
  }

  lemma {:induction false} ResultsPrefix(fn: Fn, input: seq<Metric>, k: nat)
    requires k <= |input|
    ensures Results(fn, input[..k]) <= Results(fn, input)
  {
    if k == |input| {
      assert input[..k] == input;
    } else {
      var init := input[..|input| - 1];
      ResultsPrefix(fn, init, k);
      assert init[..k] == input[..k];
    }
  }

  lemma ResultsSnoc(fn: Fn, input: seq<Metric>, k: nat)
    requires k < |input|
    ensures Results(fn, input[..k + 1]) == Results(fn, input[..k]) + fn(input[k])
  {
    assert input[..k + 1][..k] == input[..k];
  }

  // What every interleaving keeps.

  /** How many futures, and how many jobs, have been put into their queues. */
  function FuturesPut(p: Pool): int {
    |p.input| - if p.enq.SendFuture? then 1 else 0
  }

  function JobsPut(p: Pool): int {
    |p.input| - if p.enq.SendFuture? || p.enq.SendJob? then 1 else 0
  }

  /** How many have been taken out. */
  function FuturesTaken(p: Pool): int {
    FuturesPut(p) - |p.queue|
  }

  function JobsTaken(p: Pool): int {
    JobsPut(p) - |p.jobs|
  }

  predicate Busy(w: Worker) {
    w.Working? || w.Sending? || w.Closing?
  }

  /** The reader has got the value of future `j`. */
  ghost predicate Received(p: Pool, j: nat) {
    j in p.closed || exists w :: 0 <= w < |p.workers| && p.workers[w] == Closing(j)
  }

  ghost predicate InWork(p: Pool, j: nat) {
    exists w :: 0 <= w < |p.workers| && Busy(p.workers[w]) && p.workers[w].j == j
  }

  /** Both queues hold consecutive numbers. */
  ghost predicate QueuesInOrder(p: Pool) {
    && 0 <= FuturesTaken(p) && 0 <= JobsTaken(p)
    && (p.enq.SendFuture? || p.enq.SendJob? ==> p.input != [])
    && (forall i :: 0 <= i < |p.queue| ==> p.queue[i] == FuturesTaken(p) + i)
    && (forall i :: 0 <= i < |p.jobs| ==> p.jobs[i] == JobsTaken(p) + i)
  }

  /** A job taken is closed or with exactly one worker; a job can be past its delivery only if the
      reader has got to it. */
  ghost predicate JobsAccountedFor(fn: Fn, p: Pool) {
    && (forall j :: 0 <= j < JobsTaken(p) ==> j in p.closed || InWork(p, j))
    && (forall j :: j in p.closed ==> j < JobsTaken(p))
    && (forall w :: 0 <= w < |p.workers| && Busy(p.workers[w]) ==>
          p.workers[w].j < JobsTaken(p) && p.workers[w].j !in p.closed)
    && (forall w, v :: 0 <= w < v < |p.workers| && Busy(p.workers[w]) && Busy(p.workers[v]) ==>
          p.workers[w].j != p.workers[v].j)
    && (forall w :: 0 <= w < |p.workers| && p.workers[w].Sending? ==> p.workers[w].out == fn(p.input[p.workers[w].j]))
    && (forall w :: 0 <= w < |p.workers| && p.workers[w].Gone? ==> p.enq.AllClosed? && p.jobs == [])
  }

  /** The reader goes through the futures one by one and has emitted what it has received. */
  ghost predicate ReaderInOrder(fn: Fn, p: Pool)
    requires QueuesInOrder(p)
  {
    var r := FuturesTaken(p);
    && (forall j: nat :: Received(p, j) ==> j < r)
    && match p.reader
       case Waiting => (forall j :: 0 <= j < r ==> j in p.closed) && p.emitted == Results(fn, p.input[..r])
       case Finished => (forall j :: 0 <= j < r ==> j in p.closed) && p.emitted == Results(fn, p.input[..r])
                        && Stopping(p) && p.queue == []
       case Reading(j) => j == r - 1 && (forall k :: 0 <= k < j ==> k in p.closed)
                          && p.emitted == Results(fn, p.input[..if Received(p, j) then r else j])
       case Emitting(j, rest) => j == r - 1 && (forall k :: 0 <= k < j ==> k in p.closed) && Received(p, j)
                                 && p.emitted + rest == Results(fn, p.input[..r])
  }

  ghost predicate Inv(fn: Fn, p: Pool) {
    QueuesInOrder(p) && JobsAccountedFor(fn, p) && ReaderInOrder(fn, p)
  }

  /** Safety: what has been emitted is a prefix of all results in the order of enqueueing. */
  lemma EmittedIsPrefix(fn: Fn, p: Pool)
    requires Inv(fn, p)
    ensures p.emitted <= Results(fn, p.input)
    ensures p.reader.Finished? ==> p.emitted == Results(fn, p.input)
  {
    var r := FuturesTaken(p);
    ResultsPrefix(fn, p.input, r);
    if p.reader.Reading? {
      ResultsPrefix(fn, p.input, p.reader.j);
    }
    if p.reader.Finished? {
      assert p.input[..r] == p.input;
    }
  }

  /** What the reader depends on is unchanged. */
  ghost predicate SameReading(p: Pool, q: Pool) {
    && q.reader == p.reader && q.emitted == p.emitted && p.closed == q.closed
    && FuturesTaken(q) == FuturesTaken(p) && p.input <= q.input
    && (Stopping(p) ==> Stopping(q) && q.queue == p.queue)
    && forall j: nat :: Received(q, j) == Received(p, j)
  }

  lemma ReaderStays(fn: Fn, p: Pool, q: Pool)
    requires Inv(fn, p) && QueuesInOrder(q) && SameReading(p, q)
    ensures ReaderInOrder(fn, q)
  {
    var r := FuturesTaken(p);
    assert p.input[..r] == q.input[..r];
    if p.reader.Reading? {
      assert p.input[..p.reader.j] == q.input[..p.reader.j];
    }
  }

  lemma EnqueueKeepsInv(fn: Fn, p: Pool, s: Step)
    requires Inv(fn, p) && Enabled(p, s) && (s.Enqueue? || s.PutFuture? || s.PutJob? || s.CloseQueue? || s.CloseJobs?)
    ensures Inv(fn, Next(fn, p, s))
  {
    var q := Next(fn, p, s);
    assert q.workers == p.workers && q.closed == p.closed;
    assert forall j: nat :: Received(q, j) == Received(p, j) && InWork(q, j) == InWork(p, j);
    assert QueuesInOrder(q);
    ReaderStays(fn, p, q);
  }

  lemma HandKeepsInv(fn: Fn, p: Pool)
    requires Inv(fn, p) && Enabled(p, HandFuture)
    ensures Inv(fn, Next(fn, p, HandFuture))
  {
    var q := Next(fn, p, HandFuture);
    assert forall j: nat :: Received(q, j) == Received(p, j) && InWork(q, j) == InWork(p, j);
    assert !Received(q, |p.input| - 1);
  }

  lemma TakeFutureKeepsInv(fn: Fn, p: Pool)
    requires Inv(fn, p) && Enabled(p, TakeFuture)
    ensures Inv(fn, Next(fn, p, TakeFuture))
  {
    var q := Next(fn, p, TakeFuture);
    assert forall j: nat :: Received(q, j) == Received(p, j) && InWork(q, j) == InWork(p, j);
    assert p.queue[0] == FuturesTaken(p);
    assert !Received(q, p.queue[0]);
  }

  /** Steps of the reader alone do not change the accounts. */
  lemma AccountsStay(fn: Fn, p: Pool, q: Pool)
    requires QueuesInOrder(p) && JobsAccountedFor(fn, p) && q == p.(reader := q.reader, emitted := q.emitted)
    ensures QueuesInOrder(q) && JobsAccountedFor(fn, q) && forall j: nat :: Received(q, j) == Received(p, j)
  {
    assert forall j: nat :: Received(q, j) == Received(p, j) && InWork(q, j) == InWork(p, j);
  }

  lemma EmitKeepsInv(fn: Fn, p: Pool, s: Step)
    requires Inv(fn, p) && Enabled(p, s) && (s.EmitOne? || s.EndEmit?)
    ensures Inv(fn, Next(fn, p, s))
  {
    var q := Next(fn, p, s);
    AccountsStay(fn, p, q);
    if s.EmitOne? {
      assert q.emitted + q.reader.rest == p.emitted + p.reader.rest;
    } else {
      assert p.emitted + p.reader.rest == p.emitted;
    }
  }

  lemma ReaderStepKeepsInv(fn: Fn, p: Pool, s: Step)
    requires Inv(fn, p) && Enabled(p, s) && (s.NextFuture? || s.LeaveReader?)
    ensures Inv(fn, Next(fn, p, s))
  {
    AccountsStay(fn, p, Next(fn, p, s));
    if s.NextFuture? {
      assert Received(p, p.reader.j);
    }
  }

  /** A worker moving from job state to job state for the same job keeps the accounts. */
  lemma WorkerMoves(fn: Fn, p: Pool, q: Pool, w: nat)
    requires JobsAccountedFor(fn, p) && QueuesInOrder(p) && w < |p.workers| && Busy(p.workers[w])
    requires |q.workers| == |p.workers| && q == p.(workers := p.workers[w := q.workers[w]], reader := q.reader)
    requires Busy(q.workers[w]) && q.workers[w].j == p.workers[w].j
    requires q.workers[w].Sending? ==> q.workers[w].out == fn(p.input[p.workers[w].j])
    ensures JobsAccountedFor(fn, q)
  {
    forall j | 0 <= j < JobsTaken(q)
      ensures j in q.closed || InWork(q, j)
    {
      if j !in p.closed {
        var v :| 0 <= v < |p.workers| && Busy(p.workers[v]) && p.workers[v].j == j;
        assert Busy(q.workers[v]) && q.workers[v].j == j;
      }
    }
  }

  lemma ComputeKeepsInv(fn: Fn, p: Pool, w: nat)
    requires Inv(fn, p) && Enabled(p, Compute(w))
    ensures Inv(fn, Next(fn, p, Compute(w)))
  {
    var q := Next(fn, p, Compute(w));
    WorkerMoves(fn, p, q, w);
    ReceivedStays(p, q, w);
    ReaderStays(fn, p, q);
  }

  /** Receipt does not change when a worker changes between states other than Closing. */
  lemma ReceivedStays(p: Pool, q: Pool, w: nat)
    requires w < |p.workers| == |q.workers| && q.closed == p.closed && q.workers == p.workers[w := q.workers[w]]
    requires !p.workers[w].Closing? && !q.workers[w].Closing?
    ensures forall j: nat :: Received(q, j) == Received(p, j)
  {
    forall j: nat
      ensures Received(q, j) == Received(p, j)
    {
      if v :| 0 <= v < |p.workers| && p.workers[v] == Closing(j) {
        assert q.workers[v] == Closing(j);
      }
      if v :| 0 <= v < |q.workers| && q.workers[v] == Closing(j) {
        assert p.workers[v] == Closing(j);
      }
    }
  }

  lemma TakeJobKeepsInv(fn: Fn, p: Pool, w: nat)
    requires Inv(fn, p) && Enabled(p, TakeJob(w))
    ensures Inv(fn, Next(fn, p, TakeJob(w)))
  {
    var q := Next(fn, p, TakeJob(w));
    assert p.jobs[0] == JobsTaken(p);
    forall j | 0 <= j < JobsTaken(q)
      ensures j in q.closed || InWork(q, j)
    {
      if j == JobsTaken(p) {
        assert Busy(q.workers[w]) && q.workers[w].j == j;
      } else if j !in p.closed {
        var v :| 0 <= v < |p.workers| && Busy(p.workers[v]) && p.workers[v].j == j;
        assert Busy(q.workers[v]) && q.workers[v].j == j;
      }
    }
    ReceivedStays(p, q, w);
    ReaderStays(fn, p, q);
  }

  lemma LeaveWorkerKeepsInv(fn: Fn, p: Pool, w: nat)
    requires Inv(fn, p) && Enabled(p, LeaveWorker(w))
    ensures Inv(fn, Next(fn, p, LeaveWorker(w)))
  {
    var q := Next(fn, p, LeaveWorker(w));
    forall j | 0 <= j < JobsTaken(q)
      ensures j in q.closed || InWork(q, j)
    {
      if j !in p.closed {
        var v :| 0 <= v < |p.workers| && Busy(p.workers[v]) && p.workers[v].j == j;
        assert Busy(q.workers[v]) && q.workers[v].j == j;
      }
    }
    ReceivedStays(p, q, w);
    ReaderStays(fn, p, q);
  }

  lemma DeliverKeepsInv(fn: Fn, p: Pool, w: nat)
    requires Inv(fn, p) && Enabled(p, Deliver(w))
    ensures Inv(fn, Next(fn, p, Deliver(w)))
  {
    var q := Next(fn, p, Deliver(w));
    var j := p.workers[w].j;
    WorkerMoves(fn, p, q, w);
    assert !Received(p, j);
    forall k: nat
      ensures Received(q, k) <==> Received(p, k) || k == j
    {
      if v :| 0 <= v < |p.workers| && p.workers[v] == Closing(k) {
        assert q.workers[v] == Closing(k);
      }
      if v :| 0 <= v < |q.workers| && q.workers[v] == Closing(k) && v != w {
        assert p.workers[v] == Closing(k);
      }
      assert q.workers[w] == Closing(j);
    }
    ResultsSnoc(fn, p.input, j);
  }

  lemma ClosingStaysReceived(p: Pool, q: Pool, w: nat, k: nat)
    requires w < |p.workers| && p.workers[w].Closing?
    requires q.workers == p.workers[w := Free] && q.closed == p.closed + {p.workers[w].j}
    ensures Received(q, k) <==> Received(p, k)
  {
    if v :| 0 <= v < |p.workers| && p.workers[v] == Closing(k) {
      assert v == w || q.workers[v] == Closing(k);
    }
    if v :| 0 <= v < |q.workers| && q.workers[v] == Closing(k) {
      assert p.workers[v] == Closing(k);
    }
    assert p.workers[w] == Closing(p.workers[w].j);
  }

  lemma AccountsAfterClose(fn: Fn, p: Pool, w: nat)
    requires Inv(fn, p) && Enabled(p, CloseFuture(w))
    ensures var q := Next(fn, p, CloseFuture(w)); QueuesInOrder(q) && JobsAccountedFor(fn, q)
  {
    var q := Next(fn, p, CloseFuture(w));
    forall k | 0 <= k < JobsTaken(q)
      ensures k in q.closed || InWork(q, k)
    {
      if k !in q.closed {
        var v :| 0 <= v < |p.workers| && Busy(p.workers[v]) && p.workers[v].j == k;
        assert Busy(q.workers[v]) && q.workers[v].j == k;
      }
    }
  }

  lemma CloseFutureKeepsInv(fn: Fn, p: Pool, w: nat)
    requires Inv(fn, p) && Enabled(p, CloseFuture(w))
    ensures Inv(fn, Next(fn, p, CloseFuture(w)))
  {
    var q := Next(fn, p, CloseFuture(w));
    AccountsAfterClose(fn, p, w);
    forall k: nat
      ensures Received(q, k) <==> Received(p, k)
    {
      ClosingStaysReceived(p, q, w, k);
    }
  }

  lemma StepKeepsInv(fn: Fn, p: Pool, s: Step)
    requires Inv(fn, p) && Enabled(p, s)
    ensures Inv(fn, Next(fn, p, s))
  {
    match s
    case HandFuture => HandKeepsInv(fn, p);
    case TakeJob(w) => TakeJobKeepsInv(fn, p, w);
    case Compute(w) => ComputeKeepsInv(fn, p, w);
    case Deliver(w) => DeliverKeepsInv(fn, p, w);
    case CloseFuture(w) => CloseFutureKeepsInv(fn, p, w);
    case LeaveWorker(w) => LeaveWorkerKeepsInv(fn, p, w);
    case TakeFuture => TakeFutureKeepsInv(fn, p);
    case EmitOne => EmitKeepsInv(fn, p, s);
    case EndEmit => EmitKeepsInv(fn, p, s);
    case NextFuture => ReaderStepKeepsInv(fn, p, s);
    case LeaveReader => ReaderStepKeepsInv(fn, p, s);
    case _ => EnqueueKeepsInv(fn, p, s);
  }

  lemma InvInitial(fn: Fn, queueSize: nat, workerCount: nat)
    ensures Inv(fn, Initial(queueSize, workerCount))
  {
    assert forall j: nat :: !Received(Initial(queueSize, workerCount), j);
  }

  // Whole runs.

  /** `run` is what `steps` do, from a new pool on. */
  ghost predicate IsRun(fn: Fn, queueSize: nat, workerCount: nat, run: seq<Pool>, steps: seq<Step>) {
    && |run| == |steps| + 1 && run[0] == Initial(queueSize, workerCount)
    && forall i :: 0 <= i < |steps| ==> Moves(fn, run[i], steps[i], run[i + 1])
  }

  ghost predicate Moves(fn: Fn, p: Pool, s: Step, q: Pool) {
    Enabled(p, s) && q == Next(fn, p, s)
  }

  /** The metrics with which Enqueue was called, in order. */
  function Enqueued(steps: seq<Step>): seq<Metric> {
    if steps == [] then []
    else
      var s := steps[|steps| - 1];
      Enqueued(steps[..|steps| - 1]) + if s.Enqueue? then [s.m] else []
  }

  lemma {:induction false} EveryRunKeepsInv(fn: Fn, queueSize: nat, workerCount: nat, run: seq<Pool>,
                                            steps: seq<Step>, i: nat)
    requires IsRun(fn, queueSize, workerCount, run, steps) && i < |run|
    ensures Inv(fn, run[i]) && |run[i].workers| == workerCount && run[i].input == Enqueued(steps[..i])
  {
    if i == 0 {
      InvInitial(fn, queueSize, workerCount);
    } else {
      EveryRunKeepsInv(fn, queueSize, workerCount, run, steps, i - 1);
      assert Moves(fn, run[i - 1], steps[i - 1], run[i - 1 + 1]);
      StepKeepsInv(fn, run[i - 1], steps[i - 1]);
      assert steps[..i][..i - 1] == steps[..i - 1];
      InputGrows(fn, run[i - 1], steps[i - 1]);
    }
  }

  lemma {:induction false} InputGrows(fn: Fn, p: Pool, s: Step)
    requires Enabled(p, s)
    ensures Next(fn, p, s).input == p.input + if s.Enqueue? then [s.m] else []
    ensures |Next(fn, p, s).workers| == |p.workers|
  {
  }

  /** Safety: in every interleaving the metrics emitted so far are a prefix of the results for all metrics
      enqueued so far, in the order of enqueueing, and once Stop has let the reader finish they are all of them. */
  lemma {:induction false} EmitsInOrder(fn: Fn, queueSize: nat, workerCount: nat, run: seq<Pool>,
                                        steps: seq<Step>, i: nat)
    requires IsRun(fn, queueSize, workerCount, run, steps) && i < |run|
    ensures run[i].emitted <= Results(fn, Enqueued(steps[..i]))
    ensures run[i].reader.Finished? ==> run[i].emitted == Results(fn, Enqueued(steps[..i]))
  {
    EveryRunKeepsInv(fn, queueSize, workerCount, run, steps, i);
    EmittedIsPrefix(fn, run[i]);
  }

  // Absence of deadlock.

  /** Nothing is left to do: the pool waits for the next Enqueue with the results for `ms` emitted, or Stop
      can return. */
  ghost predicate AtRest(fn: Fn, p: Pool, ms: seq<Metric>) {
    && p.emitted == Results(fn, ms)
    && ( || p.enq.Ready?
         || (p.enq.AllClosed? && p.reader.Finished? && forall w :: 0 <= w < |p.workers| ==> p.workers[w].Gone?))
  }

  /** The future the reader waits for always makes progress: its job is the oldest one that is not
      finished, so nothing can be in its way in the bounded worker queue. */
  lemma HeadFutureMoves(fn: Fn, p: Pool, j: nat)
    requires Inv(fn, p) && |p.workers| >= 1 && p.reader == Reading(j)
    ensures exists s: Step :: Internal(s) && Enabled(p, s)
  {
    if j in p.closed {
      assert Internal(NextFuture) && Enabled(p, NextFuture);
    } else if JobsPut(p) <= j {
      assert JobsTaken(p) !in p.closed;
      assert Internal(PutJob) && Enabled(p, PutJob);
    } else if JobsTaken(p) <= j {
      assert p.jobs != [];
      forall w | 0 <= w < |p.workers|
        ensures p.workers[w].Free?
      {
        assert !Busy(p.workers[w]);
      }
      assert Internal(TakeJob(0)) && Enabled(p, TakeJob(0));
    } else {
      var w :| 0 <= w < |p.workers| && Busy(p.workers[w]) && p.workers[w].j == j;
      match p.workers[w]
      case Working(_) => assert Internal(Compute(w)) && Enabled(p, Compute(w));
      case Sending(_, _) => assert Internal(Deliver(w)) && Enabled(p, Deliver(w));
      case Closing(_) => assert Internal(CloseFuture(w)) && Enabled(p, CloseFuture(w));
    }
  }

  /** A reader with nothing to read has emitted everything that was enqueued, unless the enqueuer is
      about to send it a future. */
  lemma IdleReader(fn: Fn, p: Pool)
    requires Inv(fn, p) && (p.reader.Waiting? || p.reader.Finished?) && p.queue == [] && !p.enq.SendFuture?
    ensures p.emitted == Results(fn, p.input) && !p.enq.SendJob? && p.jobs == []
    ensures forall w :: 0 <= w < |p.workers| ==> p.workers[w].Free? || p.workers[w].Gone?
  {
    assert p.input[..FuturesTaken(p)] == p.input;
    assert JobsTaken(p) !in p.closed;
    forall w | 0 <= w < |p.workers|
      ensures !Busy(p.workers[w])
    {
    }
  }

  /** No deadlock: as long as something is left to do, some goroutine can do it. */
  lemma NoDeadlock(fn: Fn, queueSize: nat, workerCount: nat, run: seq<Pool>, steps: seq<Step>)
    requires IsRun(fn, queueSize, workerCount, run, steps) && workerCount >= 1
    ensures var p := run[|steps|];
            AtRest(fn, p, Enqueued(steps)) || exists s: Step :: Internal(s) && Enabled(p, s)
  {
    EveryRunKeepsInv(fn, queueSize, workerCount, run, steps, |steps|);
    assert steps[..|steps|] == steps;
    AtRestOrMoves(fn, run[|steps|]);
  }

  lemma AtRestOrMoves(fn: Fn, p: Pool)
    requires Inv(fn, p) && |p.workers| >= 1
    ensures AtRest(fn, p, p.input) || exists s: Step :: Internal(s) && Enabled(p, s)
  {
    if p.reader.Reading? {
      HeadFutureMoves(fn, p, p.reader.j);
    } else if p.reader.Emitting? {
      var s := if p.reader.rest != [] then EmitOne else EndEmit;
      assert Internal(s) && Enabled(p, s);
    } else if p.queue != [] {
      assert Internal(TakeFuture) && Enabled(p, TakeFuture);
    } else if p.enq.SendFuture? {
      assert Internal(HandFuture) && Enabled(p, HandFuture);
    } else {
      IdleReader(fn, p);
      if p.reader.Waiting? && Stopping(p) {
        assert Internal(LeaveReader) && Enabled(p, LeaveReader);
      } else if p.enq.QueueClosed? {
        assert Internal(CloseJobs) && Enabled(p, CloseJobs);
      } else if p.enq.AllClosed? {
        if w :| 0 <= w < |p.workers| && p.workers[w].Free? {
          assert Internal(LeaveWorker(w)) && Enabled(p, LeaveWorker(w));
        }
      }
    }
  }

  // Termination: between calls of Enqueue and Stop only so many steps are possible.

  function Effort(w: Worker): nat {
    match w
    case Gone => 0
    case Free => 1
    case Closing(_) => 2
    case Sending(_, _) => 3
    case Working(_) => 4
  }

  function TotalEffort(ws: seq<Worker>): nat {
    if ws == [] then 0 else TotalEffort(ws[..|ws| - 1]) + Effort(ws[|ws| - 1])
  }

  lemma {:induction false} EffortUpdate(ws: seq<Worker>, w: nat, x: Worker)
    requires w < |ws|
    ensures TotalEffort(ws[w := x]) == TotalEffort(ws) - Effort(ws[w]) + Effort(x)
  {
    var n := |ws| - 1;
    if w == n {
      assert ws[w := x][..n] == ws[..n];
    } else {
      assert ws[w := x][..n] == ws[..n][w := x];
      EffortUpdate(ws[..n], w, x);
    }
  }

  ghost function ReaderEffort(p: Pool): nat {
    match p.reader
    case Finished => 0
    case Waiting => 1
    case Reading(j) => if Received(p, j) then 2 else 4
    case Emitting(_, _) => 3
  }

  function EnqueuerEffort(e: Enqueuer): nat {
    match e
    case Ready => 0
    case SendFuture => 10
    case SendJob => 5
    case QueueClosed => 1
    case AllClosed => 0
  }

  /** A bound on the number of internal steps that can still follow. */
  ghost function Remaining(fn: Fn, p: Pool): int {
    |Results(fn, p.input)| - |p.emitted| + 4 * |p.queue| + 4 * |p.jobs|
    + TotalEffort(p.workers) + EnqueuerEffort(p.enq) + ReaderEffort(p)
  }

  lemma WorkerStepsRunOut(fn: Fn, p: Pool, s: Step)
    requires Inv(fn, p) && Enabled(p, s) && (s.TakeJob? || s.Compute? || s.LeaveWorker?)
    ensures Remaining(fn, Next(fn, p, s)) < Remaining(fn, p)
  {
    var q := Next(fn, p, s);
    EffortUpdate(p.workers, s.w, q.workers[s.w]);
    ReceivedStays(p, q, s.w);
  }

  lemma DeliveryRunsOut(fn: Fn, p: Pool, s: Step)
    requires Inv(fn, p) && Enabled(p, s) && (s.Deliver? || s.CloseFuture?)
    ensures Remaining(fn, Next(fn, p, s)) < Remaining(fn, p)
  {
    var q := Next(fn, p, s);
    EffortUpdate(p.workers, s.w, q.workers[s.w]);
    if s.CloseFuture? && p.reader.Reading? {
      ClosingStaysReceived(p, q, s.w, p.reader.j);
    }
    if s.Deliver? {
      assert !Received(p, p.reader.j);
    }
  }

  lemma OtherStepsRunOut(fn: Fn, p: Pool, s: Step)
    requires Inv(fn, p) && Enabled(p, s) && Internal(s)
    requires !(s.TakeJob? || s.Compute? || s.LeaveWorker? || s.Deliver? || s.CloseFuture?)
    ensures Remaining(fn, Next(fn, p, s)) < Remaining(fn, p)
  {
    var q := Next(fn, p, s);
    assert q.workers == p.workers && q.input == p.input;
    assert forall j: nat :: Received(q, j) == Received(p, j);
  }

  /** Every internal step uses up some of the bound, so every run of internal steps ends, and by
      NoDeadlock it ends at rest. */
  lemma InternalStepsRunOut(fn: Fn, p: Pool, s: Step)
    requires Inv(fn, p) && Enabled(p, s) && Internal(s)
    ensures 0 <= Remaining(fn, Next(fn, p, s)) < Remaining(fn, p)
  {
    StepKeepsInv(fn, p, s);
    EmittedIsPrefix(fn, Next(fn, p, s));
    if s.TakeJob? || s.Compute? || s.LeaveWorker? {
      WorkerStepsRunOut(fn, p, s);
    } else if s.Deliver? || s.CloseFuture? {
      DeliveryRunsOut(fn, p, s);
    } else {
      OtherStepsRunOut(fn, p, s);
    }
  }

  ghost predicate InternalMove(fn: Fn, p: Pool, q: Pool) {
    exists s: Step :: Enabled(p, s) && Internal(s) && q == Next(fn, p, s)
  }

  lemma InternalMoveRunsOut(fn: Fn, p: Pool, q: Pool)
    requires Inv(fn, p) && InternalMove(fn, p, q)
    ensures Inv(fn, q) && 0 <= Remaining(fn, q) < Remaining(fn, p)
    ensures q.input == p.input && |q.workers| == |p.workers|
  {
    var s: Step :| Enabled(p, s) && Internal(s) && q == Next(fn, p, s);
    StepKeepsInv(fn, p, s);
    InternalStepsRunOut(fn, p, s);
  }

  /** After the last call of Enqueue or Stop, whatever the scheduler does, a run of internal steps is no longer
      than the bound. */
  lemma {:induction false} InternalRunsAreBounded(fn: Fn, run: seq<Pool>)
    requires |run| > 0 && Inv(fn, run[0])
    requires forall i :: 0 < i < |run| ==> InternalMove(fn, run[i - 1], run[i])
    ensures |run| - 1 <= Remaining(fn, run[0])
    ensures var q := run[|run| - 1]; Inv(fn, q) && q.input == run[0].input && |q.workers| == |run[0].workers|
    decreases |run|
  {
    EmittedIsPrefix(fn, run[0]);
    if |run| > 1 {
      assert InternalMove(fn, run[0], run[1]);
      InternalMoveRunsOut(fn, run[0], run[1]);
      var rest := run[1..];
      forall i | 0 < i < |rest|
        ensures InternalMove(fn, rest[i - 1], rest[i])
      {
        var k := i + 1;
        assert InternalMove(fn, run[k - 1], run[k]);
      }
      InternalRunsAreBounded(fn, rest);
    }
  }

  /** Liveness: any run followed by internal steps until none is possible any more, which takes no more than
      the bound, ends with the results for all metrics enqueued emitted, ready for the next call or with all
      goroutines gone. */
  lemma {:induction false} AllResultsComeOut(fn: Fn, queueSize: nat, workerCount: nat, run: seq<Pool>,
                                             steps: seq<Step>, tail: seq<Pool>)
    requires workerCount >= 1 && IsRun(fn, queueSize, workerCount, run, steps)
    requires |tail| > 0 && tail[0] == run[|steps|]
    requires forall i :: 0 < i < |tail| ==> InternalMove(fn, tail[i - 1], tail[i])
    ensures |tail| - 1 <= Remaining(fn, tail[0])
    ensures var q := tail[|tail| - 1];
            (forall s: Step :: Internal(s) ==> !Enabled(q, s)) ==> AtRest(fn, q, Enqueued(steps))
  {
    EveryRunKeepsInv(fn, queueSize, workerCount, run, steps, |steps|);
    assert steps[..|steps|] == steps;
    InternalRunsAreBounded(fn, tail);
    AtRestOrMoves(fn, tail[|tail| - 1]);
  }
}
