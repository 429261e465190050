/** An output plugin with its buffer (models/running_output.go). The plugin's answers and the
    metrics that other goroutines add in between are parameters of `Write`, so that its contract
    speaks about every interleaving of additions with the steps of a write. */
module RunningOutputs {
  import opened Metrics
  import opened BufferSpec
  import opened Buffers
  import opened Seqs

  /** The successful calls of the plugin, the latest outermost: a batch and the position, among all
      metrics ever added, of its first metric. */
  datatype Calls = None | Then(earlier: Calls, at: nat, batch: seq<Metric>)

  function Count(calls: Calls): nat {
    match calls
    case None => 0
    case Then(earlier, _, _) => Count(earlier) + 1
  }

  /** All metrics written, in the order of writing. */
  function Written(calls: Calls): seq<Metric> {
    match calls
    case None => []
    case Then(earlier, _, batch) => Written(earlier) + batch
  }

  /** The batches are disjoint stretches of `added[..limit]` of 1 to `size` metrics each, in order. */
  ghost predicate InArrivalOrder(calls: Calls, added: seq<Metric>, size: nat, limit: nat) {
    match calls
    case None => true
    case Then(earlier, at, batch) =>
      && 0 < |batch| <= size && at + |batch| <= limit <= |added|
      && batch == added[at..at + |batch|]
      && InArrivalOrder(earlier, added, size, at)
  }

  lemma {:induction false} OrderGrows(calls: Calls, added: seq<Metric>, more: seq<Metric>, size: nat,
                                      limit: nat, limit': nat)
    requires InArrivalOrder(calls, added, size, limit)
    requires limit <= limit' <= |added| + |more|
    ensures InArrivalOrder(calls, added + more, size, limit')
  {
    match calls
    case None =>
    case Then(earlier, at, _) => OrderGrows(earlier, added, more, size, at, at);
  }

  /** How many of the metrics present in `s0` are still queued in `s`; not positive if none is. */
  function Left(s0: State, s: State): int {
    |s.queue| - (|s.added| - |s0.added|)
  }

  /** After `calls` have succeeded: they came in order of arrival, before everything still queued,
      and they are what was accepted. */
  ghost predicate Progress(s0: State, s: State, size: nat, calls: Calls) {
    && s.batch == [] && s0.added <= s.added && |s.queue| <= |s.added|
    && InArrivalOrder(calls, s.added, size, |s.added| - |s.queue|)
    && s.accepted == s0.accepted + Written(calls)
  }

  /** After `calls` have succeeded and the next `batch`, which begins at `at`, has failed: exactly
      the earlier batches were accepted, and the failed one is back together with everything that
      arrived after it, as far as it fits. */
  ghost predicate FailedAfter(s0: State, s: State, size: nat, calls: Calls, at: nat, batch: seq<Metric>) {
    && s.batch == [] && s0.added <= s.added
    && InArrivalOrder(Then(calls, at, batch), s.added, size, |s.added|)
    && s.accepted == s0.accepted + Written(calls)
    && Suffix(s.queue, s.added) && |s.queue| == Min(s.cap, |s.added| - at)
  }

  lemma {:induction false} ProgressArrive(s0: State, s: State, size: nat, calls: Calls, ms: seq<Metric>)
    requires InOrder(s) && Progress(s0, s, size, calls)
    ensures Progress(s0, AddAll(s, ms), size, calls)
    ensures Left(s0, AddAll(s, ms)) <= Left(s0, s)
  {
    var t := AddAll(s, ms);
    OrderGrows(calls, s.added, ms, size, |s.added| - |s.queue|, |t.added| - |t.queue|);
  }

  lemma {:induction false} OrderTaken(s: State, size: nat, calls: Calls, ms: seq<Metric>, limit: nat)
    requires InOrder(s) && s.queue != [] && size >= 1
    requires InArrivalOrder(calls, s.added, size, |s.added| - |s.queue|)
    requires |s.added| - |s.queue| + Min(|s.queue|, size) <= limit <= |s.added| + |ms|
    ensures InArrivalOrder(Then(calls, |s.added| - |s.queue|, TakeBatch(s, size).batch), s.added + ms, size, limit)
  {
    var at, batch := |s.added| - |s.queue|, TakeBatch(s, size).batch;
    assert batch == s.added[at..at + |batch|];
    OrderGrows(Then(calls, at, batch), s.added, ms, size, at + |batch|, limit);
  }

  /** A batch takes `size` of the metrics present at entry, or all that are left of them. */
  lemma LeftShrinks(s0: State, s: State, size: nat, ms: seq<Metric>)
    requires |s0.added| <= |s.added|
    ensures var t := AddAll(TakeBatch(s, size), ms);
            Left(s0, t) <= 0 || Left(s0, t) <= Left(s0, s) - size
  {
    var taken := TakeBatch(s, size);
    assert |AddAll(taken, ms).queue| <= |taken.queue| + |ms|;
  }

  lemma {:induction false} ProgressAccept(s0: State, s: State, size: nat, calls: Calls, ms: seq<Metric>)
    requires InOrder(s) && Progress(s0, s, size, calls) && s.queue != [] && size >= 1
    ensures Progress(s0, AcceptBatch(AddAll(TakeBatch(s, size), ms)), size,
                     Then(calls, |s.added| - |s.queue|, TakeBatch(s, size).batch))
  {
    var taken := TakeBatch(s, size);
    var left := |Newest(s.cap, taken.queue + ms)|;
    assert left <= |taken.queue| + |ms|;
    OrderTaken(s, size, calls, ms, |s.added| + |ms| - left);
    Regroup(s0.accepted, Written(calls), taken.batch);
  }

  lemma {:induction false} ProgressReject(s0: State, s: State, size: nat, calls: Calls, ms: seq<Metric>)
    requires InOrder(s) && Progress(s0, s, size, calls) && s.queue != [] && size >= 1
    ensures FailedAfter(s0, RejectBatch(AddAll(TakeBatch(s, size), ms)), size, calls,
                        |s.added| - |s.queue|, TakeBatch(s, size).batch)
  {
    OrderTaken(s, size, calls, ms, |s.added| + |ms|);
    FailedWriteIsInvisible(s, size, ms);
    SuffixGrows(s.queue, s.added, ms, Excess(s.cap, s.queue + ms));
  }

  /** The number of batches a write takes at most. */
  function Batches(entries: nat, size: nat): nat
    requires size >= 1
  {
    entries / size + 1
  }

  /** What is left of `entries` after `i` full batches. */
  ghost function After(entries: int, size: nat, i: nat): int {
    if i == 0 then entries else After(entries, size, i - 1) - size
  }

  lemma {:induction false} AfterProduct(entries: int, size: nat, i: nat)
    ensures After(entries, size, i) == entries - i * size
  {
    if i > 0 {
      AfterProduct(entries, size, i - 1);
      assert i * size == (i - 1) * size + size;
    }
  }

  /** No more batches than it takes, one of them possibly for later arrivals, and enough for all entries. */
  lemma BatchesExact(entries: nat, size: nat)
    requires size >= 1
    ensures (Batches(entries, size) - 1) * size <= entries < Batches(entries, size) * size
  {
    var q := entries / size;
    assert entries == q * size + entries % size;
    assert (q + 1) * size == q * size + size;
  }

  /** That many batches leave none of the entries. */
  lemma AllTaken(entries: nat, size: nat)
    requires size >= 1
    ensures After(entries, size, Batches(entries, size)) < 0
  {
    BatchesExact(entries, size);
    AfterProduct(entries, size, Batches(entries, size));
  }

  /** Any call but the first comes after a full batch of the entries. */
  lemma CallsBounded(made: nat, entries: nat, size: nat)
    requires size >= 1 && 1 <= made <= Batches(entries, size)
    ensures (made - 1) * size <= entries
  {
    BatchesExact(entries, size);
    var more := Batches(entries, size) - made;
    assert (Batches(entries, size) - 1) * size == (made - 1) * size + more * size;
  }

  // One round of a write.

  /** `calls` have succeeded in a write that began with `n` metrics in `s0`. */
  ghost predicate Underway(s0: State, n: nat, s: State, size: nat, calls: Calls) {
    && Progress(s0, s, size, calls)
    && (Left(s0, s) <= 0 || Left(s0, s) <= After(n, size, Count(calls)))
  }

  lemma {:induction false} UnderwayArrive(s0: State, n: nat, s: State, size: nat, calls: Calls, ms: seq<Metric>)
    requires InOrder(s) && Underway(s0, n, s, size, calls)
    ensures Underway(s0, n, AddAll(s, ms), size, calls)
  {
    ProgressArrive(s0, s, size, calls, ms);
  }

  /** A successful call extends the calls. */
  lemma {:induction false} UnderwayAccept(s0: State, n: nat, s: State, size: nat, calls: Calls, ms: seq<Metric>)
    requires InOrder(s) && Underway(s0, n, s, size, calls) && s.queue != [] && size >= 1
    ensures Underway(s0, n, AcceptBatch(AddAll(TakeBatch(s, size), ms)), size,
                     Then(calls, |s.added| - |s.queue|, TakeBatch(s, size).batch))
  {
    ProgressAccept(s0, s, size, calls, ms);
    LeftShrinks(s0, s, size, ms);
  }

  /** The state after a batch has been sent, while `ms` arrived. */
  function Sent(s: State, size: nat, ms: seq<Metric>, ok: bool): State {
    var out := AddAll(TakeBatch(s, size), ms);
    if ok then AcceptBatch(out) else RejectBatch(out)
  }

  /** What becomes of sending a batch while `ms` arrive. */
  ghost predicate Outcome(s0: State, n: nat, s: State, size: nat, calls: Calls, ms: seq<Metric>)
    requires |s.queue| <= |s.added|
  {
    var out, at := TakeBatch(s, size), |s.added| - |s.queue|;
    var good, bad := Sent(s, size, ms, true), Sent(s, size, ms, false);
    && Underway(s0, n, good, size, Then(calls, at, out.batch)) && good.added == s.added + ms
    && FailedAfter(s0, bad, size, calls, at, out.batch) && bad.added == s.added + ms
  }

  lemma {:induction false} SendOutcome(s0: State, n: nat, s: State, size: nat, calls: Calls, ms: seq<Metric>)
    requires InOrder(s) && Underway(s0, n, s, size, calls) && size >= 1
    ensures s.queue != [] ==> Outcome(s0, n, s, size, calls, ms)
  {
    if s.queue != [] {
      UnderwayAccept(s0, n, s, size, calls, ms);
      ProgressReject(s0, s, size, calls, ms);
    }
  }

  // What other goroutines do meanwhile: AddMetric stores a metric in the buffer, and then notes it.

  datatype Arrival = Stored(m: Metric) | Noted

  function Stores(es: seq<Arrival>): seq<Metric> {
    if es == [] then []
    else Stores(es[..|es| - 1]) + if es[|es| - 1].Stored? then [es[|es| - 1].m] else []
  }

  function Notes(es: seq<Arrival>): nat {
    if es == [] then 0
    else Notes(es[..|es| - 1]) + if es[|es| - 1].Noted? then 1 else 0
  }

  lemma {:induction false} ArrivalsNext(es: seq<Arrival>, i: nat)
    requires i < |es|
    ensures Stores(es[..i + 1]) == if es[i].Stored? then Stores(es[..i]) + [es[i].m] else Stores(es[..i])
    ensures Notes(es[..i + 1]) == Notes(es[..i]) + if es[i].Noted? then 1 else 0
  {
    assert es[..i + 1][..i] == es[..i];
  }

  lemma {:induction false} AddNothing(s: State)
    requires |s.queue| <= s.cap
    ensures AddAll(s, []) == s
  {
    assert s.queue + [] == s.queue && s.added + [] == s.added && s.rejected + [] == s.rejected;
  }

  lemma {:induction false} ArrivalsTogether(a: seq<Arrival>, b: seq<Arrival>)
    ensures Stores(a + b) == Stores(a) + Stores(b) && Notes(a + b) == Notes(a) + Notes(b)
  {
    if b == [] {
      assert a + b == a;
    } else {
      var n := |b| - 1;
      ArrivalsTogether(a, b[..n]);
      assert (a + b)[..|a + b| - 1] == a + b[..n];
    }
  }

  /** Everything that happens in a write up to the first `slots` gaps between its rounds. */
  function Until(early: seq<Arrival>, arrivals: nat -> seq<Arrival>, slots: nat): seq<Arrival> {
    if slots == 0 then early else Until(early, arrivals, slots - 1) + arrivals(slots - 1)
  }

  // The counter of new metrics and the signal that a batch is ready.

  /** After `n` more metrics the counter has gone on from `c0` modulo the batch size, and there is a signal
      exactly if there was one or the counter has gone round. */
  ghost predicate Counts(c0: nat, r0: bool, n: int, size: nat, c: nat, r: bool) {
    size >= 1 && c0 < size && c < size && n >= 0 && Congruent(c, c0 + n, size) && (r <==> r0 || c0 + n >= size)
  }

  /** `c` is `total` modulo `size`. */
  ghost predicate Congruent(c: nat, total: int, size: nat)
    requires size >= 1
  {
    exists k: nat :: total == c + Multiple(k, size)
  }

  function Multiple(k: nat, size: nat): nat {
    if k == 0 then 0 else Multiple(k - 1, size) + size
  }

  lemma {:induction false} MultipleAdds(j: nat, k: nat, size: nat)
    ensures Multiple(j + k, size) == Multiple(j, size) + Multiple(k, size)
  {
    if k > 0 {
      MultipleAdds(j, k - 1, size);
    }
  }

  lemma {:induction false} CountsNone(c: nat, r: bool, size: nat)
    requires c < size
    ensures Counts(c, r, 0, size, c, r)
  {
    assert c + 0 == c + Multiple(0, size);
  }

  lemma {:induction false} CountsOne(c: nat, r: bool, size: nat)
    requires c < size
    ensures var c' := if c + 1 == size then 0 else c + 1; Counts(c, r, 1, size, c', r || c' == 0)
  {
    assert c + 1 == if c + 1 == size then 0 + Multiple(1, size) else c + 1 + Multiple(0, size);
  }

  lemma {:induction false} CountsTogether(c0: nat, r0: bool, n: int, size: nat, c1: nat, r1: bool, m: int, c2: nat,
                                          r2: bool)
    requires Counts(c0, r0, n, size, c1, r1) && Counts(c1, r1, m, size, c2, r2)
    ensures Counts(c0, r0, n + m, size, c2, r2)
  {
    var j: nat :| c0 + n == c1 + Multiple(j, size);
    var k: nat :| c1 + m == c2 + Multiple(k, size);
    MultipleAdds(j, k, size);
    assert c0 + (n + m) == c2 + Multiple(j + k, size);
    if j > 0 {
      assert Multiple(j, size) >= size;
    }
  }

  class RunningOutput {
    const buffer: Buffer
    const metricBatchSize: nat
    var newMetricsCount: nat
    var batchReady: bool          // whether the one-slot BatchReady channel holds a signal
    var filtered: seq<Metric>     // metrics on which Drop was called

    ghost predicate Valid()
      reads this, buffer, buffer.buf
    {
      && buffer.Valid() && InOrder(buffer.abs)
      && 1 <= metricBatchSize && newMetricsCount < metricBatchSize
    }

    /** The counter and the signal after `n` more metrics. */
    ghost predicate Counted(c0: nat, r0: bool, n: int)
      reads this
    {
      Counts(c0, r0, n, metricBatchSize, newMetricsCount, batchReady)
    }

    constructor (batchSize: nat, bufferLimit: nat)
      requires batchSize >= 1 && bufferLimit >= 1
      ensures Valid() && fresh(buffer) && fresh(buffer.buf)
      ensures buffer.abs == Empty(bufferLimit) && metricBatchSize == batchSize
      ensures newMetricsCount == 0 && !batchReady && filtered == []
    {
      buffer := new Buffer(bufferLimit);
      metricBatchSize := batchSize;
      newMetricsCount, batchReady, filtered := 0, false, [];
    }

    /** Filters the metric or adds it to the buffer; every `metricBatchSize`-th metric since the
        counter was last cleared signals that a batch is ready. */
    method AddMetric(m: Metric, selected: bool, hasFields: bool)
      requires Valid()
      modifies this, buffer, buffer.buf
      ensures Valid()
      ensures !(selected && hasFields) ==> buffer.abs == old(buffer.abs) && filtered == old(filtered) + [m]
      ensures !(selected && hasFields) ==> newMetricsCount == old(newMetricsCount) && batchReady == old(batchReady)
      ensures selected && hasFields ==> buffer.abs == AddAll(old(buffer.abs), [m]) && filtered == old(filtered)
      ensures Counted(old(newMetricsCount), old(batchReady), if selected && hasFields then 1 else 0)
    {
      CountsNone(newMetricsCount, batchReady, metricBatchSize);
      if !selected {
        filtered := filtered + [m];
        return;
      }
      if !hasFields {
        filtered := filtered + [m];
        return;
      }
      Store(m);
      Note();
    }

    /** The first half of adding a metric: it goes into the buffer. */
    method Store(m: Metric)
      requires Valid()
      modifies buffer, buffer.buf
      ensures Valid() && buffer.abs == AddAll(old(buffer.abs), [m])
    {
      StepKeepsOrder(buffer.abs, Op.Add([m]));
      var _ := buffer.Add([m]);
    }

    /** The second half: it is counted, and every `metricBatchSize`-th one raises the signal. */
    method Note()
      requires Valid()
      modifies this`newMetricsCount, this`batchReady
      ensures Valid() && Counted(old(newMetricsCount), old(batchReady), 1)
    {
      CountsOne(newMetricsCount, batchReady, metricBatchSize);
      newMetricsCount := newMetricsCount + 1;
      if newMetricsCount == metricBatchSize {
        newMetricsCount := 0;
        if !batchReady {
          batchReady := true;
        }
      }
    }

    /** What happens in a gap between two steps of a write. */
    method Arrive(es: seq<Arrival>)
      requires Valid()
      modifies this, buffer, buffer.buf
      ensures Valid()
      ensures buffer.abs == AddAll(old(buffer.abs), Stores(es))
      ensures Counted(old(newMetricsCount), old(batchReady), Notes(es))
    {
      ghost var s, c0, r0 := buffer.abs, newMetricsCount, batchReady;
      CountsNone(c0, r0, metricBatchSize);
      AddNothing(s);
      for i := 0 to |es|
        invariant Valid()
        invariant buffer.abs == AddAll(s, Stores(es[..i]))
        invariant Counted(c0, r0, Notes(es[..i]))
      {
        ArrivalsNext(es, i);
        if es[i].Stored? {
          AddAllSnoc(s, Stores(es[..i]), es[i].m);
          Store(es[i].m);
        } else {
          ghost var c, r := newMetricsCount, batchReady;
          Note();
          CountsTogether(c0, r0, Notes(es[..i]), metricBatchSize, c, r, 1, newMetricsCount, batchReady);
        }
      }
      assert es[..|es|] == es;
    }

    /** Writes a single batch, with `arrivals` while it is out; `ok` is the plugin's answer. */
    method WriteBatch(arrivals: seq<Arrival>, ok: bool) returns (batch: seq<Metric>)
      requires Valid() && buffer.abs.batch == []
      modifies this, buffer, buffer.buf
      ensures Valid()
      ensures batch == TakeBatch(old(buffer.abs), metricBatchSize).batch
      ensures batch == [] ==> old(buffer.abs.queue) == [] && buffer.abs == old(buffer.abs)
      ensures batch != [] ==> buffer.abs == Sent(old(buffer.abs), metricBatchSize, Stores(arrivals), ok)
      ensures Counted(old(newMetricsCount), old(batchReady), if batch == [] then 0 else Notes(arrivals))
    {
      CountsNone(newMetricsCount, batchReady, metricBatchSize);
      StepKeepsOrder(buffer.abs, Op.Batch(metricBatchSize));
      batch := buffer.Batch(metricBatchSize);
      if |batch| == 0 {
        return;
      }
      Arrive(arrivals);
      if !ok {
        StepKeepsOrder(buffer.abs, Op.Reject);
        buffer.Reject(batch);
        return;
      }
      StepKeepsOrder(buffer.abs, Op.Accept);
      buffer.Accept(batch);
    }

    /** One round of a write, once the arrivals before it have happened. */
    method WriteNext(arrivals: seq<Arrival>, ok: bool, ghost s0: State, ghost n: nat, ghost calls: Calls)
        returns (batch: seq<Metric>, ghost at: nat)
      requires Valid() && Underway(s0, n, buffer.abs, metricBatchSize, calls)
      modifies this, buffer, buffer.buf
      ensures Valid()
      ensures batch == [] ==> buffer.abs == old(buffer.abs) && buffer.abs.queue == []
      ensures batch != [] && ok ==> Underway(s0, n, buffer.abs, metricBatchSize, Then(calls, at, batch))
      ensures batch != [] && !ok ==> FailedAfter(s0, buffer.abs, metricBatchSize, calls, at, batch)
      ensures buffer.abs.added == old(buffer.abs.added) + if batch == [] then [] else Stores(arrivals)
      ensures Counted(old(newMetricsCount), old(batchReady), if batch == [] then 0 else Notes(arrivals))
    {
      at := |buffer.abs.added| - |buffer.abs.queue|;
      SendOutcome(s0, n, buffer.abs, metricBatchSize, calls, Stores(arrivals));
      batch := WriteBatch(arrivals, ok);
    }

    /** Arrivals between two rounds, after `before`. */
    method Gap(es: seq<Arrival>, ghost s0: State, ghost n: nat, ghost calls: Calls,
               ghost start: State, ghost r0: bool, ghost before: seq<Arrival>)
      requires Valid() && Underway(s0, n, buffer.abs, metricBatchSize, calls) && Came(start, 0, r0, before)
      modifies this, buffer, buffer.buf
      ensures Valid() && Underway(s0, n, buffer.abs, metricBatchSize, calls) && Came(start, 0, r0, before + es)
    {
      ghost var added, c, r := buffer.abs.added, newMetricsCount, batchReady;
      UnderwayArrive(s0, n, buffer.abs, metricBatchSize, calls, Stores(es));
      Arrive(es);
      CameTogether(start, r0, before, added, c, r, es);
    }

    /** A batch is sent, after the arrivals `before`. */
    method Send(during: seq<Arrival>, ok: bool, ghost s0: State, ghost n: nat, ghost calls: Calls,
                ghost start: State, ghost r0: bool, ghost before: seq<Arrival>)
        returns (batch: seq<Metric>, ghost at: nat)
      requires Valid() && Underway(s0, n, buffer.abs, metricBatchSize, calls) && Came(start, 0, r0, before)
      modifies this, buffer, buffer.buf
      ensures Valid()
      ensures batch == [] ==> Underway(s0, n, buffer.abs, metricBatchSize, calls) && buffer.abs.queue == []
      ensures batch != [] && ok ==> Underway(s0, n, buffer.abs, metricBatchSize, Then(calls, at, batch))
      ensures batch != [] && !ok ==> FailedAfter(s0, buffer.abs, metricBatchSize, calls, at, batch)
      ensures Came(start, 0, r0, if batch == [] then before else before + during)
    {
      ghost var added, c, r := buffer.abs.added, newMetricsCount, batchReady;
      batch, at := WriteNext(during, ok, s0, n, calls);
      if batch == [] {
        CountsTogether(0, r0, Notes(before), metricBatchSize, c, r, 0, newMetricsCount, batchReady);
      } else {
        CameTogether(start, r0, before, added, c, r, during);
      }
    }

    /** One round of a write, with arrivals before the batch is taken and while it is out. */
    method WriteRound(ghost early: seq<Arrival>, arrivals: nat -> seq<Arrival>, i: nat, ok: bool,
                      ghost s0: State, ghost n: nat, ghost calls: Calls, ghost start: State, ghost r0: bool)
        returns (batch: seq<Metric>, ghost at: nat)
      requires Valid() && Underway(s0, n, buffer.abs, metricBatchSize, calls)
      requires Came(start, 0, r0, Until(early, arrivals, 2 * i))
      modifies this, buffer, buffer.buf
      ensures Valid()
      ensures batch == [] ==> Underway(s0, n, buffer.abs, metricBatchSize, calls) && buffer.abs.queue == []
      ensures batch != [] && ok ==> Underway(s0, n, buffer.abs, metricBatchSize, Then(calls, at, batch))
      ensures batch != [] && !ok ==> FailedAfter(s0, buffer.abs, metricBatchSize, calls, at, batch)
      ensures Came(start, 0, r0, Until(early, arrivals, if batch == [] then 2 * i + 1 else 2 * i + 2))
    {
      Gap(arrivals(2 * i), s0, n, calls, start, r0, Until(early, arrivals, 2 * i));
      batch, at := Send(arrivals(2 * i + 1), ok, s0, n, calls, start, r0, Until(early, arrivals, 2 * i + 1));
    }

    /** All of these arrivals, and no others, have come since the given state and counter. */
    ghost predicate Came(s: State, c: nat, r: bool, es: seq<Arrival>)
      reads this, buffer
    {
      buffer.abs.added == s.added + Stores(es) && Counted(c, r, Notes(es))
    }

    /** Writes the buffered metrics batch by batch until all have been sent or one write fails. `early` happens
        before the length of the buffer is read, `arrivals(2 * i)` before the `i`-th batch is taken and
        `arrivals(2 * i + 1)` while it is out; `ok(i)` is the plugin's answer. `calls` are the successful calls
        of the plugin, `failed` is the batch that it refused, or empty, and the first `slots` of the arrivals
        have happened before the end. */
    method Write(early: seq<Arrival>, arrivals: nat -> seq<Arrival>, ok: nat -> bool)
        returns (failed: seq<Metric>, ghost calls: Calls, ghost at: nat, ghost slots: nat)
      requires Valid() && buffer.abs.batch == []
      modifies this, buffer, buffer.buf
      ensures Valid()
      // at most len/batch+1 plugin calls, all successful but possibly the last
      ensures var made := Count(calls) + if failed == [] then 0 else 1;
              made > 0 ==> (made - 1) * metricBatchSize <= |AddAll(old(buffer.abs), Stores(early)).queue|
      ensures (forall i :: 0 <= i < Count(calls) ==> ok(i)) && (failed != [] ==> !ok(Count(calls)))
      // without an error nothing present when the length was read remains queued
      ensures failed == [] ==>
                && Progress(AddAll(old(buffer.abs), Stores(early)), buffer.abs, metricBatchSize, calls)
                && Left(AddAll(old(buffer.abs), Stores(early)), buffer.abs) <= 0
      // the first error ends the write
      ensures failed != [] ==>
                FailedAfter(AddAll(old(buffer.abs), Stores(early)), buffer.abs, metricBatchSize, calls, at, failed)
      // the metrics stored meanwhile have been added, and those noted meanwhile counted from zero
      ensures Came(old(buffer.abs), 0, old(batchReady), Until(early, arrivals, slots))
    {
      newMetricsCount := 0;
      Arrive(early);
      ghost var entries := |buffer.abs.queue|;
      failed, calls, at, slots := WriteLoop(early, arrivals, ok, buffer.abs, old(buffer.abs), old(batchReady));
      ghost var made := Count(calls) + if failed == [] then 0 else 1;
      if made > 0 {
        CallsBounded(made, entries, metricBatchSize);
      }
    }

    /** The loop of Write, from state `s0` on; the counter was cleared in state `start`. */
    method WriteLoop(ghost early: seq<Arrival>, arrivals: nat -> seq<Arrival>, ok: nat -> bool,
                     ghost s0: State, ghost start: State, ghost r0: bool)
        returns (failed: seq<Metric>, ghost calls: Calls, ghost at: nat, ghost slots: nat)
      requires Valid() && buffer.abs == s0 && s0.batch == [] && Came(start, 0, r0, early)
      modifies this, buffer, buffer.buf
      ensures Valid()
      ensures Count(calls) + (if failed == [] then 0 else 1) <= Batches(|s0.queue|, metricBatchSize)
      ensures (forall i :: 0 <= i < Count(calls) ==> ok(i)) && (failed != [] ==> !ok(Count(calls)))
      ensures failed == [] ==> Progress(s0, buffer.abs, metricBatchSize, calls) && Left(s0, buffer.abs) <= 0
      ensures failed != [] ==> FailedAfter(s0, buffer.abs, metricBatchSize, calls, at, failed)
      ensures Came(start, 0, r0, Until(early, arrivals, slots))
    {
      var nBuffer := buffer.Length();
      assert nBuffer == |s0.queue|;
      var nBatches := Batches(nBuffer, metricBatchSize);
      failed, calls, at, slots := [], None, 0, 0;
      AllTaken(nBuffer, metricBatchSize);
      for i := 0 to nBatches
        invariant Valid() && Count(calls) == i && forall k :: 0 <= k < i ==> ok(k)
        invariant slots == 2 * i && Underway(s0, nBuffer, buffer.abs, metricBatchSize, calls)
        invariant Came(start, 0, r0, Until(early, arrivals, slots))
      {
        var batch;
        batch, at := WriteRound(early, arrivals, i, ok(i), s0, nBuffer, calls, start, r0);
        slots := if batch == [] then 2 * i + 1 else 2 * i + 2;
        if |batch| == 0 {
          break;
        }
        if !ok(i) {
          failed := batch;
          return;
        }
        calls := Then(calls, at, batch);
      }
    }

    /** More arrivals after those that have come before. */
    lemma {:induction false} CameTogether(start: State, r0: bool, before: seq<Arrival>, added: seq<Metric>,
                                          c: nat, r: bool, es: seq<Arrival>)
      requires added == start.added + Stores(before) && Counts(0, r0, Notes(before), metricBatchSize, c, r)
      requires buffer.abs.added == added + Stores(es) && Counted(c, r, Notes(es))
      ensures Came(start, 0, r0, before + es)
    {
      ArrivalsTogether(before, es);
      CountsTogether(0, r0, Notes(before), metricBatchSize, c, r, Notes(es), newMetricsCount, batchReady);
    }
  }
}
