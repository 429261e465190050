/** What an output's metric buffer means, independently of how it is stored:
    a FIFO queue of at most `cap` metrics, at most one batch that is out with the
    output plugin, every metric ever added, and the metrics on which the buffer
    called `Accept` or `Reject`, in the order of the calls (models/buffer.go). */
module BufferSpec {
  import opened Metrics


  datatype State = State(cap: nat, queue: seq<Metric>, batch: seq<Metric>,
                            added: seq<Metric>, accepted: seq<Metric>, rejected: seq<Metric>)

  function Min(a: int, b: int): int {
    if b < a then b else a
  }

  /** By how much `s` exceeds `n` elements. */
  function Excess(n: nat, s: seq<Metric>): (k: nat)
    ensures k <= |s|
  {
    if |s| <= n then 0 else |s| - n
  }

  /** The newest `n` elements of `s`. */
  function Newest(n: nat, s: seq<Metric>): seq<Metric> {
    s[Excess(n, s)..]
  }

  /** The elements of `s` that do not fit among the newest `n`. */
  function Overflow(n: nat, s: seq<Metric>): seq<Metric> {
    s[..Excess(n, s)]
  }

  ghost predicate Suffix(s: seq<Metric>, whole: seq<Metric>) {
    |s| <= |whole| && s == whole[|whole| - |s|..]
  }

  // The operations.

  function Empty(cap: nat): State {
    State(cap, [], [], [], [], [])
  }

  function AddAll(s: State, ms: seq<Metric>): State {
    s.(queue := Newest(s.cap, s.queue + ms),
       added := s.added + ms,
       rejected := s.rejected + Overflow(s.cap, s.queue + ms))
  }

  function TakeBatch(s: State, n: nat): State {
    var k := Min(|s.queue|, n);
    s.(queue := s.queue[k..], batch := s.queue[..k])
  }

  function AcceptBatch(s: State): State {
    s.(batch := [], accepted := s.accepted + s.batch)
  }

  function RejectBatch(s: State): State {
    s.(queue := Newest(s.cap, s.batch + s.queue), batch := [],
       rejected := s.rejected + Overflow(s.cap, s.batch + s.queue))
  }

  /** Adding metrics one by one is adding them all at once. */
  lemma AddAllSnoc(s: State, ms: seq<Metric>, m: Metric)
    ensures AddAll(AddAll(s, ms), [m]) == AddAll(s, ms + [m])
  {
    var q := s.queue + ms;
    assert s.queue + (ms + [m]) == q + [m];
    assert Newest(s.cap, Newest(s.cap, q) + [m]) == Newest(s.cap, q + [m]);
    assert Overflow(s.cap, q) + Overflow(s.cap, Newest(s.cap, q) + [m]) == Overflow(s.cap, q + [m]);
  }

  // What holds in every reachable state.

  /** The queue is the newest part of everything ever added, in the order of arrival, and
      as long as it is not full the batch that is out sits right before it. */
  ghost predicate InOrder(s: State) {
    && s.cap >= 1 && |s.queue| <= s.cap
    && Suffix(s.queue, s.added)
    && (|s.queue| < s.cap ==> Suffix(s.batch + s.queue, s.added))
  }

  /** Every metric added is in exactly one place: accepted or rejected by one call, out
      with the plugin, or queued. */
  ghost predicate Conserved(s: State) {
    multiset(s.added) == multiset(s.accepted) + multiset(s.rejected) + multiset(s.batch) + multiset(s.queue)
  }

  ghost predicate Sound(s: State) {
    InOrder(s) && Conserved(s)
  }

  datatype Op = Add(ms: seq<Metric>) | Batch(n: nat) | Accept | Reject

  /** A batch is taken only while none is out. */
  ghost predicate Legal(s: State, op: Op) {
    op.Batch? ==> s.batch == []
  }

  function Apply(s: State, op: Op): State {
    match op
    case Add(ms) => AddAll(s, ms)
    case Batch(n) => TakeBatch(s, n)
    case Accept => AcceptBatch(s)
    case Reject => RejectBatch(s)
  }

  /** The state after a run of operations on a new buffer. */
  function Run(cap: nat, ops: seq<Op>): State {
    if ops == [] then Empty(cap) else Apply(Run(cap, ops[..|ops| - 1]), ops[|ops| - 1])
  }

  ghost predicate LegalRun(cap: nat, ops: seq<Op>) {
    forall i :: 0 <= i < |ops| ==> Legal(Run(cap, ops[..i]), ops[i])
  }

  lemma SplitAt(s: seq<Metric>, k: nat)
    requires k <= |s|
    ensures multiset(s) == multiset(s[..k]) + multiset(s[k..])
  {
    assert s == s[..k] + s[k..];
  }

  lemma SuffixGrows(s: seq<Metric>, whole: seq<Metric>, ms: seq<Metric>, k: nat)
    requires Suffix(s, whole) && k <= |s + ms|
    ensures Suffix((s + ms)[k..], whole + ms)
  {
  }

  lemma OrderAdd(s: State, ms: seq<Metric>)
    requires InOrder(s)
    ensures InOrder(AddAll(s, ms))
  {
    var t := AddAll(s, ms);
    SuffixGrows(s.queue, s.added, ms, Excess(s.cap, s.queue + ms));
    if |t.queue| < t.cap {
      SuffixGrows(s.batch + s.queue, s.added, ms, 0);
      assert t.batch + t.queue == (s.batch + s.queue) + ms == ((s.batch + s.queue) + ms)[0..];
    }
  }

  lemma OrderReject(s: State)
    requires InOrder(s)
    ensures InOrder(RejectBatch(s))
  {
    var t := RejectBatch(s);
    var q := s.batch + s.queue;
    if |s.queue| < s.cap {
      assert t.queue == q[|q| - |t.queue|..];
    } else {
      assert t.queue == s.queue;
    }
    assert t.batch + t.queue == t.queue;
  }

  lemma ConserveAdd(s: State, ms: seq<Metric>)
    requires Conserved(s)
    ensures Conserved(AddAll(s, ms))
  {
    var t, q := AddAll(s, ms), s.queue + ms;
    SplitAt(q, Excess(s.cap, q));
    calc {
      multiset(t.added);
      multiset(s.accepted) + multiset(s.rejected) + multiset(s.batch) + multiset(q);
      multiset(t.accepted) + multiset(t.rejected) + multiset(t.batch) + multiset(t.queue);
    }
  }

  lemma ConserveReject(s: State)
    requires Conserved(s)
    ensures Conserved(RejectBatch(s))
  {
    var t, q := RejectBatch(s), s.batch + s.queue;
    SplitAt(q, Excess(s.cap, q));
    calc {
      multiset(t.added);
      multiset(s.accepted) + multiset(s.rejected) + multiset(q);
      multiset(t.accepted) + multiset(t.rejected) + multiset(t.batch) + multiset(t.queue);
    }
  }

  /** Every operation keeps the order of arrival. */
  lemma StepKeepsOrder(s: State, op: Op)
    requires InOrder(s) && Legal(s, op)
    ensures InOrder(Apply(s, op))
  {
    match op
    case Add(ms) =>
      OrderAdd(s, ms);
    case Batch(n) =>
      assert TakeBatch(s, n).batch + TakeBatch(s, n).queue == s.queue;
    case Accept =>
      assert [] + s.queue == s.queue;
    case Reject =>
      OrderReject(s);
  }

  /** No operation loses or duplicates a metric. */
  lemma StepConserves(s: State, op: Op)
    requires Conserved(s) && Legal(s, op)
    ensures Conserved(Apply(s, op))
  {
    match op
    case Add(ms) =>
      ConserveAdd(s, ms);
    case Batch(n) =>
      SplitAt(s.queue, |TakeBatch(s, n).batch|);
    case Accept =>
      assert multiset(s.accepted + s.batch) == multiset(s.accepted) + multiset(s.batch);
    case Reject =>
      ConserveReject(s);
  }

  /** In every run: order, conservation, and no metric settled more often than it was added. */
  lemma {:induction false} EveryRunIsSound(cap: nat, ops: seq<Op>)
    requires cap >= 1 && LegalRun(cap, ops)
    ensures Sound(Run(cap, ops))
    decreases |ops|
  {
    if ops != [] {
      var before, op := ops[..|ops| - 1], ops[|ops| - 1];
      assert forall i :: 0 <= i < |before| ==> before[..i] == ops[..i];
      EveryRunIsSound(cap, before);
      StepKeepsOrder(Run(cap, before), op);
      StepConserves(Run(cap, before), op);
    }
  }

  /** Metrics that were added once are settled at most once, and not while still held. */
  lemma SettledAtMostOnce(cap: nat, ops: seq<Op>, m: Metric)
    requires cap >= 1 && LegalRun(cap, ops)
    requires multiset(Run(cap, ops).added)[m] == 1
    ensures var s := Run(cap, ops);
            multiset(s.accepted)[m] + multiset(s.rejected)[m] == if m in s.batch || m in s.queue then 0 else 1
  {
    EveryRunIsSound(cap, ops);
    var s := Run(cap, ops);
    assert m in s.batch <==> multiset(s.batch)[m] > 0;
    assert m in s.queue <==> multiset(s.queue)[m] > 0;
  }

  /** Overflow while a prefix `out` is away, plus overflow when it comes back, is the overflow of
      the whole: when the rest overflowed on its own, all of `out` is lost as well. */
  lemma SplitOverflow(cap: nat, out: seq<Metric>, rest: seq<Metric>)
    ensures var back := out + Newest(cap, rest);
            && Newest(cap, back) == Newest(cap, out + rest)
            && multiset(Overflow(cap, rest) + Overflow(cap, back)) == multiset(Overflow(cap, out + rest))
  {
    var back := out + Newest(cap, rest);
    if |rest| <= cap {
      assert Newest(cap, rest) == rest;
      assert Overflow(cap, rest) + Overflow(cap, back) == Overflow(cap, back);
    } else {
      assert Overflow(cap, back) == out;
      assert Overflow(cap, out + rest) == out + Overflow(cap, rest);
      assert Newest(cap, back) == Newest(cap, rest) == Newest(cap, out + rest);
    }
  }

  lemma SameElements(a: seq<Metric>, b: seq<Metric>, c: seq<Metric>)
    requires multiset(b) == multiset(c)
    ensures multiset(a + b) == multiset(a + c) && |a + b| == |a + c|
  {
    assert |b| == |multiset(b)| == |multiset(c)| == |c|;
  }

  /** What a failed write that took `out` and left `left` does to the queue. */
  lemma FailedWrite(s: State, left: State, xs: seq<Metric>)
    requires left == s.(queue := left.queue, batch := left.batch) && s.queue == left.batch + left.queue
    ensures var failed := RejectBatch(AddAll(left, xs));
            && failed.queue == Newest(s.cap, s.queue + xs) && failed.batch == []
            && multiset(failed.rejected) == multiset(s.rejected + Overflow(s.cap, s.queue + xs))
            && |failed.rejected| == |s.rejected + Overflow(s.cap, s.queue + xs)|
  {
    var out, rest := left.batch, left.queue + xs;
    assert s.queue + xs == out + rest;
    SplitOverflow(s.cap, out, rest);
    var during, after := Overflow(s.cap, rest), Overflow(s.cap, out + Newest(s.cap, rest));
    assert RejectBatch(AddAll(left, xs)).rejected == s.rejected + (during + after);
    SameElements(s.rejected, during + after, Overflow(s.cap, s.queue + xs));
  }

  /** A failed write is invisible: taking a batch, adding any metrics while it is out and then
      putting it back leaves the queue, and settles the metrics, as if no batch had been taken. */
  lemma FailedWriteIsInvisible(s: State, n: nat, xs: seq<Metric>)
    requires s.batch == []
    ensures var failed := RejectBatch(AddAll(TakeBatch(s, n), xs));
            var plain := AddAll(s, xs);
            && failed.(rejected := plain.rejected) == plain
            && failed.queue == Newest(s.cap, s.queue + xs)
            && multiset(failed.rejected) == multiset(plain.rejected)
            && |failed.rejected| == |plain.rejected|
  {
    var left := TakeBatch(s, n);
    assert s.queue == left.batch + left.queue;
    FailedWrite(s, left, xs);
  }
}
