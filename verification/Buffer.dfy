/** The circular buffer of models/buffer.go, proved to refine BufferSpec. */
module Buffers {
  import opened Metrics
  import opened BufferSpec

  /** A slot of the array: nil or a metric. */
  datatype Slot = Nil | Full(m: Metric)

  function Next(index: nat, cap: nat): nat {
    if index + 1 == cap then 0 else index + 1
  }

  /** The index that is `count` newer, going round an array of length `cap`. */
  function Wrap(index: nat, count: nat, cap: nat): int {
    if index + count < cap then index + count else index + count - cap
  }

  /** The index that is `count` older, going round an array of length `cap`. */
  function Back(index: nat, count: nat, cap: nat): int {
    if count <= index then index - count else index - count + cap
  }

  lemma SmallRemainder(x: nat, n: nat)
    requires x < n
    ensures x % n == x && (n + x) % n == x
  {
    assert (n + x) / n == 1 by { assert n * 1 <= n + x < n * 2; }
  }

  /** How far index `k` lies behind `first`, going round the array. */
  ghost function Offset(k: int, first: nat, cap: nat): int {
    if k < first then k + cap - first else k - first
  }

  /** The array holds exactly the queue, wrapped from `first`, and nil elsewhere. */
  ghost predicate Layout(a: seq<Slot>, first: nat, q: seq<Metric>)
    requires first < |a|
  {
    forall k :: 0 <= k < |a| ==>
      a[k] == var o := Offset(k, first, |a|); if o < |q| then Full(q[o]) else Nil
  }

  lemma LayoutPush(a: seq<Slot>, first: nat, q: seq<Metric>, m: Metric)
    requires first < |a| && |q| <= |a| && Layout(a, first, q)
    ensures var a' := a[Wrap(first, |q|, |a|) := Full(m)];
            if |q| < |a| then Layout(a', first, q + [m])
            else a[Wrap(first, |q|, |a|)] == Full(q[0]) && Layout(a', Next(first, |a|), q[1..] + [m])
  {
  }

  /** The layout with the oldest `n` metrics already taken out. */
  ghost predicate LayoutFrom(a: seq<Slot>, first: nat, q: seq<Metric>, n: nat)
    requires first < |a|
  {
    forall k :: 0 <= k < |a| ==>
      a[k] == var o := Offset(k, first, |a|); if n <= o < |q| then Full(q[o]) else Nil
  }

  lemma LayoutPop(a: seq<Slot>, first: nat, q: seq<Metric>, n: nat)
    requires first < |a| && n <= |q| <= |a| && LayoutFrom(a, first, q, n)
    ensures Layout(a, Wrap(first, n, |a|), q[n..])
    ensures n < |q| ==> a[Wrap(first, n, |a|)] == Full(q[n])
    ensures n < |q| ==> LayoutFrom(a[Wrap(first, n, |a|) := Nil], first, q, n + 1)
  {
  }

  /** The layout of `b + q` with only the first `n` metrics of `b` put back. */
  ghost predicate LayoutUpTo(a: seq<Slot>, first: nat, b: seq<Metric>, n: nat, q: seq<Metric>)
    requires first < |a| && n <= |b|
  {
    forall k :: 0 <= k < |a| ==>
      a[k] == var o := Offset(k, first, |a|);
              if o < n then Full(b[o]) else if |b| <= o < |b| + |q| then Full(q[o - |b|]) else Nil
  }

  lemma LayoutRestore(a: seq<Slot>, first: nat, b: seq<Metric>, n: nat, q: seq<Metric>)
    requires first < |a| && n <= |b| && |b| + |q| <= |a| && LayoutUpTo(a, first, b, n, q)
    ensures n == |b| ==> Layout(a, first, b + q)
    ensures n < |b| ==> LayoutUpTo(a[Wrap(first, n, |a|) := Full(b[n])], first, b, n + 1, q)
  {
  }

  /** Seen from `n` slots earlier, a layout leaves room for `n` metrics. */
  lemma LayoutBack(a: seq<Slot>, first: nat, b: seq<Metric>, q: seq<Metric>)
    requires first < |a| && |b| + |q| <= |a| && Layout(a, first, q)
    ensures LayoutUpTo(a, Back(first, |b|, |a|), b, 0, q)
  {
  }

  /** The array and the index fields represent the abstract state. */
  ghost predicate Refines(a: seq<Slot>, cap: nat, first: nat, last: nat, size: nat, batchSize: nat, s: State) {
    && 1 <= cap == |a| && s.cap == cap
    && size == |s.queue| <= cap
    && first < cap && last == Wrap(first, size, cap)
    && batchSize <= |s.batch| && (size < cap ==> batchSize == |s.batch|)
    && Layout(a, first, s.queue)
  }

  lemma RefinesAdd(a: seq<Slot>, first: nat, last: nat, size: nat, batchSize: nat, s: State, m: Metric)
    requires Refines(a, |a|, first, last, size, batchSize, s)
    ensures size == |a| ==> a[last] == Full(s.queue[0])
    ensures Refines(a[last := Full(m)], |a|, if size == |a| then Next(first, |a|) else first, Next(last, |a|),
                    Min(size + 1, |a|), if size == |a| && batchSize > 0 then batchSize - 1 else batchSize,
                    AddAll(s, [m]))
  {
    LayoutPush(a, first, s.queue, m);
    AddOneCases(s, m);
  }

  lemma RefinesBatch(a: seq<Slot>, first: nat, last: nat, size: nat, s: State, k: nat)
    requires 1 <= |a| == s.cap && size == |s.queue| <= |a| && first < |a| && last == Wrap(first, size, |a|)
    requires k <= size && LayoutFrom(a, first, s.queue, k)
    ensures Refines(a, |a|, Wrap(first, k, |a|), last, size - k, k, s.(queue := s.queue[k..], batch := s.queue[..k]))
  {
    LayoutPop(a, first, s.queue, k);
  }

  lemma RefinesReject(a: seq<Slot>, a': seq<Slot>, first: nat, first': nat, last: nat, size: nat, batchSize: nat,
                      s: State, skip: nat)
    requires Refines(a, |a|, first, last, size, batchSize, s)
    requires skip == |s.batch| - Min(|s.batch|, |a| - size)
    requires first' == Back(first, |s.batch| - skip, |a|)
    requires |a'| == |a| && Layout(a', first', s.batch[skip..] + s.queue)
    ensures Refines(a', |a|, first', last, Min(size + (|s.batch| - skip), |a|), 0, RejectBatch(s))
    ensures RejectBatch(s).rejected == s.rejected + s.batch[..skip]
  {
    RejectCases(s, skip);
  }

  /** One more metric, told apart by whether the queue is full. */
  lemma AddOneCases(s: State, m: Metric)
    requires 1 <= s.cap && |s.queue| <= s.cap
    ensures AddAll(s, [m]) ==
            if |s.queue| < s.cap then s.(queue := s.queue + [m], added := s.added + [m])
            else s.(queue := s.queue[1..] + [m], added := s.added + [m], rejected := s.rejected + [s.queue[0]])
  {
    var q := s.queue + [m];
    if |s.queue| < s.cap {
      assert s.rejected + Overflow(s.cap, q) == s.rejected;
    } else {
      assert Newest(s.cap, q) == s.queue[1..] + [m];
      assert Overflow(s.cap, q) == [s.queue[0]];
    }
  }

  /** Putting the batch back drops the oldest metrics of the batch that do not fit. */
  lemma RejectCases(s: State, skip: nat)
    requires |s.queue| <= s.cap && skip == |s.batch| - Min(|s.batch|, s.cap - |s.queue|)
    ensures RejectBatch(s) ==
            s.(queue := s.batch[skip..] + s.queue, batch := [], rejected := s.rejected + s.batch[..skip])
  {
    assert Newest(s.cap, s.batch + s.queue) == s.batch[skip..] + s.queue;
    assert Overflow(s.cap, s.batch + s.queue) == s.batch[..skip];
  }

  class Buffer {
    const buf: array<Slot>
    const cap: nat
    var first: nat       // index of the oldest metric
    var last: nat        // one after the index of the newest metric
    var size: nat        // number of metrics in the array
    var batchFirst: nat  // index of the first metric in the batch
    var batchSize: nat   // number of batch metrics still counted by Length
    var metricsAdded: nat
    var metricsWritten: nat
    var metricsDropped: nat
    var accepted: seq<Metric>      // metrics on which Accept was called
    var rejected: seq<Metric>      // metrics on which Reject was called

    ghost var abs: State

    ghost predicate Counted()
      reads this
    {
      && accepted == abs.accepted && rejected == abs.rejected
      && metricsAdded == |abs.added|
      && metricsWritten == |accepted| && metricsDropped == |rejected|
    }

    ghost predicate Valid()
      reads this, buf
    {
      && Refines(buf[..], cap, first, last, size, batchSize, abs)
      && batchFirst < cap && Counted()
    }

    constructor (capacity: nat)
      requires capacity >= 1
      ensures Valid() && fresh(buf) && cap == capacity && abs == Empty(capacity)
    {
      buf := new Slot[capacity](_ => Nil);
      cap := capacity;
      first, last, size, batchFirst, batchSize := 0, 0, 0, 0, 0;
      metricsAdded, metricsWritten, metricsDropped := 0, 0, 0;
      accepted, rejected := [], [];
      abs := Empty(capacity);
    }

    /** The number of metrics in the buffer or out with the plugin, as far as they can all be kept. */
    function Length(): (n: nat)
      requires Valid()
      reads this, buf
      ensures n == Min(|abs.queue| + |abs.batch|, cap)
    {
      Min(size + batchSize, cap)
    }

    method MetricWritten(m: Metric)
      modifies this`metricsWritten, this`accepted
      ensures metricsWritten == old(metricsWritten) + 1 && accepted == old(accepted) + [m]
    {
      metricsWritten := metricsWritten + 1;
      accepted := accepted + [m];
    }

    method MetricDropped(m: Metric)
      modifies this`metricsDropped, this`rejected
      ensures metricsDropped == old(metricsDropped) + 1 && rejected == old(rejected) + [m]
    {
      metricsDropped := metricsDropped + 1;
      rejected := rejected + [m];
    }

    /** The index that is `count` newer with wrapping. */
    method NextBy(index: nat, count: nat) returns (r: nat)
      requires index < cap && count <= cap
      ensures r == Wrap(index, count, cap)
    {
      r := (index + count) % cap;
      SmallRemainder(Wrap(index, count, cap), cap);
      assert index + count == Wrap(index, count, cap) || index + count == cap + Wrap(index, count, cap);
    }

    /** The index that is `count` older with wrapping. */
    method PrevBy(index: nat, count: nat) returns (r: nat)
      requires index < cap && count <= cap
      ensures r == Back(index, count, cap)
    {
      var i: int := index - count;
      while i < 0
        invariant i == index - count || i == Back(index, count, cap)
        decreases -i
      {
        i := i + cap;
      }
      SmallRemainder(i, cap);
      r := i % cap;
    }

    /** The part of adding that concerns a full buffer: its oldest metric is dropped, and if a batch is out it
        will be restored with one metric less. */
    method DropIfFull() returns (dropped: nat)
      requires batchFirst < cap && last < cap == buf.Length && (size == cap ==> buf[last].Full?)
      modifies this`metricsDropped, this`rejected, this`batchSize, this`batchFirst
      ensures dropped == if size == cap then 1 else 0
      ensures batchFirst < cap && metricsDropped == old(metricsDropped) + dropped
      ensures rejected == if size == cap then old(rejected) + [buf[last].m] else old(rejected)
      ensures batchSize == if size == cap && old(batchSize) > 0 then old(batchSize) - 1 else old(batchSize)
    {
      dropped := 0;
      if size == cap {
        MetricDropped(buf[last].m);
        dropped := dropped + 1;
        if batchSize > 0 {
          batchSize := batchSize - 1;
          batchFirst := Next(batchFirst, cap);
        }
      }
    }

    /** Adds one metric; a full buffer drops its oldest one. */
    method AddOne(m: Metric) returns (dropped: nat)
      requires Valid()
      modifies this, buf
      ensures Valid()
      ensures abs == AddAll(old(abs), [m])
      ensures dropped == Excess(cap, old(abs.queue) + [m])
    {
      ghost var a := buf[..];
      RefinesAdd(a, first, last, size, batchSize, abs, m);
      AddOneCases(abs, m);
      dropped := DropIfFull();
      metricsAdded := metricsAdded + 1;
      buf[last] := Full(m);
      last := Next(last, cap);
      if size == cap {
        first := Next(first, cap);
      }
      size := Min(size + 1, cap);
      abs := AddAll(abs, [m]);
      assert buf[..] == a[old(last) := Full(m)];
    }

    /** Adds metrics and returns the number dropped. */
    method Add(metrics: seq<Metric>) returns (dropped: nat)
      requires Valid()
      modifies this, buf
      ensures Valid()
      ensures abs == AddAll(old(abs), metrics)
      ensures dropped == Excess(cap, old(abs.queue) + metrics)
    {
      dropped := 0;
      assert old(abs.queue) + [] == old(abs.queue);
      assert AddAll(old(abs), []) == abs;
      for i := 0 to |metrics|
        invariant Valid()
        invariant abs == AddAll(old(abs), metrics[..i])
        invariant dropped == Excess(cap, old(abs.queue) + metrics[..i])
      {
        var n := AddOne(metrics[i]);
        if n != 0 {
          dropped := dropped + n;
        }
        assert metrics[..i + 1] == metrics[..i] + [metrics[i]];
        AddAllSnoc(old(abs), metrics[..i], metrics[i]);
      }
      assert metrics[..|metrics|] == metrics;
    }

    /** Copies the oldest `n` metrics out of the array, leaving nil behind. */
    method TakeOut(n: nat, ghost q: seq<Metric>) returns (out: seq<Metric>)
      requires first < cap == buf.Length && n <= |q| <= cap && Layout(buf[..], first, q)
      modifies buf
      ensures out == q[..n] && LayoutFrom(buf[..], first, q, n)
    {
      out := [];
      var batchIndex := first;
      for i := 0 to n
        invariant batchIndex == Wrap(first, i, cap) && out == q[..i]
        invariant LayoutFrom(buf[..], first, q, i)
      {
        ghost var a := buf[..];
        LayoutPop(a, first, q, i);
        out := out + [buf[batchIndex].m];
        buf[batchIndex] := Nil;
        assert buf[..] == a[batchIndex := Nil];
        batchIndex := Next(batchIndex, cap);
      }
    }

    /** Hands out up to `n` of the oldest metrics, oldest first. */
    method Batch(n: nat) returns (out: seq<Metric>)
      requires Valid() && abs.batch == []
      modifies this, buf
      ensures Valid()
      ensures abs == TakeBatch(old(abs), n) && out == abs.batch
    {
      var outLen := Min(size, n);
      out := [];
      if outLen == 0 {
        assert TakeBatch(abs, n) == abs;
        return;
      }
      batchFirst := first;
      batchSize := outLen;
      assert buf[..] == old(buf[..]);
      out := TakeOut(outLen, abs.queue);
      ghost var a := buf[..];
      RefinesBatch(a, first, last, size, abs, outLen);
      first := NextBy(first, batchSize);
      size := size - outLen;
      abs := TakeBatch(abs, n);
      assert buf[..] == a;
    }

    /** Marks the batch as written. */
    method Accept(batch: seq<Metric>)
      requires Valid() && batch == abs.batch
      modifies this
      ensures Valid()
      ensures abs == AcceptBatch(old(abs))
    {
      for i := 0 to |batch|
        modifies this`metricsWritten, this`accepted
        invariant metricsWritten == old(metricsWritten) + i
        invariant accepted == old(accepted) + batch[..i]
      {
        MetricWritten(batch[i]);
      }
      batchFirst, batchSize := 0, 0;
      assert batch[..|batch|] == batch;
      abs := AcceptBatch(abs);
    }

    /** Copies the batch back into the array from `first` on, dropping its oldest `skip` metrics. */
    method PutBack(batch: seq<Metric>, skip: nat, ghost q: seq<Metric>)
      requires skip <= |batch| && first < cap == buf.Length && |batch| - skip + |q| <= cap
      requires LayoutUpTo(buf[..], first, batch[skip..], 0, q)
      modifies buf, this`metricsDropped, this`rejected
      ensures Layout(buf[..], first, batch[skip..] + q)
      ensures metricsDropped == old(metricsDropped) + skip
      ensures rejected == old(rejected) + batch[..skip]
    {
      var re := first;
      ghost var kept := batch[skip..];
      for i := 0 to |batch|
        invariant re == if i <= skip then first else Wrap(first, i - skip, cap)
        invariant metricsDropped == old(metricsDropped) + Min(i, skip)
        invariant rejected == old(rejected) + batch[..Min(i, skip)]
        invariant LayoutUpTo(buf[..], first, kept, if i <= skip then 0 else i - skip, q)
      {
        if i < skip {
          MetricDropped(batch[i]);
        } else {
          ghost var a := buf[..];
          LayoutRestore(a, first, kept, i - skip, q);
          buf[re] := Full(batch[i]);
          assert buf[..] == a[re := Full(kept[i - skip])];
          re := Next(re, cap);
        }
      }
      LayoutRestore(buf[..], first, kept, |kept|, q);
    }

    /** Moves `first` back and restores as much of a nonempty batch as still fits. */
    method Restore(batch: seq<Metric>)
      requires Valid() && batch == abs.batch
      modifies this, buf
      ensures Valid()
      ensures abs == RejectBatch(old(abs))
    {
      var free := cap - size;
      var restore := Min(|batch|, free);
      var skip := |batch| - restore;
      ghost var a, first0, size0 := buf[..], first, size;
      LayoutBack(a, first, batch[skip..], abs.queue);

      first := PrevBy(first, restore);
      size := Min(size + restore, cap);
      assert buf[..] == a;
      PutBack(batch, skip, abs.queue);
      ghost var a' := buf[..];
      RefinesReject(a, a', first0, first, last, size0, batchSize, abs, skip);
      batchFirst, batchSize := 0, 0;
      abs := RejectBatch(abs);
      assert buf[..] == a';
    }

    /** Returns the batch to the front of the buffer and marks it as unsent. */
    method Reject(batch: seq<Metric>)
      requires Valid() && batch == abs.batch
      modifies this, buf
      ensures Valid()
      ensures abs == RejectBatch(old(abs))
      ensures Length() == old(Length())
    {
      RejectCases(abs, |batch| - Min(|batch|, cap - size));
      if |batch| == 0 {
        return;
      }
      Restore(batch);
    }
  }
}
