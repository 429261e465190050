/** Runs of the pipeline with the steps they are made of, and what the steps alone say about an output: what was
    offered to it, what its filter let through, what its plugin answered for each batch, and what its buffer had to
    let go (agent/agent.go, models/running_output.go, models/buffer.go). */
module Runs {
  import opened Metrics
  import opened BufferSpec
  import opened Pipeline

  /** The system after the steps, taken one after the other from the start. */
  ghost function After(n: nat, caps: seq<nat>, steps: seq<Step>): (sys: System)
    requires |caps| >= 1
    ensures |sys.pipe.outs| == |caps| && sys.pipe.n == n
  {
    if steps == [] then System(Initial(n, caps), Free)
    else
      var b, s := After(n, caps, steps[..|steps| - 1]), steps[|steps| - 1];
      if Enabled(b, s) then Next(b, s) else b
  }

  /** Each of the steps is possible when its turn comes. */
  ghost predicate IsRun(n: nat, caps: seq<nat>, steps: seq<Step>)
    requires |caps| >= 1
  {
    steps != [] ==>
      && IsRun(n, caps, steps[..|steps| - 1])
      && Enabled(After(n, caps, steps[..|steps| - 1]), steps[|steps| - 1])
  }

  // What one step has to do with output `o`.

  /** The metric that the step hands to output `o` with this answer of its filter. */
  ghost function Handover(sys: System, s: Step, o: nat, selected: bool): seq<Metric> {
    if s == Put(selected) && sys.hand.Holding? && sys.hand.o == o then [sys.hand.item] else []
  }

  /** The batch that the step reports as written by output `o`. */
  ghost function Batched(sys: System, s: Step, o: nat): seq<Metric>
    requires o < |sys.pipe.outs|
  {
    if s == Written(o) then sys.pipe.outs[o].batch else []
  }

  /** The oldest metrics, which no longer fit when the step puts a metric or a refused batch into the buffer. */
  ghost function Lost(sys: System, s: Step, o: nat): seq<Metric>
    requires o < |sys.pipe.outs|
  {
    var b := sys.pipe.outs[o];
    if s == Failed(o) then Overflow(b.cap, b.batch + b.queue)
    else if Handover(sys, s, o, true) != [] then Overflow(b.cap, b.queue + Handover(sys, s, o, true))
    else []
  }

  /** The buffer before and after the step. */
  ghost predicate Moved(sys: System, s: Step, o: nat, b: State, a: State)
    requires o < |sys.pipe.outs|
  {
    && a.cap == b.cap
    && a.added == b.added + Handover(sys, s, o, true)
    && a.accepted == b.accepted + Batched(sys, s, o)
    && a.rejected == b.rejected + Lost(sys, s, o)
    && (s.Flush? && s.o == o ==> a.batch + a.queue == b.queue && |a.batch| == Min(s.size, |b.queue|))
    && (s == Written(o) ==> a.batch == [] && a.queue == b.queue)
    && (s == Failed(o) ==> a.batch == [] && a.queue == Newest(b.cap, b.batch + b.queue))
    && (!((s.Flush? || s.Written? || s.Failed?) && s.o == o) ==>
          a.batch == b.batch && a.queue == Newest(b.cap, b.queue + Handover(sys, s, o, true)))
  }

  lemma {:induction false} StepMoves(sys: System, s: Step, o: nat)
    requires Enabled(sys, s) && o < |sys.pipe.outs| && |sys.pipe.outs[o].queue| <= sys.pipe.outs[o].cap
    ensures Moved(sys, s, o, sys.pipe.outs[o], Next(sys, s).pipe.outs[o])
    ensures |Next(sys, s).pipe.outs[o].queue| <= sys.pipe.outs[o].cap
  {
    var b := sys.pipe.outs[o];
    assert b.queue + [] == b.queue;
    assert s.Flush? && s.o == o ==> b.queue[..Min(|b.queue|, s.size)] + b.queue[Min(|b.queue|, s.size)..] == b.queue;
  }

  // What the steps of a run have to do with output `o`.

  /** The metrics handed to output `o` with this answer of its filter, in order. */
  ghost function HandedTo(n: nat, caps: seq<nat>, steps: seq<Step>, o: nat, selected: bool): seq<Metric>
    requires |caps| >= 1
  {
    if steps == [] then []
    else
      var before := steps[..|steps| - 1];
      HandedTo(n, caps, before, o, selected) + Handover(After(n, caps, before), steps[|steps| - 1], o, selected)
  }

  /** The batches that output `o` reported as written, one after the other. */
  ghost function WrittenOut(n: nat, caps: seq<nat>, steps: seq<Step>, o: nat): seq<Metric>
    requires |caps| >= 1 && o < |caps|
  {
    if steps == [] then []
    else
      var before := steps[..|steps| - 1];
      WrittenOut(n, caps, before, o) + Batched(After(n, caps, before), steps[|steps| - 1], o)
  }

  /** The metrics that did not fit into the buffer of output `o`. */
  ghost function LostFrom(n: nat, caps: seq<nat>, steps: seq<Step>, o: nat): seq<Metric>
    requires |caps| >= 1 && o < |caps|
  {
    if steps == [] then []
    else
      var before := steps[..|steps| - 1];
      LostFrom(n, caps, before, o) + Lost(After(n, caps, before), steps[|steps| - 1], o)
  }

  /** In every run an output has accepted exactly the batches its plugin reported as written, has taken in exactly
      what its filter let through, and has rejected exactly what did not fit. */
  lemma {:induction false} AnswersAreKept(n: nat, caps: seq<nat>, steps: seq<Step>, o: nat)
    requires |caps| >= 1 && o < |caps| && IsRun(n, caps, steps)
    ensures var b := After(n, caps, steps).pipe.outs[o];
            && b.cap == caps[o] && |b.queue| <= caps[o]
            && b.added == HandedTo(n, caps, steps, o, true)
            && b.accepted == WrittenOut(n, caps, steps, o)
            && b.rejected == LostFrom(n, caps, steps, o)
  {
    if steps != [] {
      var before, s := steps[..|steps| - 1], steps[|steps| - 1];
      AnswersAreKept(n, caps, before, o);
      StepMoves(After(n, caps, before), s, o);
    }
  }

  // A failed write.

  lemma {:induction false} NewestOfNewest(cap: nat, q: seq<Metric>, xs: seq<Metric>)
    ensures Newest(cap, Newest(cap, q) + xs) == Newest(cap, q + xs)
  {
  }

  predicate Answers(s: Step, o: nat) {
    (s.Flush? || s.Written? || s.Failed?) && s.o == o
  }

  /** The buffer while a batch of at most `size` metrics is out, if it was `b` when the batch was taken. */
  ghost predicate BatchIsOut(b: State, size: nat, t: State) {
    var k := Min(size, |b.queue|);
    && t.cap == b.cap && t.accepted == b.accepted && |b.added| <= |t.added| && t.added[..|b.added|] == b.added
    && t.batch == b.queue[..k] && t.queue == Newest(b.cap, b.queue[k..] + t.added[|b.added|..])
  }

  lemma {:induction false} StaysOut(b: State, size: nat, sys: System, s: Step, o: nat, a: State)
    requires o < |sys.pipe.outs| && BatchIsOut(b, size, sys.pipe.outs[o]) && Moved(sys, s, o, sys.pipe.outs[o], a)
    requires !Answers(s, o)
    ensures BatchIsOut(b, size, a)
  {
    var t, k, xs := sys.pipe.outs[o], Min(size, |b.queue|), Handover(sys, s, o, true);
    NewestOfNewest(b.cap, b.queue[k..] + t.added[|b.added|..], xs);
    assert b.queue[k..] + t.added[|b.added|..] + xs == b.queue[k..] + a.added[|b.added|..];
  }

  lemma {:induction false} TakenOut(b: State, size: nat, sys: System, o: nat, a: State)
    requires o < |sys.pipe.outs| && b == sys.pipe.outs[o] && |b.queue| <= b.cap && Moved(sys, Flush(o, size), o, b, a)
    ensures BatchIsOut(b, size, a)
  {
    var k := Min(size, |b.queue|);
    assert a.batch == (a.batch + a.queue)[..k] && a.queue == (a.batch + a.queue)[k..];
    assert a.added == b.added + [] && b.queue[k..] + a.added[|b.added|..] == b.queue[k..];
  }

  lemma {:induction false} LastMoves(n: nat, caps: seq<nat>, steps: seq<Step>, o: nat)
    requires |caps| >= 1 && o < |caps| && IsRun(n, caps, steps) && steps != []
    ensures var sys := After(n, caps, steps[..|steps| - 1]);
            && IsRun(n, caps, steps[..|steps| - 1]) && |sys.pipe.outs[o].queue| <= sys.pipe.outs[o].cap == caps[o]
            && Moved(sys, steps[|steps| - 1], o, sys.pipe.outs[o], After(n, caps, steps).pipe.outs[o])
  {
    AnswersAreKept(n, caps, steps[..|steps| - 1], o);
    StepMoves(After(n, caps, steps[..|steps| - 1]), steps[|steps| - 1], o);
  }

  lemma {:induction false} WhileOut(n: nat, caps: seq<nat>, first: seq<Step>, size: nat, during: seq<Step>, o: nat)
    requires |caps| >= 1 && o < |caps| && IsRun(n, caps, first + [Flush(o, size)] + during)
    requires forall i :: 0 <= i < |during| ==> !Answers(during[i], o)
    ensures IsRun(n, caps, first)
    ensures BatchIsOut(After(n, caps, first).pipe.outs[o], size,
                       After(n, caps, first + [Flush(o, size)] + during).pipe.outs[o])
    decreases |during|
  {
    var steps := first + [Flush(o, size)] + during;
    var before, s := steps[..|steps| - 1], steps[|steps| - 1];
    LastMoves(n, caps, steps, o);
    if during == [] {
      assert before == first;
      TakenOut(After(n, caps, first).pipe.outs[o], size, After(n, caps, first), o, After(n, caps, steps).pipe.outs[o]);
    } else {
      assert before == first + [Flush(o, size)] + during[..|during| - 1];
      WhileOut(n, caps, first, size, during[..|during| - 1], o);
      StaysOut(After(n, caps, first).pipe.outs[o], size, After(n, caps, before), s, o,
               After(n, caps, steps).pipe.outs[o]);
    }
  }

  /** In every run, when the plugin of output `o` fails, its queue is what it would be had the batch never been taken:
      what was queued then and what has arrived since, as far as it fits, and nothing more counts as written. */
  lemma {:induction false} FailureLeavesNoTrace(n: nat, caps: seq<nat>, first: seq<Step>, size: nat, during: seq<Step>,
                                                o: nat)
    requires |caps| >= 1 && o < |caps| && IsRun(n, caps, first + [Flush(o, size)] + during + [Failed(o)])
    requires forall i :: 0 <= i < |during| ==> !Answers(during[i], o)
    ensures var b := After(n, caps, first).pipe.outs[o];
            var a := After(n, caps, first + [Flush(o, size)] + during + [Failed(o)]).pipe.outs[o];
            && a.batch == [] && a.accepted == b.accepted
            && |b.added| <= |a.added| && a.added[..|b.added|] == b.added
            && a.queue == Newest(caps[o], b.queue + a.added[|b.added|..])
  {
    var before := first + [Flush(o, size)] + during;
    var steps := before + [Failed(o)];
    assert steps[..|steps| - 1] == before;
    WhileOut(n, caps, first, size, during, o);
    LastMoves(n, caps, steps, o);
    PutBack(After(n, caps, first).pipe.outs[o], size, After(n, caps, before), o, After(n, caps, steps).pipe.outs[o]);
  }

  lemma {:induction false} PutBack(b: State, size: nat, sys: System, o: nat, a: State)
    requires o < |sys.pipe.outs| && BatchIsOut(b, size, sys.pipe.outs[o])
    requires Moved(sys, Failed(o), o, sys.pipe.outs[o], a)
    ensures a.batch == [] && a.accepted == b.accepted
    ensures |b.added| <= |a.added| && a.added[..|b.added|] == b.added
    ensures a.queue == Newest(b.cap, b.queue + a.added[|b.added|..])
  {
    assert a.added == sys.pipe.outs[o].added;
    AroundBatch(b.cap, b.queue, Min(size, |b.queue|), a.added[|b.added|..]);
  }

  lemma {:induction false} AroundBatch(cap: nat, q: seq<Metric>, k: nat, xs: seq<Metric>)
    requires k <= |q|
    ensures Newest(cap, q[..k] + Newest(cap, q[k..] + xs)) == Newest(cap, q + xs)
  {
    SplitOverflow(cap, q[..k], q[k..] + xs);
    assert q[..k] + (q[k..] + xs) == q + xs;
  }

  // The order in which the outputs see the metrics.

  function Sends(steps: seq<Step>): nat {
    if steps == [] then 0 else Sends(steps[..|steps| - 1]) + if steps[|steps| - 1].Send? then 1 else 0
  }

  /** The metric that the step sends, if `k` metrics of the group have been sent before. */
  function Sending(s: Step, k: nat): seq<Metric> {
    match s
    case Send => [Tracked(k, k)]
    case SendOther(id) => [Plain(id)]
    case _ => []
  }

  /** All metrics sent by the steps: those of the group in order, and others between them. */
  function Sent(steps: seq<Step>): seq<Metric> {
    if steps == [] then []
    else Sent(steps[..|steps| - 1]) + Sending(steps[|steps| - 1], Sends(steps[..|steps| - 1]))
  }

  /** The metric of which `m` is a handle. */
  function Source(m: Metric): Metric {
    if m.Tracked? then Tracked(m.origin, m.origin) else m
  }

  ghost function Offer(sys: System, s: Step, o: nat): seq<Metric> {
    if s.Put? && sys.hand.Holding? && sys.hand.o == o then [Source(sys.hand.item)] else []
  }

  /** The metrics offered to output `o`, whatever its filter said, in order. */
  ghost function OfferedTo(n: nat, caps: seq<nat>, steps: seq<Step>, o: nat): seq<Metric>
    requires |caps| >= 1
  {
    if steps == [] then []
    else
      var before := steps[..|steps| - 1];
      OfferedTo(n, caps, before, o) + Offer(After(n, caps, before), steps[|steps| - 1], o)
  }

  /** The metrics that are still on their way to output `o`, the next one first. */
  ghost function OnTheWay(sys: System, o: nat): seq<Metric> {
    (if sys.hand.Holding? && sys.hand.o == o then [Source(sys.hand.item)] else [])
    + ((if sys.pipe.fan.Offering? && sys.pipe.fan.i <= o then [sys.pipe.fan.m] else []) + sys.pipe.chan)
  }

  /** Everything on its way is a metric itself and no copy, and the input goes on with metric `k`. */
  ghost predicate InLine(sys: System, k: nat) {
    && (sys.pipe.fan.Offering? ==> sys.pipe.fan.i < |sys.pipe.outs| && Source(sys.pipe.fan.m) == sys.pipe.fan.m)
    && (forall i :: 0 <= i < |sys.pipe.chan| ==> Source(sys.pipe.chan[i]) == sys.pipe.chan[i])
    && (forall i :: 0 <= i < |sys.pipe.unsent| ==> sys.pipe.unsent[i] == Tracked(k + i, k + i))
  }

  lemma {:induction false} StepKeepsLine(sys: System, s: Step, k: nat)
    requires Enabled(sys, s) && InLine(sys, k) && |sys.pipe.outs| >= 1
    ensures InLine(Next(sys, s), if s.Send? then k + 1 else k)
  {
    if s.Send? {
      var rest := sys.pipe.unsent[1..];
      assert sys.pipe.unsent[0] == Tracked(k, k);
      forall i | 0 <= i < |rest|
        ensures rest[i] == Tracked(k + 1 + i, k + 1 + i)
      {
        assert rest[i] == sys.pipe.unsent[i + 1];
      }
    }
  }

  lemma {:induction false} RunKeepsLine(n: nat, caps: seq<nat>, steps: seq<Step>)
    requires |caps| >= 1 && IsRun(n, caps, steps)
    ensures InLine(After(n, caps, steps), Sends(steps))
  {
    if steps != [] {
      var before := steps[..|steps| - 1];
      RunKeepsLine(n, caps, before);
      StepKeepsLine(After(n, caps, before), steps[|steps| - 1], Sends(before));
    }
  }

  lemma {:induction false} StepMovesOn(sys: System, s: Step, k: nat, o: nat)
    requires Enabled(sys, s) && InLine(sys, k) && o < |sys.pipe.outs|
    ensures Offer(sys, s, o) + OnTheWay(Next(sys, s), o) == OnTheWay(sys, o) + Sending(s, k)
  {
    match s
    case Send => SendMovesOn(sys, s, k, o);
    case SendOther(_) => SendMovesOn(sys, s, k, o);
    case Take => TakeMovesOn(sys, o);
    case PickUp => PickUpMovesOn(sys, o);
    case _ =>
  }

  lemma {:induction false} SendMovesOn(sys: System, s: Step, k: nat, o: nat)
    requires Enabled(sys, s) && InLine(sys, k) && (s.Send? || s.SendOther?)
    ensures OnTheWay(Next(sys, s), o) == OnTheWay(sys, o) + Sending(s, k)
  {
    assert s.Send? ==> sys.pipe.unsent[0] == Tracked(k, k);
    assert Next(sys, s).pipe.chan == sys.pipe.chan + Sending(s, k);
    assert Next(sys, s).pipe.fan == sys.pipe.fan && Next(sys, s).hand == sys.hand;
  }

  lemma {:induction false} TakeMovesOn(sys: System, o: nat)
    requires Enabled(sys, Take)
    ensures OnTheWay(Next(sys, Take), o) == OnTheWay(sys, o)
  {
    assert [sys.pipe.chan[0]] + sys.pipe.chan[1..] == sys.pipe.chan;
  }

  lemma {:induction false} PickUpMovesOn(sys: System, o: nat)
    requires Enabled(sys, PickUp) && Source(sys.pipe.fan.m) == sys.pipe.fan.m && o < |sys.pipe.outs|
    ensures OnTheWay(Next(sys, PickUp), o) == OnTheWay(sys, o)
  {
    var m, i, next := sys.pipe.fan.m, sys.pipe.fan.i, Next(sys, PickUp);
    assert next.hand.o == i && Source(next.hand.item) == m && next.pipe.chan == sys.pipe.chan;
    assert [m] + ([] + sys.pipe.chan) == [] + ([m] + sys.pipe.chan);
  }

  /** In every run every output sees every metric that was sent, each once and in the order of sending: what it has been
      offered and what is still on its way to it are together what was sent. */
  lemma {:induction false} EveryOutputSeesAll(n: nat, caps: seq<nat>, steps: seq<Step>, o: nat)
    requires |caps| >= 1 && o < |caps| && IsRun(n, caps, steps)
    ensures OfferedTo(n, caps, steps, o) + OnTheWay(After(n, caps, steps), o) == Sent(steps)
  {
    if steps != [] {
      var before, s := steps[..|steps| - 1], steps[|steps| - 1];
      var sys := After(n, caps, before);
      EveryOutputSeesAll(n, caps, before, o);
      RunKeepsLine(n, caps, before);
      StepMovesOn(sys, s, Sends(before), o);
      Shift(OfferedTo(n, caps, before, o), Offer(sys, s, o), OnTheWay(Next(sys, s), o), OnTheWay(sys, o),
            Sending(s, Sends(before)));
    }
  }

  lemma {:induction false} Shift(done: seq<Metric>, a: seq<Metric>, b: seq<Metric>, c: seq<Metric>, d: seq<Metric>)
    requires a + b == c + d
    ensures done + a + b == done + c + d
  {
    assert done + a + b == done + (a + b);
    assert done + c + d == done + (c + d);
  }
}
