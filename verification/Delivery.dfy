/** What a tracked group can rely on, in every run of the pipeline from the input to all outputs and back to the
    notification (agent/agent.go, models/running_output.go, models/buffer.go, metric/tracking.go). */
module Delivery {
  import opened Metrics
  import opened BufferSpec
  import opened Pipeline
  import opened Runs
  import Tracking

  lemma {:induction false} EveryRunKeepsInv(n: nat, caps: seq<nat>, steps: seq<Step>)
    requires |caps| >= 1 && IsRun(n, caps, steps)
    ensures var sys := After(n, caps, steps); Inv(sys.pipe, sys.hand)
  {
    if steps == [] {
      InvInitial(n, caps);
    } else {
      var before := steps[..|steps| - 1];
      EveryRunKeepsInv(n, caps, before);
      StepKeepsInv(After(n, caps, before), steps[|steps| - 1]);
    }
  }

  /** Whether `m` sits in the input, the channel, the loop, its hand, or the buffer or batch of some output. */
  ghost predicate Held(sys: System, m: Metric) {
    || Front(sys.pipe, m) > 0
    || (sys.hand.Holding? && sys.hand.item == m)
    || exists o :: 0 <= o < |sys.pipe.outs| && (m in sys.pipe.outs[o].queue || m in sys.pipe.outs[o].batch)
  }

  /** A handle is live exactly while it is held. */
  lemma {:induction false} LiveMeansHeld(sys: System, h: nat)
    requires Inv(sys.pipe, sys.hand) && h < |sys.pipe.dest|
    ensures sys.pipe.group.handles[h].Live? <==> Held(sys, Item(sys.pipe, h))
  {
    var p := sys.pipe;
    assert InPlace(p, sys.hand, h);
    var m, d := Item(p, h), p.dest[h].output;
    forall o | 0 <= o < |p.outs| && (m in p.outs[o].queue || m in p.outs[o].batch)
      ensures m in p.outs[o].added
    {
      LoggedAdded(p.outs[o], m);
    }
    assert m in p.outs[d].queue <==> multiset(p.outs[d].queue)[m] > 0;
    assert m in p.outs[d].batch <==> multiset(p.outs[d].batch)[m] > 0;
  }

  /** How many of the first `n` handles are held somewhere. */
  ghost function HeldCount(sys: System, n: nat): nat
    requires n <= |sys.pipe.dest|
  {
    if n == 0 then 0 else HeldCount(sys, n - 1) + if Held(sys, Item(sys.pipe, n - 1)) then 1 else 0
  }

  /** A handle whose release has begun but not yet decremented rc. */
  predicate Releasing(ph: Tracking.Phase) {
    ph.Called? || ph.Counted?
  }

  lemma {:induction false} HoldingIsHeld(sys: System, n: nat)
    requires n <= |sys.pipe.dest| == |sys.pipe.group.handles|
    requires forall h :: 0 <= h < n ==> (sys.pipe.group.handles[h].Live? <==> Held(sys, Item(sys.pipe, h)))
    ensures var hs := sys.pipe.group.handles[..n];
            Tracking.CountIf(hs, Tracking.Holding) == HeldCount(sys, n) + Tracking.CountIf(hs, Releasing)
  {
    if n > 0 {
      HoldingIsHeld(sys, n - 1);
      OneMoreHandle(sys.pipe.group.handles, n);
    }
  }

  lemma {:induction false} OneMoreHandle(hs: seq<Tracking.Phase>, n: nat)
    requires 0 < n <= |hs|
    ensures Tracking.CountIf(hs[..n], Tracking.Holding) - Tracking.CountIf(hs[..n], Releasing)
            == Tracking.CountIf(hs[..n - 1], Tracking.Holding) - Tracking.CountIf(hs[..n - 1], Releasing)
               + if hs[n - 1].Live? then 1 else 0
  {
    assert hs[..n] == hs[..n - 1] + [hs[n - 1]];
    Tracking.CountSnoc(hs[..n - 1], hs[n - 1], Tracking.Holding);
    Tracking.CountSnoc(hs[..n - 1], hs[n - 1], Releasing);
  }

  lemma {:induction false} LiveAreHeld(sys: System)
    requires Inv(sys.pipe, sys.hand)
    ensures forall h :: 0 <= h < |sys.pipe.group.handles| ==>
              (sys.pipe.group.handles[h].Live? <==> Held(sys, Item(sys.pipe, h)))
  {
    forall h | 0 <= h < |sys.pipe.group.handles|
      ensures sys.pipe.group.handles[h].Live? <==> Held(sys, Item(sys.pipe, h))
    {
      LiveMeansHeld(sys, h);
    }
  }

  /** In every run rc is the number of handles that sit in the input, channels, buffers, batches or in hand, and
      of those whose release has begun but not yet decremented it. */
  lemma {:induction false} RcCountsHeld(n: nat, caps: seq<nat>, steps: seq<Step>, sys: System)
    requires |caps| >= 1 && IsRun(n, caps, steps) && sys == After(n, caps, steps)
    ensures var g := sys.pipe.group;
            g.rc == HeldCount(sys, |sys.pipe.dest|) + Tracking.CountIf(g.handles, Releasing) >= 0
  {
    EveryRunKeepsInv(n, caps, steps);
    LiveAreHeld(sys);
    var hs := sys.pipe.group.handles;
    HoldingIsHeld(sys, |hs|);
    assert hs[..|hs|] == hs;
  }

  ghost predicate DroppedBy(p: Pipe, m: Metric, o: nat) {
    o < |p.outs| && m in p.outs[o].rejected
  }

  /** A handle that is done was written, dropped by the buffer it was meant for, or filtered, one of these once. */
  lemma {:induction false} DoneIsSettled(p: Pipe, hand: Hand, h: nat)
    requires Inv(p, hand) && h < |p.dest| && p.group.handles[h].Done?
    ensures var m, s := Item(p, h), p.outs[p.dest[h].output];
            multiset(s.accepted)[m] + multiset(s.rejected)[m] + multiset(p.filtered)[m] == 1
    ensures DroppedBy(p, Item(p, h), p.dest[h].output) <==> p.group.handles[h] == Tracking.Done(Tracking.Reject)
  {
    assert InPlace(p, hand, h);
    var m, s := Item(p, h), p.outs[p.dest[h].output];
    assert m in s.rejected <==> multiset(s.rejected)[m] > 0;
    if Absent(p, m) {
      NotSettled(s, m);
    }
    assert Conserved(s);
  }

  lemma {:induction false} NotSettled(s: State, m: Metric)
    requires Conserved(s) && m !in s.added
    ensures multiset(s.accepted)[m] == 0 && multiset(s.rejected)[m] == 0
  {
    assert multiset(s.added)[m] == 0;
  }

  /** An output settles only handles that are meant for it. */
  lemma {:induction false} OthersAreElsewhere(p: Pipe, hand: Hand, m: Metric, o: nat)
    requires Inv(p, hand) && m.Tracked? && o < |p.outs| && !(Known(p, m) && p.dest[m.handle].output == o)
    ensures multiset(p.outs[o].accepted)[m] == 0 && multiset(p.outs[o].rejected)[m] == 0
  {
    assert Known(p, m) ==> InPlace(p, hand, m.handle);
    NotSettled(p.outs[o], m);
  }

  /** A copy that a buffer dropped is a handle of the group that was rejected. */
  lemma {:induction false} DroppedIsRejected(p: Pipe, hand: Hand, m: Metric, o: nat)
    requires Inv(p, hand) && m.Tracked? && DroppedBy(p, m, o)
    ensures m.handle < |p.dest| && m == Item(p, m.handle) && o == p.dest[m.handle].output
  {
    LoggedAdded(p.outs[o], m);
    assert Known(p, m);
    assert InPlace(p, hand, m.handle);
  }

  /** Every metric has been offered to every output once its own handle is gone from the front. */
  lemma {:induction false} OfferedToAll(p: Pipe, hand: Hand, g: nat, o: nat)
    requires Inv(p, hand) && g < p.n && o < |p.outs| && !p.group.handles[g].Live?
    ensures Dest(g, o) in p.dest
  {
    assert InPlace(p, hand, g);
    assert Item(p, g) == Tracked(g, g);
    assert p.dest[g] == Dest(g, |p.outs| - 1);
    assert Reached(p, g) == |p.outs| - 1;
  }

  lemma {:induction false} HeldIsKnown(sys: System, m: Metric)
    requires Inv(sys.pipe, sys.hand) && m.Tracked? && Held(sys, m)
    ensures m.handle < |sys.pipe.dest| && m == Item(sys.pipe, m.handle)
  {
    var p := sys.pipe;
    if Front(p, m) == 0 && sys.hand != Holding(m, if sys.hand.Free? then 0 else sys.hand.o) {
      var o :| 0 <= o < |p.outs| && (m in p.outs[o].queue || m in p.outs[o].batch);
      LoggedAdded(p.outs[o], m);
    }
    assert Known(p, m);
  }

  // What the filters said.

  /** The filtered handles meant for output `o` are those in `log`. */
  ghost predicate FilterLog(p: Pipe, o: nat, log: seq<Metric>) {
    forall m: Metric :: m.Tracked? ==>
      multiset(log)[m] == if Known(p, m) && p.dest[m.handle].output == o then multiset(p.filtered)[m] else 0
  }

  lemma {:induction false} StepKeepsFilterLog(sys: System, s: Step, o: nat, log: seq<Metric>)
    requires Inv(sys.pipe, sys.hand) && Enabled(sys, s) && FilterLog(sys.pipe, o, log)
    ensures FilterLog(Next(sys, s).pipe, o, log + Handover(sys, s, o, false))
  {
    var p, q, more := sys.pipe, Next(sys, s).pipe, Handover(sys, s, o, false);
    forall m: Metric | m.Tracked?
      ensures multiset(log + more)[m]
              == if Known(q, m) && q.dest[m.handle].output == o then multiset(q.filtered)[m] else 0
    {
      if s == Put(false) {
        assert Known(p, sys.hand.item);
        assert sys.hand.item == m ==> InPlace(p, sys.hand, m.handle);
      } else if !Known(p, m) {
        assert m !in p.filtered;
      }
    }
  }

  /** In every run the filtered handles are those that the filter of their output turned away. */
  lemma {:induction false} FiltersAreKept(n: nat, caps: seq<nat>, steps: seq<Step>, o: nat)
    requires |caps| >= 1 && IsRun(n, caps, steps)
    ensures FilterLog(After(n, caps, steps).pipe, o, HandedTo(n, caps, steps, o, false))
  {
    if steps != [] {
      var before := steps[..|steps| - 1];
      FiltersAreKept(n, caps, before, o);
      EveryRunKeepsInv(n, caps, before);
      StepKeepsFilterLog(After(n, caps, before), steps[|steps| - 1], o, HandedTo(n, caps, before, o, false));
    }
  }

  // The notification.

  /** How often `m` was written by output `o`, dropped by its buffer, or turned away by its filter. */
  ghost function Settled(n: nat, caps: seq<nat>, steps: seq<Step>, o: nat, m: Metric): nat
    requires |caps| >= 1 && o < |caps|
  {
    multiset(WrittenOut(n, caps, steps, o))[m] + multiset(LostFrom(n, caps, steps, o))[m]
    + multiset(HandedTo(n, caps, steps, o, false))[m]
  }

  /** Output `o` has settled one copy of metric `g`, once. */
  ghost predicate Served(n: nat, caps: seq<nat>, steps: seq<Step>, g: nat, o: nat)
    requires |caps| >= 1 && o < |caps|
  {
    exists h: nat :: Settled(n, caps, steps, o, Tracked(h, g)) == 1
                     && forall h': nat :: h' != h ==> Settled(n, caps, steps, o, Tracked(h', g)) == 0
  }

  lemma {:induction false} DoneIsServed(n: nat, caps: seq<nat>, steps: seq<Step>, g: nat, o: nat)
    requires |caps| >= 1 && IsRun(n, caps, steps) && g < n && o < |caps|
    requires var p := After(n, caps, steps).pipe;
             forall h :: 0 <= h < |p.group.handles| ==> p.group.handles[h].Done?
    ensures Served(n, caps, steps, g, o)
  {
    var p, hand := After(n, caps, steps).pipe, After(n, caps, steps).hand;
    EveryRunKeepsInv(n, caps, steps);
    OfferedToAll(p, hand, g, o);
    var h :| 0 <= h < |p.dest| && p.dest[h] == Dest(g, o);
    OneIsSettled(n, caps, steps, h);
    forall h': nat | h' != h
      ensures Settled(n, caps, steps, o, Tracked(h', g)) == 0
    {
      NothingElse(n, caps, steps, o, h, h', g);
    }
  }

  lemma {:induction false} NothingElse(n: nat, caps: seq<nat>, steps: seq<Step>, o: nat, h: nat, h': nat, g: nat)
    requires |caps| >= 1 && IsRun(n, caps, steps) && o < |caps|
    requires var p := After(n, caps, steps).pipe; h' != h < |p.dest| && p.dest[h] == Dest(g, o)
    ensures Settled(n, caps, steps, o, Tracked(h', g)) == 0
  {
    var p, hand, m := After(n, caps, steps).pipe, After(n, caps, steps).hand, Tracked(h', g);
    EveryRunKeepsInv(n, caps, steps);
    AnswersAreKept(n, caps, steps, o);
    FiltersAreKept(n, caps, steps, o);
    assert !(Known(p, m) && p.dest[h'].output == o);
    OthersAreElsewhere(p, hand, m, o);
  }

  lemma {:induction false} OneIsSettled(n: nat, caps: seq<nat>, steps: seq<Step>, h: nat)
    requires |caps| >= 1 && IsRun(n, caps, steps)
    requires var p := After(n, caps, steps).pipe;
             h < |p.dest| && h < |p.group.handles| && p.dest[h].output < |caps| && p.group.handles[h].Done?
    ensures var p := After(n, caps, steps).pipe; Settled(n, caps, steps, p.dest[h].output, Item(p, h)) == 1
  {
    var p, hand := After(n, caps, steps).pipe, After(n, caps, steps).hand;
    EveryRunKeepsInv(n, caps, steps);
    AnswersAreKept(n, caps, steps, p.dest[h].output);
    FiltersAreKept(n, caps, steps, p.dest[h].output);
    DoneIsSettled(p, hand, h);
    assert Known(p, Item(p, h));
  }

  /** End to end: when the input is notified, every output has settled exactly one copy of every metric of the group,
      exactly once: it was in a batch that the plugin reported as written, or it did not fit into the buffer, or the
      filter turned it away. Nothing of the group is held anywhere any more, and the notification reports a failure
      exactly if some copy did not fit. */
  lemma {:induction false} NotifiedMeansSettled(n: nat, caps: seq<nat>, steps: seq<Step>, sys: System)
    requires |caps| >= 1 && IsRun(n, caps, steps) && sys == After(n, caps, steps) && sys.pipe.group.notes != []
    ensures |sys.pipe.group.notes| == 1
    ensures forall g: nat, o: nat :: g < n && o < |caps| ==> Served(n, caps, steps, g, o)
    ensures forall m: Metric :: m.Tracked? ==> !Held(sys, m)
    ensures Tracking.Delivered(sys.pipe.group.notes[0]) <==>
              forall m: Metric, o: nat :: m.Tracked? && o < |caps| ==> m !in LostFrom(n, caps, steps, o)
  {
    var p, hand := sys.pipe, sys.hand;
    EveryRunKeepsInv(n, caps, steps);
    Tracking.NotifiedIsFinal(p.group);
    forall g: nat, o: nat | g < n && o < |caps|
      ensures Served(n, caps, steps, g, o)
    {
      DoneIsServed(n, caps, steps, g, o);
    }
    NothingIsHeld(sys);
    FailureMeansLost(n, caps, steps);
  }

  lemma {:induction false} NothingIsHeld(sys: System)
    requires Inv(sys.pipe, sys.hand)
    requires forall h :: 0 <= h < |sys.pipe.group.handles| ==> sys.pipe.group.handles[h].Done?
    ensures forall m: Metric :: m.Tracked? ==> !Held(sys, m)
  {
    forall m: Metric | m.Tracked?
      ensures !Held(sys, m)
    {
      if Held(sys, m) {
        HeldIsKnown(sys, m);
        LiveMeansHeld(sys, m.handle);
      }
    }
  }

  lemma {:induction false} FailureMeansLost(n: nat, caps: seq<nat>, steps: seq<Step>)
    requires |caps| >= 1 && IsRun(n, caps, steps) && After(n, caps, steps).pipe.group.notes != []
    ensures Tracking.Delivered(After(n, caps, steps).pipe.group.notes[0]) <==>
              forall m: Metric, o: nat :: m.Tracked? && o < |caps| ==> m !in LostFrom(n, caps, steps, o)
  {
    var p, hand := After(n, caps, steps).pipe, After(n, caps, steps).hand;
    EveryRunKeepsInv(n, caps, steps);
    FailureMeansDropped(p, hand);
    if Tracking.Delivered(p.group.notes[0]) {
      forall m: Metric, o: nat | m.Tracked? && o < |caps|
        ensures m !in LostFrom(n, caps, steps, o)
      {
        AnswersAreKept(n, caps, steps, o);
        assert !DroppedBy(p, m, o);
      }
    } else {
      var m: Metric, o: nat :| m.Tracked? && DroppedBy(p, m, o);
      AnswersAreKept(n, caps, steps, o);
      assert m in LostFrom(n, caps, steps, o);
    }
  }

  lemma {:induction false} FailureMeansDropped(p: Pipe, hand: Hand)
    requires Inv(p, hand) && p.group.notes != []
    ensures Tracking.Delivered(p.group.notes[0]) <==>
              forall m: Metric, o: nat :: m.Tracked? ==> !DroppedBy(p, m, o)
  {
    Tracking.NotifiedIsFinal(p.group);
    Tracking.DeliveredMeansNoReject(p.group);
    forall h | 0 <= h < |p.dest|
      ensures DroppedBy(p, Item(p, h), p.dest[h].output) <==> p.group.handles[h] == Tracking.Done(Tracking.Reject)
    {
      DoneIsSettled(p, hand, h);
    }
    forall m: Metric, o: nat | m.Tracked? && DroppedBy(p, m, o)
      ensures m.handle < |p.dest| && m == Item(p, m.handle) && o == p.dest[m.handle].output
    {
      DroppedIsRejected(p, hand, m, o);
    }
  }

  lemma {:induction false} NothingUnderWay(sys: System, h: nat)
    requires h < |sys.pipe.group.handles| && forall t: Tracking.Step :: !Enabled(sys, Track(t))
    ensures sys.pipe.group.handles[h].Live? || sys.pipe.group.handles[h].Done?
  {
    assert !Enabled(sys, Track(Tracking.Count(h))) && !Enabled(sys, Track(Tracking.Decr(h)));
    assert !Enabled(sys, Track(Tracking.ReadAccepted(h))) && !Enabled(sys, Track(Tracking.Notify(h)));
  }

  /** And it comes: in every run in which nothing of the group is held and no release is under way,
      the notification has been sent. */
  lemma {:induction false} SettledMeansNotified(n: nat, caps: seq<nat>, steps: seq<Step>, sys: System)
    requires |caps| >= 1 && IsRun(n, caps, steps) && sys == After(n, caps, steps)
    requires forall h :: 0 <= h < |sys.pipe.dest| ==> !Held(sys, Item(sys.pipe, h))
    requires forall t: Tracking.Step :: !Enabled(sys, Track(t))
    ensures |sys.pipe.group.notes| == 1
  {
    var p := sys.pipe;
    EveryRunKeepsInv(n, caps, steps);
    forall h | 0 <= h < |p.group.handles|
      ensures p.group.handles[h].Done?
    {
      LiveMeansHeld(sys, h);
      NothingUnderWay(sys, h);
    }
    Tracking.AllDoneIsNotified(p.group);
  }
}
