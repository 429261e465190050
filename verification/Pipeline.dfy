/** End-to-end delivery of a tracked group: the input sends its metrics into the output unit's
    channel, runOutputs offers a handle of each metric to every output (agent/agent.go), each output
    filters it or adds it to its buffer (models/running_output.go, models/buffer.go), and every
    handle that a buffer or filter lets go of is released (metric/tracking.go).

    A run is any interleaving of these steps with each other, with other metrics, with the flushes
    of the outputs and with the atomic steps of releases already begun; making a copy and handing it to
    an output are two steps. The code finishes a release before it unlocks the buffer; here its steps may
    come at any later time, so all runs of the code are among the runs considered. */
module Pipeline {
  import opened Metrics
  import opened BufferSpec
  import Tracking

  type Group = Tracking.Group
  type Verdict = Tracking.Verdict

  /** The metric of the group, and the output, that a handle is meant for. */
  datatype Dest = Dest(origin: nat, output: nat)

  /** The loop of runOutputs: idle, or offering the metric to output `i`. */
  datatype Fan = Idle | Offering(m: Metric, i: nat)

  datatype Pipe = Pipe(
    n: nat,                   // number of metrics in the group
    group: Group,             // counters and handles
    unsent: seq<Metric>,      // metrics of the group that the input still has to send
    chan: seq<Metric>,        // the output unit's source channel
    fan: Fan,
    outs: seq<State>,         // the buffers of the outputs
    filtered: seq<Metric>,    // handles dropped by some output's filter
    dest: seq<Dest>)          // what each handle is meant for

  function Initial(n: nat, caps: seq<nat>): Pipe
    requires |caps| >= 1
  {
    Pipe(n, Tracking.Initial(n), seq(n, i requires 0 <= i < n => Tracked(i, i)), [], Idle,
         seq(|caps|, o requires 0 <= o < |caps| => Empty(caps[o])), [],
         seq(n, i requires 0 <= i < n => Dest(i, |caps| - 1)))
  }

  /** What runOutputs holds between making a copy, or letting go of the metric, and the end of AddMetric. */
  datatype Hand = Free | Holding(item: Metric, o: nat)

  datatype System = System(pipe: Pipe, hand: Hand)

  /** Accept, Reject or Drop is called on each of the metrics; only handles of the group notice. */
  function CallAll(g: Group, ms: seq<Metric>, v: Verdict): Group {
    if ms == [] then g
    else
      var g' := CallAll(g, ms[..|ms| - 1], v);
      var m := ms[|ms| - 1];
      if m.Tracked? && m.handle < |g'.handles| then g'.(handles := g'.handles[m.handle := Tracking.Called(v)]) else g'
  }

  /** An operation on the buffer of output `o`, with the calls it makes on metrics. */
  function Buffered(p: Pipe, o: nat, op: Op): Pipe
    requires o < |p.outs|
  {
    var s := p.outs[o];
    var t := Apply(s, op);
    p.(outs := p.outs[o := t],
       group := CallAll(CallAll(p.group, t.accepted[Min(|s.accepted|, |t.accepted|)..], Tracking.Accept),
                        t.rejected[Min(|s.rejected|, |t.rejected|)..], Tracking.Reject))
  }

  datatype Step =
    | Send                          // the input sends its next metric
    | SendOther(id: nat)            // any other metric is sent
    | Take                          // runOutputs takes a metric from the channel
    | PickUp                        // it makes a copy for the next output, or takes the metric itself for the last
    | Put(selected: bool)           // that output's filter decides, and it is buffered or dropped
    | Flush(o: nat, size: nat)      // output `o` takes a batch
    | Written(o: nat)               // its plugin has written the batch
    | Failed(o: nat)                // its plugin has failed
    | Track(s: Tracking.Step)       // a step of a release that has begun

  predicate Enabled(sys: System, s: Step) {
    var p := sys.pipe;
    match s
    case Send => p.unsent != []
    case SendOther(_) => true
    case Take => sys.hand.Free? && p.fan.Idle? && p.chan != []
    case PickUp => sys.hand.Free? && p.fan.Offering? && p.fan.i < |p.outs|
    case Put(_) => sys.hand.Holding? && sys.hand.o < |p.outs|
    case Flush(o, _) => o < |p.outs| && p.outs[o].batch == []
    case Written(o) => o < |p.outs| && p.outs[o].batch != []
    case Failed(o) => o < |p.outs| && p.outs[o].batch != []
    case Track(t) => !t.Copy? && !t.Call? && Tracking.Enabled(p.group, t)
  }

  /** All outputs but the last get a copy, the last one the metric itself. */
  function Handed(p: Pipe): (Pipe, Metric)
    requires p.fan.Offering? && p.fan.i < |p.outs|
  {
    var m, i := p.fan.m, p.fan.i;
    if i == |p.outs| - 1 then (p.(fan := Idle), m)
    else if m.Plain? then (p.(fan := Offering(m, i + 1)), m)
    else (p.(fan := Offering(m, i + 1),
             group := p.group.(handles := p.group.handles + [Tracking.Live], rc := p.group.rc + 1),
             dest := p.dest + [Dest(m.origin, i)]),
          Tracked(|p.dest|, m.origin))
  }

  /** The item in hand is dropped by a filter. */
  function Filtered(p: Pipe, item: Metric): Pipe {
    p.(filtered := p.filtered + [item], group := CallAll(p.group, [item], Tracking.Drop))
  }

  function Next(sys: System, s: Step): System
    requires Enabled(sys, s)
  {
    var p := sys.pipe;
    match s
    case Send => sys.(pipe := p.(unsent := p.unsent[1..], chan := p.chan + [p.unsent[0]]))
    case SendOther(id) => sys.(pipe := p.(chan := p.chan + [Plain(id)]))
    case Take => sys.(pipe := p.(chan := p.chan[1..], fan := Offering(p.chan[0], 0)))
    case PickUp => var (q, item) := Handed(p); System(q, Holding(item, p.fan.i))
    case Put(selected) =>
      var item, o := sys.hand.item, sys.hand.o;
      System(if selected then Buffered(p, o, Op.Add([item])) else Filtered(p, item), Free)
    case Flush(o, size) => sys.(pipe := Buffered(p, o, Op.Batch(size)))
    case Written(o) => sys.(pipe := Buffered(p, o, Op.Accept))
    case Failed(o) => sys.(pipe := Buffered(p, o, Op.Reject))
    case Track(t) => sys.(pipe := p.(group := Tracking.Next(p.group, t)))
  }

  // What every run keeps.

  /** How often `m` is on its way to the outputs. */
  ghost function Front(p: Pipe, m: Metric): nat {
    multiset(p.unsent)[m] + multiset(p.chan)[m] + if p.fan.Offering? && p.fan.m == m then 1 else 0
  }

  function Item(p: Pipe, h: nat): Metric
    requires h < |p.dest|
  {
    Tracked(h, p.dest[h].origin)
  }

  /** A handle of the group as it was issued. */
  ghost predicate Known(p: Pipe, m: Metric) {
    m.Tracked? ==> m.handle < |p.dest| && m == Item(p, m.handle)
  }

  /** Buffer `s` agrees with the phase of the handle `m` that was added to it. */
  ghost predicate Agrees(s: State, m: Metric, ph: Tracking.Phase) {
    && multiset(s.added)[m] == 1
    && multiset(s.queue)[m] + multiset(s.batch)[m] == (if ph.Live? then 1 else 0)
    && multiset(s.accepted)[m] == (if !ph.Live? && ph.v == Tracking.Accept then 1 else 0)
    && multiset(s.rejected)[m] == (if !ph.Live? && ph.v == Tracking.Reject then 1 else 0)
  }

  ghost predicate Absent(p: Pipe, m: Metric) {
    forall o :: 0 <= o < |p.outs| ==> m !in p.outs[o].added
  }

  /** Handle `h` is in exactly one place: on its way, filtered, or added to the buffer it is meant
      for, where its phase says what has become of it. */
  ghost predicate Placed(p: Pipe, h: nat)
    requires h < |p.dest| == |p.group.handles|
  {
    var m, ph, o := Item(p, h), p.group.handles[h], p.dest[h].output;
    && o < |p.outs|
    && ( || (Front(p, m) == 1 && multiset(p.filtered)[m] == 0 && Absent(p, m) && ph.Live?)
         || (Front(p, m) == 0 && multiset(p.filtered)[m] == 1 && Absent(p, m) && !ph.Live? && ph.v == Tracking.Drop)
         || (Front(p, m) == 0 && multiset(p.filtered)[m] == 0 && Agrees(p.outs[o], m, ph)
             && forall o' :: 0 <= o' < |p.outs| && o' != o ==> m !in p.outs[o'].added))
  }

  /** Handle `h` is held by runOutputs between two places. */
  ghost predicate InHand(p: Pipe, h: nat)
    requires h < |p.dest| == |p.group.handles|
  {
    var m := Item(p, h);
    Front(p, m) == 0 && multiset(p.filtered)[m] == 0 && Absent(p, m) && p.group.handles[h].Live?
    && p.dest[h].output < |p.outs|
  }

  ghost predicate Shape(p: Pipe) {
    && |p.outs| >= 1 && p.n <= |p.dest| == |p.group.handles|
    && (p.fan.Offering? ==> p.fan.i < |p.outs|)
    && (forall o :: 0 <= o < |p.outs| ==> Conserved(p.outs[o]))
    && (forall o, m :: 0 <= o < |p.outs| && m in p.outs[o].added ==> Known(p, m))
    && (forall m :: Front(p, m) > 0 && m.Tracked? ==> m.handle < p.n && Known(p, m))
    && (forall m :: m in p.filtered ==> Known(p, m))
    && Tracking.Inv(p.group)
  }

  /** How many outputs, short of the last, have got their copy of metric `g`. */
  ghost function Reached(p: Pipe, g: nat): int {
    if p.fan.Offering? && p.fan.m == Tracked(g, g) then p.fan.i
    else if Front(p, Tracked(g, g)) > 0 then 0
    else |p.outs| - 1
  }

  /** There is one handle for each metric and each output it has been offered to; the handle the
      input made is for the last output. */
  ghost predicate Copied(p: Pipe)
    requires p.n <= |p.dest| && |p.outs| >= 1
  {
    && (forall g :: 0 <= g < p.n ==> p.dest[g] == Dest(g, |p.outs| - 1))
    && (forall h, h' :: 0 <= h < h' < |p.dest| ==> p.dest[h] != p.dest[h'])
    && (forall h :: p.n <= h < |p.dest| ==>
          p.dest[h].origin < p.n && p.dest[h].output < Reached(p, p.dest[h].origin))
    && (forall g, o :: 0 <= g < p.n && 0 <= o < Reached(p, g) ==> Dest(g, o) in p.dest)
  }

  predicate Holds(hand: Hand, h: nat) {
    hand.Holding? && hand.item.Tracked? && hand.item.handle == h
  }

  /** Handle `h` is in hand and meant for that output, or else in its place. */
  ghost predicate InPlace(p: Pipe, hand: Hand, h: nat)
    requires h < |p.dest| == |p.group.handles|
  {
    if Holds(hand, h) then InHand(p, h) && p.dest[h].output == hand.o else Placed(p, h)
  }

  ghost predicate Inv(p: Pipe, hand: Hand) {
    && Shape(p) && Copied(p)
    && (hand.Holding? ==> hand.o < |p.outs| && Known(p, hand.item))
    && forall h :: 0 <= h < |p.dest| ==> InPlace(p, hand, h)
  }

  // Releasing handles.

  /** The metrics are distinct live handles. */
  ghost predicate Releasable(hs: seq<Tracking.Phase>, ms: seq<Metric>) {
    && (forall i :: 0 <= i < |ms| && ms[i].Tracked? ==> ms[i].handle < |hs| && hs[ms[i].handle].Live?)
    && (forall i, j :: 0 <= i < j < |ms| && ms[i].Tracked? && ms[j].Tracked? ==> ms[i].handle != ms[j].handle)
  }

  ghost predicate Untouched(h: nat, ms: seq<Metric>) {
    forall i :: 0 <= i < |ms| && ms[i].Tracked? ==> ms[i].handle != h
  }

  /** Exactly the handles among `ms` have moved on to a call of `v`. */
  ghost predicate Marked(hs: seq<Tracking.Phase>, hs': seq<Tracking.Phase>, ms: seq<Metric>, v: Verdict) {
    && |hs'| == |hs|
    && (forall i :: 0 <= i < |ms| && ms[i].Tracked? && ms[i].handle < |hs| ==> hs'[ms[i].handle] == Tracking.Called(v))
    && (forall h :: 0 <= h < |hs| && Untouched(h, ms) ==> hs'[h] == hs[h])
  }

  lemma {:induction false} MarkedSnoc(hs: seq<Tracking.Phase>, hs': seq<Tracking.Phase>, ms: seq<Metric>, m: Metric,
                                      v: Verdict)
    requires Marked(hs, hs', ms, v) && m.Tracked? && m.handle < |hs|
    ensures Marked(hs, hs'[m.handle := Tracking.Called(v)], ms + [m], v)
  {
    forall h | 0 <= h < |hs| && Untouched(h, ms + [m])
      ensures hs'[m.handle := Tracking.Called(v)][h] == hs[h]
    {
      assert (ms + [m])[|ms|] == m;
      assert forall i :: 0 <= i < |ms| ==> (ms + [m])[i] == ms[i];
      assert Untouched(h, ms);
    }
  }

  lemma {:induction false} ReleasableInit(hs: seq<Tracking.Phase>, ms: seq<Metric>, m: Metric)
    requires Releasable(hs, ms + [m])
    ensures Releasable(hs, ms)
    ensures m.Tracked? ==> m.handle < |hs| && hs[m.handle].Live? && Untouched(m.handle, ms)
  {
    assert (ms + [m])[|ms|] == m;
    assert forall i :: 0 <= i < |ms| ==> (ms + [m])[i] == ms[i];
  }

  /** Calls on distinct live handles are steps of the tracking protocol. */
  lemma {:induction false} CallAllEffect(g: Group, ms: seq<Metric>, v: Verdict)
    requires Tracking.Inv(g) && Releasable(g.handles, ms)
    ensures var g' := CallAll(g, ms, v);
            && Tracking.Inv(g') && g' == g.(handles := g'.handles) && Marked(g.handles, g'.handles, ms, v)
  {
    if ms != [] {
      var before, m := ms[..|ms| - 1], ms[|ms| - 1];
      assert ms == before + [m];
      ReleasableInit(g.handles, before, m);
      CallAllEffect(g, before, v);
      var g' := CallAll(g, before, v);
      if m.Tracked? {
        Tracking.StepKeepsInv(g', Tracking.Call(m.handle, v));
        MarkedSnoc(g.handles, g'.handles, before, m, v);
      } else {
        assert forall h :: Untouched(h, ms) ==> Untouched(h, before);
      }
    }
  }

  lemma {:induction false} CountedTwice(ms: seq<Metric>, i: nat, j: nat)
    requires i < j < |ms| && ms[i] == ms[j]
    ensures multiset(ms)[ms[i]] >= 2
  {
    assert ms == ms[..j] + ms[j..];
    assert ms[i] == ms[..j][i] && ms[j] == ms[j..][0];
    assert multiset(ms[..j])[ms[i]] >= 1 && multiset(ms[j..])[ms[i]] >= 1;
  }

  /** The calls logged so far agree with the phase of handle `m`. */
  ghost predicate Logged(s: State, m: Metric, ph: Tracking.Phase) {
    && multiset(s.accepted)[m] == (if !ph.Live? && ph.v == Tracking.Accept then 1 else 0)
    && multiset(s.rejected)[m] == (if !ph.Live? && ph.v == Tracking.Reject then 1 else 0)
    && (!ph.Live? ==> ph.v != Tracking.Drop)
  }

  /** What a buffer operation that logs the calls `a` and `r` means for handle `m`. */
  lemma {:induction false} SettleOne(s: State, t: State, a: seq<Metric>, r: seq<Metric>, m: Metric, ph: Tracking.Phase)
    requires Conserved(t) && multiset(t.added)[m] == 1
    requires t.accepted == s.accepted + a && t.rejected == s.rejected + r && Logged(s, m, ph)
    ensures m in a ==> ph.Live? && m !in r && multiset(a)[m] == 1 && Agrees(t, m, Tracking.Called(Tracking.Accept))
    ensures m in r ==> ph.Live? && multiset(r)[m] == 1 && Agrees(t, m, Tracking.Called(Tracking.Reject))
    ensures m !in a && m !in r ==> Agrees(t, m, ph)
  {
    assert multiset(t.accepted)[m] == multiset(s.accepted)[m] + multiset(a)[m];
    assert multiset(t.rejected)[m] == multiset(s.rejected)[m] + multiset(r)[m];
    assert m in a <==> multiset(a)[m] > 0;
    assert m in r <==> multiset(r)[m] > 0;
  }

  /** The buffer before an operation, and what the operation adds, are consistent with the handles. */
  ghost predicate Ready(s: State, t: State, handles: seq<Tracking.Phase>) {
    && (forall m :: m in t.added && m.Tracked? ==>
          m.handle < |handles| && multiset(t.added)[m] == 1 && Logged(s, m, handles[m.handle]))
    && (forall m, m' :: m in t.added && m' in t.added && m.Tracked? && m'.Tracked? && m.handle == m'.handle ==> m == m')
  }

  lemma {:induction false} LoggedAdded(t: State, m: Metric)
    requires Conserved(t) && (m in t.accepted || m in t.rejected || m in t.queue || m in t.batch)
    ensures m in t.added
  {
    assert multiset(t.accepted)[m] + multiset(t.rejected)[m] + multiset(t.batch)[m] + multiset(t.queue)[m] > 0;
    assert multiset(t.added)[m] > 0;
  }

  /** The calls that one buffer operation logs are on distinct live handles, none called twice. */
  lemma {:induction false} CallsAreReleases(s: State, t: State, a: seq<Metric>, r: seq<Metric>, hs: seq<Tracking.Phase>)
    requires Conserved(t) && t.accepted == s.accepted + a && t.rejected == s.rejected + r && Ready(s, t, hs)
    ensures (forall m :: m in a || m in r ==> m in t.added) && (forall m :: m in a && m.Tracked? ==> m !in r)
    ensures Releasable(hs, a) && Releasable(hs, r)
  {
    forall m | m in a || m in r
      ensures m in t.added
      ensures m in a && m.Tracked? ==> hs[m.handle].Live? && multiset(a)[m] == 1 && m !in r
      ensures m in r && m.Tracked? ==> hs[m.handle].Live? && multiset(r)[m] == 1
    {
      LoggedAdded(t, m);
      if m.Tracked? {
        SettleOne(s, t, a, r, m, hs[m.handle]);
      }
    }
    DistinctHandles(t, a, hs);
    DistinctHandles(t, r, hs);
  }

  lemma {:induction false} DistinctHandles(t: State, ms: seq<Metric>, hs: seq<Tracking.Phase>)
    requires forall m :: m in ms ==> m in t.added
    requires forall m :: m in ms && m.Tracked? ==> multiset(ms)[m] == 1 && m.handle < |hs| && hs[m.handle].Live?
    requires forall m, m' :: m in t.added && m' in t.added && m.Tracked? && m'.Tracked? && m.handle == m'.handle
               ==> m == m'
    ensures Releasable(hs, ms)
  {
    forall i, j | 0 <= i < j < |ms| && ms[i].Tracked? && ms[j].Tracked?
      ensures ms[i].handle != ms[j].handle
    {
      if ms[i].handle == ms[j].handle {
        assert ms[i] in t.added && ms[j] in t.added;
        CountedTwice(ms, i, j);
      }
    }
  }

  /** After both kinds of calls, the phase of handle `m` is as its metric was called. */
  lemma {:induction false} MarkedTwice(hs: seq<Tracking.Phase>, hs1: seq<Tracking.Phase>, hs2: seq<Tracking.Phase>,
                    a: seq<Metric>, r: seq<Metric>, m: Metric)
    requires Marked(hs, hs1, a, Tracking.Accept) && Marked(hs1, hs2, r, Tracking.Reject)
    requires m.Tracked? && m.handle < |hs|
    requires forall m' :: (m' in a || m' in r) && m'.Tracked? && m'.handle == m.handle ==> m' == m
    requires m in a ==> m !in r
    ensures hs2[m.handle] == if m in a then Tracking.Called(Tracking.Accept)
                             else if m in r then Tracking.Called(Tracking.Reject) else hs[m.handle]
  {
    if m !in r {
      assert forall i :: 0 <= i < |r| ==> r[i] in r;
      assert Untouched(m.handle, r);
    }
    if m !in a {
      assert forall i :: 0 <= i < |a| ==> a[i] in a;
      assert Untouched(m.handle, a);
    }
  }

  /** Accept on `a` and Reject on `r`, as logged by one buffer operation. */
  lemma {:induction false} SettleAll(s: State, t: State, a: seq<Metric>, r: seq<Metric>, g: Group)
    requires Conserved(t) && t.accepted == s.accepted + a && t.rejected == s.rejected + r
    requires Tracking.Inv(g) && Ready(s, t, g.handles)
    ensures var g' := CallAll(CallAll(g, a, Tracking.Accept), r, Tracking.Reject);
            && Tracking.Inv(g') && |g'.handles| == |g.handles|
            && (forall m :: m in t.added && m.Tracked? ==> Agrees(t, m, g'.handles[m.handle]))
            && (forall h :: 0 <= h < |g.handles| && Untouched(h, t.added) ==> g'.handles[h] == g.handles[h])
  {
    CallsAreReleases(s, t, a, r, g.handles);
    CallAllEffect(g, a, Tracking.Accept);
    var g1 := CallAll(g, a, Tracking.Accept);
    StillReleasable(t, a, r, g.handles, g1.handles);
    CallAllEffect(g1, r, Tracking.Reject);
    var g' := CallAll(g1, r, Tracking.Reject);
    forall m | m in t.added && m.Tracked?
      ensures Agrees(t, m, g'.handles[m.handle])
    {
      SettleOne(s, t, a, r, m, g.handles[m.handle]);
      MarkedTwice(g.handles, g1.handles, g'.handles, a, r, m);
    }
    forall h | 0 <= h < |g.handles| && Untouched(h, t.added)
      ensures g'.handles[h] == g.handles[h]
    {
      assert forall i :: 0 <= i < |a| ==> a[i] in a;
      assert forall i :: 0 <= i < |r| ==> r[i] in r;
      assert Untouched(h, a) && Untouched(h, r);
    }
  }

  lemma {:induction false} StillReleasable(t: State, a: seq<Metric>, r: seq<Metric>, hs: seq<Tracking.Phase>,
                                           hs1: seq<Tracking.Phase>)
    requires (forall m :: m in a || m in r ==> m in t.added) && (forall m :: m in a && m.Tracked? ==> m !in r)
    requires forall m, m' :: m in t.added && m' in t.added && m.Tracked? && m'.Tracked? && m.handle == m'.handle
               ==> m == m'
    requires Releasable(hs, r) && Marked(hs, hs1, a, Tracking.Accept)
    ensures Releasable(hs1, r)
  {
    forall i | 0 <= i < |r| && r[i].Tracked?
      ensures hs1[r[i].handle].Live?
    {
      assert r[i] in r;
      assert forall k :: 0 <= k < |a| ==> a[k] in a;
      assert Untouched(r[i].handle, a);
    }
  }

  // Buffer operations.

  /** A handle in a buffer has been placed there, and the buffer's logs agree with its phase. */
  lemma {:induction false} InBufferMeansPlaced(p: Pipe, o: nat, m: Metric)
    requires Shape(p) && o < |p.outs| && m in p.outs[o].added && m.Tracked?
    requires m.handle < |p.dest| && Placed(p, m.handle)
    ensures Agrees(p.outs[o], m, p.group.handles[m.handle]) && Logged(p.outs[o], m, p.group.handles[m.handle])
  {
    assert Known(p, m);
    assert !Absent(p, m);
    assert Conserved(p.outs[o]);
  }

  lemma {:induction false} ReadyWithout(p: Pipe, hand: Hand, o: nat, t: State)
    requires Inv(p, hand) && o < |p.outs| && t.added == p.outs[o].added
    ensures Ready(p.outs[o], t, p.group.handles)
  {
    forall m | m in t.added && m.Tracked?
      ensures m.handle < |p.group.handles| && multiset(t.added)[m] == 1
              && Logged(p.outs[o], m, p.group.handles[m.handle]) && m == Item(p, m.handle)
    {
      assert Known(p, m);
      assert InPlace(p, hand, m.handle);
      InBufferMeansPlaced(p, o, m);
    }
  }

  lemma {:induction false} ReadyWith(p: Pipe, o: nat, t: State, item: Metric)
    requires Inv(p, Holding(item, o)) && t.added == p.outs[o].added + [item]
    ensures Ready(p.outs[o], t, p.group.handles)
  {
    var s := p.outs[o];
    forall m | m in t.added && m.Tracked?
      ensures m.handle < |p.group.handles| && multiset(t.added)[m] == 1
              && Logged(s, m, p.group.handles[m.handle]) && m == Item(p, m.handle)
    {
      assert multiset(t.added)[m] == multiset(s.added)[m] + (if m == item then 1 else 0);
      if m == item {
        assert InPlace(p, Holding(item, o), m.handle);
        assert m !in s.added;
        assert Conserved(s);
        assert multiset(s.added)[m] == 0;
      } else {
        assert m in s.added;
        assert Known(p, m);
        assert InPlace(p, Holding(item, o), m.handle);
        InBufferMeansPlaced(p, o, m);
      }
    }
  }

  /** The operation's effect on one handle that was in place. */
  lemma {:induction false} PlacedAfter(p: Pipe, q: Pipe, o: nat, h: nat)
    requires |p.dest| == |p.group.handles| == |q.group.handles| && h < |p.dest| && o < |p.outs| && Placed(p, h)
    requires |q.outs| == |p.outs| && q == p.(outs := p.outs[o := q.outs[o]], group := q.group)
    requires Item(p, h) in q.outs[o].added <==> Item(p, h) in p.outs[o].added
    requires Item(p, h) in q.outs[o].added ==> Agrees(q.outs[o], Item(p, h), q.group.handles[h])
    requires Item(p, h) !in q.outs[o].added ==> q.group.handles[h] == p.group.handles[h]
    ensures Placed(q, h)
  {
    var m, d := Item(p, h), p.dest[h].output;
    assert Item(q, h) == m && Front(q, m) == Front(p, m);
    if Absent(p, m) {
      assert Absent(q, m);
    }
  }

  lemma {:induction false} UntouchedUnlessAdded(p: Pipe, q: Pipe, o: nat, h: nat)
    requires h < |p.dest| && o < |q.outs| && Item(p, h) !in q.outs[o].added
    requires forall m :: m in q.outs[o].added ==> Known(p, m)
    ensures Untouched(h, q.outs[o].added)
  {
    forall i | 0 <= i < |q.outs[o].added| && q.outs[o].added[i].Tracked?
      ensures q.outs[o].added[i].handle != h
    {
      assert Known(p, q.outs[o].added[i]);
    }
  }

  lemma {:induction false} LogsGrow(s: State, op: Op)
    ensures var t := Apply(s, op);
            && |s.accepted| <= |t.accepted| && t.accepted == s.accepted + t.accepted[|s.accepted|..]
            && |s.rejected| <= |t.rejected| && t.rejected == s.rejected + t.rejected[|s.rejected|..]
            && t.added == s.added + if op.Add? then op.ms else []
  {
  }

  /** What an operation on one buffer does to the handles, if the buffer was consistent with them. */
  lemma {:induction false} BufferedEffect(p: Pipe, o: nat, op: Op)
    requires Shape(p) && o < |p.outs| && Legal(p.outs[o], op)
    requires Ready(p.outs[o], Apply(p.outs[o], op), p.group.handles)
    ensures var q := Buffered(p, o, op);
            && q.outs[o] == Apply(p.outs[o], op) && Conserved(q.outs[o])
            && Tracking.Inv(q.group) && |q.group.handles| == |p.group.handles|
            && (forall m :: m in q.outs[o].added && m.Tracked? ==> Agrees(q.outs[o], m, q.group.handles[m.handle]))
            && (forall h :: 0 <= h < |p.group.handles| && Untouched(h, q.outs[o].added)
                  ==> q.group.handles[h] == p.group.handles[h])
  {
    var s := p.outs[o];
    var t := Apply(s, op);
    StepConserves(s, op);
    LogsGrow(s, op);
    SettleAll(s, t, t.accepted[|s.accepted|..], t.rejected[|s.rejected|..], p.group);
  }

  /** Taking, accepting or rejecting a batch keeps the invariant. */
  lemma {:induction false} FlushKeepsInv(p: Pipe, hand: Hand, o: nat, op: Op)
    requires Inv(p, hand) && o < |p.outs| && Legal(p.outs[o], op) && !op.Add?
    ensures Inv(Buffered(p, o, op), hand)
  {
    var q := Buffered(p, o, op);
    LogsGrow(p.outs[o], op);
    assert q.outs[o].added == p.outs[o].added;
    ReadyWithout(p, hand, o, q.outs[o]);
    BufferedEffect(p, o, op);
    SameFront(p, q);
    forall h | 0 <= h < |q.dest|
      ensures InPlace(q, hand, h)
    {
      assert InPlace(p, hand, h);
      if Item(p, h) !in q.outs[o].added {
        UntouchedUnlessAdded(p, q, o, h);
      }
      if Holds(hand, h) {
        InHandAfter(p, q, o, h);
      } else {
        PlacedAfter(p, q, o, h);
      }
    }
  }

  lemma {:induction false} InHandAfter(p: Pipe, q: Pipe, o: nat, h: nat)
    requires |p.dest| == |p.group.handles| == |q.group.handles| && h < |p.dest| && o < |p.outs| && InHand(p, h)
    requires |q.outs| == |p.outs| && q == p.(outs := p.outs[o := q.outs[o]], group := q.group)
    requires Item(p, h) !in q.outs[o].added && q.group.handles[h] == p.group.handles[h]
    ensures InHand(q, h)
  {
    assert Front(q, Item(p, h)) == Front(p, Item(p, h));
  }

  lemma {:induction false} SameFront(p: Pipe, q: Pipe)
    requires Shape(p) && Copied(p) && q == p.(outs := q.outs, group := q.group) && |q.outs| == |p.outs|
    requires |q.group.handles| == |p.group.handles| && Tracking.Inv(q.group)
    requires forall o :: 0 <= o < |q.outs| ==> Conserved(q.outs[o])
    requires forall o, m :: 0 <= o < |q.outs| && m in q.outs[o].added ==> Known(p, m)
    ensures Shape(q) && Copied(q)
  {
    assert forall m :: Front(q, m) == Front(p, m) && Known(q, m) == Known(p, m);
    assert forall g :: Reached(q, g) == Reached(p, g);
  }

  // The loop of runOutputs.

  lemma {:induction false} PlacedByDeposit(p: Pipe, q: Pipe, o: nat, h: nat)
    requires |p.dest| == |p.group.handles| == |q.group.handles| && h < |p.dest| && o < |p.outs| && InHand(p, h)
    requires |q.outs| == |p.outs| && q == p.(outs := p.outs[o := q.outs[o]], group := q.group)
    requires p.dest[h].output == o && Agrees(q.outs[o], Item(p, h), q.group.handles[h])
    ensures Placed(q, h)
  {
    assert Front(q, Item(p, h)) == Front(p, Item(p, h));
  }

  lemma {:induction false} PlacedAfterDeposit(p: Pipe, item: Metric, o: nat, q: Pipe, h: nat)
    requires Inv(p, Holding(item, o)) && h < |p.dest| && Deposited(p, item, o, q)
    ensures Placed(q, h)
  {
    var m := Item(p, h);
    assert InPlace(p, Holding(item, o), h);
    assert m in q.outs[o].added <==> m in p.outs[o].added || m == item;
    if m == item {
      PlacedByDeposit(p, q, o, h);
    } else {
      if m !in q.outs[o].added {
        UntouchedUnlessAdded(p, q, o, h);
      }
      PlacedAfter(p, q, o, h);
    }
  }

  ghost predicate Deposited(p: Pipe, item: Metric, o: nat, q: Pipe)
    requires o < |p.outs| && |p.dest| == |p.group.handles|
  {
    && |q.outs| == |p.outs| && q == p.(outs := p.outs[o := q.outs[o]], group := q.group)
    && |q.group.handles| == |p.group.handles|
    && q.outs[o].added == p.outs[o].added + [item]
    && (forall m :: m in q.outs[o].added && m.Tracked? ==>
        Known(p, m) && Agrees(q.outs[o], m, q.group.handles[m.handle]))
    && (forall k :: 0 <= k < |p.group.handles| && Untouched(k, q.outs[o].added)
          ==> q.group.handles[k] == p.group.handles[k])
  }

  lemma {:induction false} DepositEffect(p: Pipe, item: Metric, o: nat)
    requires Inv(p, Holding(item, o))
    ensures var q := Buffered(p, o, Op.Add([item]));
            Deposited(p, item, o, q) && Conserved(q.outs[o]) && Tracking.Inv(q.group)
  {
    var op := Op.Add([item]);
    LogsGrow(p.outs[o], op);
    ReadyWith(p, o, Apply(p.outs[o], op), item);
    BufferedEffect(p, o, op);
  }

  /** Adding the item in hand to the buffer it is meant for puts it in place. */
  lemma {:induction false} DepositKeepsInv(p: Pipe, item: Metric, o: nat)
    requires Inv(p, Holding(item, o))
    ensures Inv(Buffered(p, o, Op.Add([item])), Free)
  {
    var q := Buffered(p, o, Op.Add([item]));
    DepositEffect(p, item, o);
    SameFront(p, q);
    forall h | 0 <= h < |q.dest|
      ensures InPlace(q, Free, h)
    {
      PlacedAfterDeposit(p, item, o, q, h);
    }
  }

  lemma {:induction false} PlacedByFilter(p: Pipe, item: Metric, o: nat, h: nat)
    requires Inv(p, Holding(item, o)) && h < |Filtered(p, item).dest| && h < |p.group.handles|
    requires forall m :: Front(Filtered(p, item), m) == Front(p, m)
    requires Marked(p.group.handles, Filtered(p, item).group.handles, [item], Tracking.Drop)
    ensures Placed(Filtered(p, item), h)
  {
    var q := Filtered(p, item);
    var m := Item(p, h);
    assert InPlace(p, Holding(item, o), h);
    assert multiset(q.filtered)[m] == multiset(p.filtered)[m] + (if m == item then 1 else 0);
    assert Absent(p, m) == Absent(q, m);
    if m == item {
      assert [item][0] == item;
      assert q.group.handles[h] == Tracking.Called(Tracking.Drop);
    } else {
      assert item.Tracked? ==> Known(p, item);
      assert Untouched(h, [item]);
      assert Placed(p, h) && q.group.handles[h] == p.group.handles[h];
    }
  }

  lemma {:induction false} ItemIsReleasable(p: Pipe, item: Metric, o: nat)
    requires Inv(p, Holding(item, o))
    ensures Releasable(p.group.handles, [item])
  {
    assert item.Tracked? ==> InPlace(p, Holding(item, o), item.handle);
  }

  lemma {:induction false} FilterKeepsShape(p: Pipe, item: Metric, o: nat)
    requires Inv(p, Holding(item, o))
    requires forall m :: Front(Filtered(p, item), m) == Front(p, m)
    ensures Shape(Filtered(p, item)) && Copied(Filtered(p, item))
  {
    var q := Filtered(p, item);
    ItemIsReleasable(p, item, o);
    CallAllEffect(p.group, [item], Tracking.Drop);
    assert forall m :: Known(q, m) == Known(p, m);
    assert forall g :: Reached(q, g) == Reached(p, g);
  }

  /** Dropping the item in hand, because a filter rejects it, puts it in place too. */
  lemma {:induction false} FilterKeepsInv(p: Pipe, item: Metric, o: nat)
    requires Inv(p, Holding(item, o))
    ensures Inv(Filtered(p, item), Free)
  {
    var q := Filtered(p, item);
    ItemIsReleasable(p, item, o);
    CallAllEffect(p.group, [item], Tracking.Drop);
    SameFront(p, p.(group := q.group));
    assert forall m :: Front(q, m) == Front(p, m);
    FilterKeepsShape(p, item, o);
    forall h | 0 <= h < |q.dest|
      ensures InPlace(q, Free, h)
    {
      PlacedByFilter(p, item, o, h);
    }
  }

  /** A metric on its way is the live handle that the input made. */
  lemma {:induction false} OnItsWay(p: Pipe, m: Metric)
    requires Inv(p, Free) && Front(p, m) > 0 && m.Tracked?
    ensures m.handle < p.n && m == Item(p, m.handle) == Tracked(m.handle, m.handle) && Front(p, m) == 1
    ensures p.dest[m.handle] == Dest(m.origin, |p.outs| - 1)
    ensures multiset(p.filtered)[m] == 0 && Absent(p, m) && p.group.handles[m.handle].Live?
  {
    assert Known(p, m);
    assert InPlace(p, Free, m.handle);
  }

  /** What changes when the last output takes the metric itself out of the loop, and what does not. */
  lemma {:induction false} LastFrame(p: Pipe, q: Pipe)
    requires Inv(p, Free) && p.fan.Offering? && p.fan.i == |p.outs| - 1 && q == p.(fan := Idle)
    ensures forall m :: Front(q, m) == Front(p, m) - if m == p.fan.m then 1 else 0
    ensures forall m :: Known(q, m) == Known(p, m) && Absent(q, m) == Absent(p, m)
    ensures forall g :: 0 <= g < p.n ==> Reached(q, g) == Reached(p, g)
  {
    var m := p.fan.m;
    assert Front(p, m) > 0;
    if m.Tracked? {
      OnItsWay(p, m);
    }
    forall g | 0 <= g < p.n
      ensures Reached(q, g) == Reached(p, g)
    {
      assert m.Tracked? || Front(q, Tracked(g, g)) == Front(p, Tracked(g, g));
    }
  }

  /** The last output gets the metric itself. */
  lemma {:induction false} HandLast(p: Pipe)
    requires Inv(p, Free) && p.fan.Offering? && p.fan.i == |p.outs| - 1
    ensures Inv(Handed(p).0, Holding(Handed(p).1, p.fan.i))
  {
    var q, m := p.(fan := Idle), p.fan.m;
    LastFrame(p, q);
    assert Front(p, m) > 0;
    if m.Tracked? {
      OnItsWay(p, m);
    }
    forall h | 0 <= h < |q.dest|
      ensures InPlace(q, Holding(m, p.fan.i), h)
    {
      assert InPlace(p, Free, h);
    }
  }

  /** A plain metric needs no handle. */
  lemma {:induction false} HandPlain(p: Pipe)
    requires Inv(p, Free) && p.fan.Offering? && p.fan.i < |p.outs| - 1 && p.fan.m.Plain?
    ensures Inv(Handed(p).0, Holding(Handed(p).1, p.fan.i))
  {
    var q := p.(fan := Offering(p.fan.m, p.fan.i + 1));
    assert Handed(p) == (q, p.fan.m);
    FrontKeepsInv(p, Free, q);
    forall h | 0 <= h < |q.dest|
      ensures InPlace(q, Holding(p.fan.m, p.fan.i), h)
    {
      assert InPlace(q, Free, h);
    }
  }

  /** The copy made for an earlier output is a new handle for a new destination. */
  lemma {:induction false} HandCopy(p: Pipe)
    requires Inv(p, Free) && p.fan.Offering? && p.fan.i < |p.outs| - 1 && p.fan.m.Tracked?
    ensures Inv(Handed(p).0, Holding(Handed(p).1, p.fan.i))
  {
    var m, i := p.fan.m, p.fan.i;
    var q, item := Handed(p).0, Handed(p).1;
    assert Front(p, m) > 0;
    OnItsWay(p, m);
    Tracking.StepKeepsInv(p.group, Tracking.Copy(m.handle));
    assert q.group == Tracking.Next(p.group, Tracking.Copy(m.handle));
    assert forall m' :: Front(q, m') == Front(p, m') && Absent(q, m') == Absent(p, m');
    assert forall m' :: Known(p, m') ==> Known(q, m');
    CopiedAfterCopy(p, q);
    NewHandleIsNowhere(p, item);
    forall h | 0 <= h < |q.dest|
      ensures InPlace(q, Holding(item, i), h)
    {
      if h != item.handle {
        assert InPlace(p, Free, h) && Item(q, h) == Item(p, h) && q.group.handles[h] == p.group.handles[h];
      }
    }
  }

  lemma {:induction false} NewHandleIsNowhere(p: Pipe, item: Metric)
    requires Inv(p, Free) && item.Tracked? && item.handle >= |p.dest|
    ensures Front(p, item) == 0 && multiset(p.filtered)[item] == 0 && Absent(p, item)
  {
    assert !Known(p, item);
    assert item !in p.filtered;
  }

  lemma {:induction false} NewDestination(p: Pipe, g: nat, i: nat, h: nat)
    requires Shape(p) && Copied(p) && g < p.n && Reached(p, g) == i < |p.outs| - 1 && h < |p.dest|
    ensures p.dest[h] != Dest(g, i)
  {
    assert h < p.n ==> p.dest[h] == Dest(h, |p.outs| - 1);
    assert h >= p.n ==> p.dest[h].output < Reached(p, p.dest[h].origin);
  }

  lemma {:induction false} CopiedAfterCopy(p: Pipe, q: Pipe)
    requires Shape(p) && Copied(p) && p.fan.Offering? && p.fan.i < |p.outs| - 1 && p.fan.m.Tracked? && q == Handed(p).0
    requires p.fan.m == Tracked(p.fan.m.handle, p.fan.m.handle) && p.fan.m.handle < p.n
    requires forall m :: Front(q, m) == Front(p, m)
    ensures Copied(q)
  {
    var g, i := p.fan.m.handle, p.fan.i;
    assert Reached(p, g) == i && Reached(q, g) == i + 1;
    assert forall g' :: g' != g ==> Reached(q, g') == Reached(p, g');
    forall h | 0 <= h < |p.dest|
      ensures p.dest[h] != Dest(g, i)
    {
      NewDestination(p, g, i, h);
    }
    CopiedWith(p, q, g, i);
  }

  lemma {:induction false} CopiedWith(p: Pipe, q: Pipe, g: nat, i: nat)
    requires p.n <= |p.dest| && |p.outs| >= 1 && Copied(p) && g < p.n
    requires q.n == p.n && |q.outs| == |p.outs| && q.dest == p.dest + [Dest(g, i)]
    requires Reached(p, g) == i && Reached(q, g) == i + 1
    requires forall g' :: g' != g ==> Reached(q, g') == Reached(p, g')
    requires forall h :: 0 <= h < |p.dest| ==> p.dest[h] != Dest(g, i)
    ensures Copied(q)
  {
    forall g', o | 0 <= g' < q.n && 0 <= o < Reached(q, g')
      ensures Dest(g', o) in q.dest
    {
      if g' == g && o == i {
        assert q.dest[|p.dest|] == Dest(g', o);
      } else {
        assert Dest(g', o) in p.dest;
      }
    }
  }

  // The other steps.

  /** Moving metrics towards the outputs changes nothing else. */
  lemma {:induction false} FrontKeepsInv(p: Pipe, hand: Hand, q: Pipe)
    requires Inv(p, hand) && q == p.(unsent := q.unsent, chan := q.chan, fan := q.fan)
    requires forall m: Metric :: m.Tracked? ==> Front(q, m) == Front(p, m)
    requires forall g :: Reached(q, g) == Reached(p, g)
    requires q.fan.Offering? ==> q.fan.i < |q.outs|
    ensures Inv(q, hand)
  {
    assert forall m :: Known(q, m) == Known(p, m) && Absent(q, m) == Absent(p, m);
    forall h | 0 <= h < |q.dest|
      ensures InPlace(q, hand, h)
    {
      assert InPlace(p, hand, h) && Item(q, h) == Item(p, h);
    }
  }

  lemma {:induction false} HeadAndTail(s: seq<Metric>, m: Metric)
    requires s != []
    ensures multiset(s)[m] == multiset(s[1..])[m] + if s[0] == m then 1 else 0
  {
    assert s == [s[0]] + s[1..];
  }

  lemma {:induction false} FrontSteps(sys: System, s: Step)
    requires Inv(sys.pipe, sys.hand) && Enabled(sys, s) && (s.Send? || s.SendOther? || s.Take?)
    ensures Inv(Next(sys, s).pipe, sys.hand)
  {
    var p, q := sys.pipe, Next(sys, s).pipe;
    forall m: Metric | m.Tracked?
      ensures Front(q, m) == Front(p, m)
    {
      match s
      case Send => HeadAndTail(p.unsent, m);
      case SendOther(_) =>
      case Take => HeadAndTail(p.chan, m);
    }
    forall g
      ensures Reached(q, g) == Reached(p, g)
    {
      assert Front(q, Tracked(g, g)) == Front(p, Tracked(g, g));
    }
    FrontKeepsInv(p, sys.hand, q);
  }

  /** The steps of a release change neither whether a handle is live nor its verdict. */
  lemma {:induction false} ReleaseGoesOn(g: Group, t: Tracking.Step, h: nat)
    requires Tracking.Enabled(g, t) && !t.Copy? && !t.Call? && h < |g.handles|
    ensures var g' := Tracking.Next(g, t);
            && |g'.handles| == |g.handles| && g.handles[h].Live? == g'.handles[h].Live?
            && (!g.handles[h].Live? ==> g.handles[h].v == g'.handles[h].v)
  {
  }

  lemma {:induction false} StaysInPlace(p: Pipe, hand: Hand, q: Pipe, h: nat)
    requires h < |p.dest| == |p.group.handles| == |q.group.handles| && q == p.(group := q.group)
    requires InPlace(p, hand, h)
    requires p.group.handles[h].Live? == q.group.handles[h].Live?
    requires !p.group.handles[h].Live? ==> p.group.handles[h].v == q.group.handles[h].v
    ensures InPlace(q, hand, h)
  {
    assert Item(q, h) == Item(p, h) && Absent(q, Item(p, h)) == Absent(p, Item(p, h));
    assert Front(q, Item(p, h)) == Front(p, Item(p, h));
  }

  /** The steps of a release leave every handle where it is. */
  lemma {:induction false} TrackKeepsInv(p: Pipe, hand: Hand, t: Tracking.Step)
    requires Inv(p, hand) && !t.Copy? && !t.Call? && Tracking.Enabled(p.group, t)
    ensures Inv(p.(group := Tracking.Next(p.group, t)), hand)
  {
    var q := p.(group := Tracking.Next(p.group, t));
    Tracking.StepKeepsInv(p.group, t);
    forall h | 0 <= h < |p.dest|
      ensures |q.group.handles| == |p.dest| && InPlace(q, hand, h)
    {
      assert InPlace(p, hand, h);
      ReleaseGoesOn(p.group, t, h);
      StaysInPlace(p, hand, q, h);
    }
    ReleaseGoesOn(p.group, t, t.h);
    SameFront(p, q);
  }

  lemma {:induction false} StepKeepsInv(sys: System, s: Step)
    requires Inv(sys.pipe, sys.hand) && Enabled(sys, s)
    ensures Inv(Next(sys, s).pipe, Next(sys, s).hand)
  {
    var p, hand := sys.pipe, sys.hand;
    match s
    case Send => FrontSteps(sys, s);
    case SendOther(_) => FrontSteps(sys, s);
    case Take => FrontSteps(sys, s);
    case PickUp =>
      if p.fan.i == |p.outs| - 1 {
        HandLast(p);
      } else if p.fan.m.Plain? {
        HandPlain(p);
      } else {
        HandCopy(p);
      }
    case Put(selected) =>
      if selected {
        DepositKeepsInv(p, hand.item, hand.o);
      } else {
        FilterKeepsInv(p, hand.item, hand.o);
      }
    case Flush(o, size) => FlushKeepsInv(p, hand, o, Op.Batch(size));
    case Written(o) => FlushKeepsInv(p, hand, o, Op.Accept);
    case Failed(o) => FlushKeepsInv(p, hand, o, Op.Reject);
    case Track(t) => TrackKeepsInv(p, hand, t);
  }

  lemma {:induction false} InvInitial(n: nat, caps: seq<nat>)
    requires |caps| >= 1
    ensures Inv(Initial(n, caps), Free)
  {
    var p := Initial(n, caps);
    Tracking.InvInitial(n);
    forall m: Metric
      ensures Front(p, m) == if m.Tracked? && m.handle < n && m.origin == m.handle then 1 else 0
    {
      InitialFront(n, m);
    }
    forall h | 0 <= h < |p.dest|
      ensures InPlace(p, Free, h)
    {
      assert Item(p, h) == Tracked(h, h);
      assert Absent(p, Item(p, h));
    }
  }

  lemma {:induction false} InitialFront(n: nat, m: Metric)
    ensures multiset(seq(n, i requires 0 <= i < n => Tracked(i, i)))[m]
            == if m.Tracked? && m.handle < n && m.origin == m.handle then 1 else 0
  {
    if n > 0 {
      InitialFront(n - 1, m);
      assert seq(n, i requires 0 <= i < n => Tracked(i, i))
             == seq(n - 1, i requires 0 <= i < n - 1 => Tracked(i, i)) + [Tracked(n - 1, n - 1)];
    }
  }
}
