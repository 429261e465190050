/** The reference count of a tracked metric group (metric/tracking.go), as a step relation in which
    every atomic operation and every read of a counter is a step of its own, so that a run is any
    interleaving of the goroutines that hold handles. */
module Tracking {
  import opened Metrics

  datatype Verdict = Accept | Reject | Drop

  /** How far a handle has come. */
  datatype Phase =
    | Live                                 // held by some goroutine, channel or buffer
    | Called(v: Verdict)                   // Accept, Reject or Drop has been called
    | Counted(v: Verdict)                  // acceptCount or rejectCount has been increased
    | AtZero(v: Verdict)                   // its decrement brought rc to zero, notify is next
    | Reading(v: Verdict, accepted: int)   // notify has read acceptCount
    | Done(v: Verdict)

  datatype Info = Info(accepted: int, rejected: int)

  predicate Delivered(i: Info) {
    i.rejected == 0
  }

  /** The shared counters, the handles made so far, and the notifications sent. */
  datatype Group = Group(handles: seq<Phase>, rc: int, acceptCount: int, rejectCount: int,
                         notes: seq<Info>, panicked: bool)

  datatype Step =
    | Copy(h: nat)
    | Call(h: nat, v: Verdict)
    | Count(h: nat)
    | Decr(h: nat)
    | ReadAccepted(h: nat)
    | Notify(h: nat)

  /** A new group of `n` handles; an empty group is notified at once. */
  function Initial(n: nat): Group {
    Group(seq(n, _ => Live), n, 0, 0, if n == 0 then [Info(0, 0)] else [], false)
  }

  /** Copies come only from live handles and each handle is released once. */
  predicate Enabled(g: Group, s: Step) {
    && s.h < |g.handles|
    && match s
       case Copy(h) => g.handles[h].Live?
       case Call(h, v) => g.handles[h].Live?
       case Count(h) => g.handles[h].Called? && g.handles[h].v != Drop
       case Decr(h) => g.handles[h].Counted? || g.handles[h] == Called(Drop)
       case ReadAccepted(h) => g.handles[h].AtZero?
       case Notify(h) => g.handles[h].Reading?
  }

  function Next(g: Group, s: Step): Group
    requires Enabled(g, s)
  {
    match s
    case Copy(h) => g.(handles := g.handles + [Live], rc := g.rc + 1)
    case Call(h, v) => g.(handles := g.handles[h := Called(v)])
    case Count(h) =>
      var v := g.handles[h].v;
      g.(handles := g.handles[h := Counted(v)],
         acceptCount := g.acceptCount + (if v == Accept then 1 else 0),
         rejectCount := g.rejectCount + (if v == Reject then 1 else 0))
    case Decr(h) =>
      var v := g.handles[h].v;
      var rc := g.rc - 1;
      g.(handles := g.handles[h := if rc == 0 then AtZero(v) else Done(v)], rc := rc,
         panicked := g.panicked || rc < 0)
    case ReadAccepted(h) => g.(handles := g.handles[h := Reading(g.handles[h].v, g.acceptCount)])
    case Notify(h) =>
      g.(handles := g.handles[h := Done(g.handles[h].v)],
         notes := g.notes + [Info(g.handles[h].accepted, g.rejectCount)])
  }

  // Counting handles.

  function CountIf(s: seq<Phase>, p: Phase -> bool): nat {
    if s == [] then 0 else CountIf(s[..|s| - 1], p) + if p(s[|s| - 1]) then 1 else 0
  }

  lemma {:induction false} CountUpdate(s: seq<Phase>, i: nat, x: Phase, p: Phase -> bool)
    requires i < |s|
    ensures CountIf(s[i := x], p) == CountIf(s, p) - (if p(s[i]) then 1 else 0) + (if p(x) then 1 else 0)
  {
    var n := |s| - 1;
    if i == n {
      assert s[i := x][..n] == s[..n];
    } else {
      assert s[i := x][..n] == s[..n][i := x];
      CountUpdate(s[..n], i, x, p);
    }
  }

  lemma CountSnoc(s: seq<Phase>, x: Phase, p: Phase -> bool)
    ensures CountIf(s + [x], p) == CountIf(s, p) + if p(x) then 1 else 0
  {
    assert (s + [x])[..|s|] == s;
  }

  lemma {:induction false} CountBounds(s: seq<Phase>, i: nat, p: Phase -> bool)
    requires i < |s| && p(s[i])
    ensures CountIf(s, p) >= 1
  {
    if i < |s| - 1 {
      CountBounds(s[..|s| - 1], i, p);
    }
  }

  lemma {:induction false} CountNone(s: seq<Phase>, p: Phase -> bool)
    requires forall i :: 0 <= i < |s| ==> !p(s[i])
    ensures CountIf(s, p) == 0
  {
    if s != [] {
      CountNone(s[..|s| - 1], p);
    }
  }

  lemma {:induction false} CountAll(n: nat, x: Phase, p: Phase -> bool)
    ensures CountIf(seq(n, _ => x), p) == if p(x) then n else 0
  {
    if n > 0 {
      assert seq(n, _ => x)[..n - 1] == seq(n - 1, _ => x);
      CountAll(n - 1, x, p);
    }
  }

  /** A handle that still counts in rc. */
  predicate Holding(p: Phase) {
    p.Live? || p.Called? || p.Counted?
  }

  /** A handle whose decrement reached zero and whose notification is still to come. */
  predicate Notifying(p: Phase) {
    p.AtZero? || p.Reading?
  }

  /** A handle whose release has been counted as `v`. */
  predicate Settled(p: Phase, v: Verdict) {
    !p.Live? && !p.Called? && p.v == v
  }

  predicate SettledAccept(p: Phase) { Settled(p, Accept) }
  predicate SettledReject(p: Phase) { Settled(p, Reject) }

  /** What every interleaving keeps. */
  ghost predicate Inv(g: Group) {
    && !g.panicked
    && g.rc == CountIf(g.handles, Holding)
    && g.acceptCount == CountIf(g.handles, SettledAccept)
    && g.rejectCount == CountIf(g.handles, SettledReject)
    && CountIf(g.handles, Notifying) + |g.notes| == (if g.rc == 0 then 1 else 0)
    && (g.notes != [] ==> g.notes == [Info(g.acceptCount, g.rejectCount)])
    && (forall h :: 0 <= h < |g.handles| && g.handles[h].Reading? ==> g.handles[h].accepted == g.acceptCount)
  }

  lemma InvInitial(n: nat)
    ensures Inv(Initial(n))
  {
    CountAll(n, Live, Holding);
    CountAll(n, Live, SettledAccept);
    CountAll(n, Live, SettledReject);
    CountAll(n, Live, Notifying);
  }

  lemma CountsAfter(s: seq<Phase>, h: nat, x: Phase)
    requires h < |s|
    ensures CountIf(s[h := x], Holding) == CountIf(s, Holding) - (if Holding(s[h]) then 1 else 0)
              + (if Holding(x) then 1 else 0)
    ensures CountIf(s[h := x], Notifying) == CountIf(s, Notifying) - (if Notifying(s[h]) then 1 else 0)
              + (if Notifying(x) then 1 else 0)
    ensures CountIf(s[h := x], SettledAccept) == CountIf(s, SettledAccept) - (if SettledAccept(s[h]) then 1 else 0)
              + (if SettledAccept(x) then 1 else 0)
    ensures CountIf(s[h := x], SettledReject) == CountIf(s, SettledReject) - (if SettledReject(s[h]) then 1 else 0)
              + (if SettledReject(x) then 1 else 0)
  {
    CountUpdate(s, h, x, Holding);
    CountUpdate(s, h, x, Notifying);
    CountUpdate(s, h, x, SettledAccept);
    CountUpdate(s, h, x, SettledReject);
  }

  /** While a handle is unreleased, rc is positive and nobody is about to notify. */
  lemma HoldingMeansPositive(g: Group, h: nat)
    requires Inv(g) && h < |g.handles| && Holding(g.handles[h])
    ensures g.rc >= 1 && g.notes == [] && forall k :: 0 <= k < |g.handles| ==> !Notifying(g.handles[k])
  {
    CountBounds(g.handles, h, Holding);
    forall k | 0 <= k < |g.handles|
      ensures !Notifying(g.handles[k])
    {
      if Notifying(g.handles[k]) {
        CountBounds(g.handles, k, Notifying);
      }
    }
  }

  /** A handle that is notifying is the only one, everybody else is done. */
  lemma NotifyingIsLast(g: Group, h: nat)
    requires Inv(g) && h < |g.handles| && Notifying(g.handles[h])
    ensures g.rc == 0 && g.notes == [] && CountIf(g.handles, Notifying) == 1
  {
    CountBounds(g.handles, h, Notifying);
  }

  lemma DecrKeepsInv(g: Group, h: nat)
    requires Inv(g) && Enabled(g, Decr(h))
    ensures Inv(Next(g, Decr(h)))
  {
    HoldingMeansPositive(g, h);
    CountsAfter(g.handles, h, Next(g, Decr(h)).handles[h]);
  }

  lemma NotifyKeepsInv(g: Group, s: Step)
    requires Inv(g) && Enabled(g, s) && (s.ReadAccepted? || s.Notify?)
    ensures Inv(Next(g, s))
  {
    NotifyingIsLast(g, s.h);
    CountsAfter(g.handles, s.h, Next(g, s).handles[s.h]);
  }

  lemma StepKeepsInv(g: Group, s: Step)
    requires Inv(g) && Enabled(g, s)
    ensures Inv(Next(g, s))
  {
    match s
    case Copy(h) =>
      HoldingMeansPositive(g, h);
      CountSnoc(g.handles, Live, Holding);
      CountSnoc(g.handles, Live, Notifying);
      CountSnoc(g.handles, Live, SettledAccept);
      CountSnoc(g.handles, Live, SettledReject);
    case Call(h, v) =>
      HoldingMeansPositive(g, h);
      CountsAfter(g.handles, h, Called(v));
    case Count(h) =>
      HoldingMeansPositive(g, h);
      CountsAfter(g.handles, h, Counted(g.handles[h].v));
    case Decr(h) =>
      DecrKeepsInv(g, h);
    case ReadAccepted(h) =>
      NotifyKeepsInv(g, s);
    case Notify(h) =>
      NotifyKeepsInv(g, s);
  }

  // Whole runs.

  /** The steps can be taken one after the other, in this order, from a new group of `n` handles, and lead to `g`. */
  ghost predicate LeadsTo(n: nat, steps: seq<Step>, g: Group) {
    if steps == [] then g == Initial(n)
    else
      var before, s := steps[..|steps| - 1], steps[|steps| - 1];
      exists b: Group :: LeadsTo(n, before, b) && Enabled(b, s) && g == Next(b, s)
  }

  lemma {:induction false} EveryRunKeepsInv(n: nat, steps: seq<Step>, g: Group)
    requires LeadsTo(n, steps, g)
    ensures Inv(g)
  {
    if steps == [] {
      InvInitial(n);
    } else {
      var before, s := steps[..|steps| - 1], steps[|steps| - 1];
      var b: Group :| LeadsTo(n, before, b) && Enabled(b, s) && g == Next(b, s);
      EveryRunKeepsInv(n, before, b);
      StepKeepsInv(b, s);
    }
  }

  // What the steps of a run say by themselves.

  /** How many handles the steps have made. */
  function Copies(steps: seq<Step>): nat {
    if steps == [] then 0 else Copies(steps[..|steps| - 1]) + if steps[|steps| - 1].Copy? then 1 else 0
  }

  function Decrements(steps: seq<Step>): nat {
    if steps == [] then 0 else Decrements(steps[..|steps| - 1]) + if steps[|steps| - 1].Decr? then 1 else 0
  }

  /** How often `v` was called. */
  function Calls(steps: seq<Step>, v: Verdict): nat {
    if steps == [] then 0
    else Calls(steps[..|steps| - 1], v) + if steps[|steps| - 1].Call? && steps[|steps| - 1].v == v then 1 else 0
  }

  predicate CalledAccept(p: Phase) { !p.Live? && p.v == Accept }
  predicate CalledReject(p: Phase) { !p.Live? && p.v == Reject }

  /** The handles are those of the group and their copies, and have been called as the steps say. */
  ghost predicate Tallied(n: nat, steps: seq<Step>, g: Group) {
    && |g.handles| == n + Copies(steps)
    && g.rc == n + Copies(steps) - Decrements(steps)
    && CountIf(g.handles, CalledAccept) == Calls(steps, Accept)
    && CountIf(g.handles, CalledReject) == Calls(steps, Reject)
    && CalledAsSaid(steps, g.handles)
  }

  ghost predicate CalledAsSaid(steps: seq<Step>, hs: seq<Phase>) {
    forall h: nat, v: Verdict :: Call(h, v) in steps <==> h < |hs| && !hs[h].Live? && hs[h].v == v
  }

  lemma {:induction false} StepKeepsCalls(steps: seq<Step>, b: Group, s: Step)
    requires CalledAsSaid(steps, b.handles) && Enabled(b, s)
    ensures CalledAsSaid(steps + [s], Next(b, s).handles)
  {
  }

  lemma {:induction false} StepKeepsTally(n: nat, steps: seq<Step>, b: Group, s: Step)
    requires steps != [] && Tallied(n, steps[..|steps| - 1], b) && s == steps[|steps| - 1] && Enabled(b, s)
    ensures Tallied(n, steps, Next(b, s))
  {
    var g := Next(b, s);
    if s.Copy? {
      CountSnoc(b.handles, Live, CalledAccept);
      CountSnoc(b.handles, Live, CalledReject);
    } else {
      CountUpdate(b.handles, s.h, g.handles[s.h], CalledAccept);
      CountUpdate(b.handles, s.h, g.handles[s.h], CalledReject);
    }
    StepKeepsCalls(steps[..|steps| - 1], b, s);
    assert steps == steps[..|steps| - 1] + [s];
  }

  lemma {:induction false} EveryRunIsTallied(n: nat, steps: seq<Step>, g: Group)
    requires LeadsTo(n, steps, g)
    ensures Tallied(n, steps, g)
  {
    if steps == [] {
      CountAll(n, Live, CalledAccept);
      CountAll(n, Live, CalledReject);
    } else {
      var before, s := steps[..|steps| - 1], steps[|steps| - 1];
      var b: Group :| LeadsTo(n, before, b) && Enabled(b, s) && g == Next(b, s);
      EveryRunIsTallied(n, before, b);
      StepKeepsTally(n, steps, b, s);
    }
  }

  /** Once a notification is out nothing can happen any more, and it carried the final counts. */
  lemma NotifiedIsFinal(g: Group)
    requires Inv(g) && g.notes != []
    ensures g.notes == [Info(CountIf(g.handles, SettledAccept), CountIf(g.handles, SettledReject))]
    ensures forall h :: 0 <= h < |g.handles| ==> g.handles[h].Done?
    ensures forall s: Step :: !Enabled(g, s)
  {
    forall h | 0 <= h < |g.handles|
      ensures g.handles[h].Done?
    {
      if Holding(g.handles[h]) {
        HoldingMeansPositive(g, h);
      } else if Notifying(g.handles[h]) {
        NotifyingIsLast(g, h);
      }
    }
  }

  lemma DeliveredMeansNoReject(g: Group)
    requires Inv(g) && g.notes != []
    ensures Delivered(g.notes[0]) <==> forall h :: 0 <= h < |g.handles| ==> g.handles[h] != Done(Reject)
  {
    NotifiedIsFinal(g);
    if forall h :: 0 <= h < |g.handles| ==> g.handles[h] != Done(Reject) {
      CountNone(g.handles, SettledReject);
    } else {
      var h :| 0 <= h < |g.handles| && g.handles[h] == Done(Reject);
      CountBounds(g.handles, h, SettledReject);
    }
  }

  /** When every handle is done the notification has been sent. */
  lemma AllDoneIsNotified(g: Group)
    requires Inv(g) && forall h :: 0 <= h < |g.handles| ==> g.handles[h].Done?
    ensures |g.notes| == 1
  {
    CountNone(g.handles, Holding);
    CountNone(g.handles, Notifying);
  }

  lemma {:induction false} CountSame(s: seq<Phase>, p: Phase -> bool, q: Phase -> bool)
    requires forall i :: 0 <= i < |s| ==> p(s[i]) == q(s[i])
    ensures CountIf(s, p) == CountIf(s, q)
  {
    if s != [] {
      CountSame(s[..|s| - 1], p, q);
    }
  }

  lemma {:induction false} FailureMeansRejectCall(n: nat, steps: seq<Step>, g: Group)
    requires Inv(g) && Tallied(n, steps, g) && g.notes != []
    ensures Delivered(g.notes[0]) <==> forall h :: Call(h, Reject) !in steps
  {
    NotifiedIsFinal(g);
    DeliveredMeansNoReject(g);
    if !Delivered(g.notes[0]) {
      var h: nat :| h < |g.handles| && g.handles[h] == Done(Reject);
      assert Call(h, Reject) in steps;
    }
  }

  /** In every interleaving: rc is the number of handles made less the number of decrements, which is the number of
      unreleased handles, the notification is sent exactly when all handles are done, at most once, with the numbers
      of Accept and Reject calls, and it reports delivery exactly when Reject was never called. */
  lemma {:induction false} NotifiedExactlyOnce(n: nat, steps: seq<Step>, g: Group)
    requires LeadsTo(n, steps, g)
    ensures !g.panicked && g.rc == CountIf(g.handles, Holding) == n + Copies(steps) - Decrements(steps)
    ensures |g.notes| == if forall h :: 0 <= h < |g.handles| ==> g.handles[h].Done? then 1 else 0
    ensures g.notes != [] ==>
              && g.notes[0] == Info(Calls(steps, Accept), Calls(steps, Reject))
              && (Delivered(g.notes[0]) <==> forall h :: Call(h, Reject) !in steps)
  {
    EveryRunKeepsInv(n, steps, g);
    EveryRunIsTallied(n, steps, g);
    if forall h :: 0 <= h < |g.handles| ==> g.handles[h].Done? {
      AllDoneIsNotified(g);
    }
    if g.notes != [] {
      NotifiedIsFinal(g);
      CountSame(g.handles, SettledAccept, CalledAccept);
      CountSame(g.handles, SettledReject, CalledReject);
      FailureMeansRejectCall(n, steps, g);
    }
  }

  /** Once the notification is out, every handle of the group and every copy has been released by exactly one call. */
  lemma {:induction false} ReleasedByItsCall(n: nat, steps: seq<Step>, g: Group, h: nat)
    requires LeadsTo(n, steps, g) && h < n + Copies(steps) && g.notes != []
    ensures exists v :: Call(h, v) in steps && forall v' :: Call(h, v') in steps ==> v' == v
  {
    EveryRunKeepsInv(n, steps, g);
    EveryRunIsTallied(n, steps, g);
    NotifiedIsFinal(g);
    assert Call(h, g.handles[h].v) in steps;
  }

  /** Wraps every metric of the group in a handle and counts it. */
  method NewTrackingMetricGroup(group: seq<Metric>) returns (tracked: seq<Metric>, d: Group)
    ensures d == Initial(|group|)
    ensures |tracked| == |group| && forall i :: 0 <= i < |group| ==> tracked[i] == Tracked(i, i)
  {
    d := Group([], 0, 0, 0, [], false);
    tracked := group;
    for i := 0 to |group|
      invariant d == Group(seq(i, _ => Live), i, 0, 0, [], false)
      invariant |tracked| == |group| && forall k :: 0 <= k < i ==> tracked[k] == Tracked(k, k)
    {
      d := d.(rc := d.rc + 1, handles := d.handles + [Live]);
      tracked := tracked[i := Tracked(i, i)];
      assert d.handles == seq(i + 1, _ => Live);
    }
    if |group| == 0 {
      d := d.(notes := d.notes + [Info(d.acceptCount, d.rejectCount)]);
    }
  }
}
