/** The ticker that fires at multiples of its interval (agent/tick.go). */
module Ticker {
  import opened Times

  function MinInterval(interval: nat): nat {
    interval / 100
  }

  /** The time the next tick is meant for: the delay that `next` computes, before its jitter. */
  function Nominal(interval: nat, now: int): int
    requires interval >= 1
  {
    var d := AlignTime(now + MinInterval(interval), interval) - now;
    now + if d == 0 then interval else d
  }

  /** An offset from the nominal time at which a tick may fire without disturbing the next one. */
  predicate Tolerated(interval: nat, e: int)
    requires interval >= 1
  {
    var m: int := MinInterval(interval);
    if m >= 1 then -m < e <= interval - m else 0 <= e < interval
  }

  /** Nominal times are multiples of the interval, and the delay without jitter is never exceptionally short. */
  lemma DelayBounds(interval: nat, now: int)
    requires interval >= 1
    ensures Nominal(interval, now) % interval == 0
    ensures var d := Nominal(interval, now) - now;
            var m := MinInterval(interval);
            && 100 * m <= interval < 100 * m + 100
            && 1 <= d && if m >= 1 then m <= d < interval + m else d <= interval
  {
    var m := MinInterval(interval);
    var a := AlignTime(now + m, interval);
    AlignIsFirstMultiple(now + m, interval, a);
    NextMultiple(a, 1, interval);
  }

  /** The tick after the one meant for `s` is meant for s + interval exactly if the earlier one fires at a
      tolerated offset. */
  lemma NextTick(interval: nat, s: int, e: int)
    requires interval >= 1 && s % interval == 0
    ensures Nominal(interval, s + e) == s + interval <==> Tolerated(interval, e)
  {
    var m := MinInterval(interval);
    NextMultiple(s, 1, interval);
    AlignIsFirstMultiple(s + e + m, interval, s + interval);
    AlignIsFirstMultiple(s + e + m, interval, s + e);
    if m == 0 && AlignTime(s + e + m, interval) == s + e {
      MultipleOffset(interval, s, e);
    }
  }

  lemma MultipleOffset(interval: nat, s: int, e: int)
    requires interval >= 1 && s % interval == 0 && (s + e) % interval == 0
    ensures 0 <= e < interval ==> e == 0
  {
    if 0 <= e < interval {
      MultiplesApart(s + e, s, interval);
    }
  }

  // A whole run of the ticker.

  /** One firing of the timer: the jitter drawn when it was set, how late (or early) it fires, and whether the
      consumer has emptied the channel since the firing before. */
  datatype Firing = Firing(draw: nat, late: int, taken: bool)

  /** When the timer fires for the last of `fs`, having been set up at `start`. */
  function Now(interval: nat, start: int, fs: seq<Firing>): int
    requires interval >= 1
  {
    if fs == [] then start
    else
      var f := fs[|fs| - 1];
      Nominal(interval, Now(interval, start, fs[..|fs| - 1])) + f.draw + f.late
  }

  /** The nominal time of tick number `k` (counting from zero). */
  function Tick(interval: nat, start: int, fs: seq<Firing>, k: nat): int
    requires interval >= 1 && k <= |fs|
  {
    Nominal(interval, Now(interval, start, fs[..k]))
  }

  ghost predicate AllTolerated(interval: nat, fs: seq<Firing>)
    requires interval >= 1
  {
    forall k :: 0 <= k < |fs| ==> Tolerated(interval, fs[k].draw + fs[k].late)
  }

  /** The nominal times are consecutive multiples of the interval. */
  ghost predicate NoDrift(interval: nat, start: int, fs: seq<Firing>)
    requires interval >= 1
  {
    forall k :: 0 <= k <= |fs| ==>
      Tick(interval, start, fs, k) == Tick(interval, start, fs, 0) + k * interval
  }

  /** Equal steps lead to consecutive multiples. */
  lemma {:induction false} EqualSteps(ticks: seq<int>, d: int, k: nat)
    requires k < |ticks| && forall j :: 0 <= j < k ==> ticks[j + 1] == ticks[j] + d
    ensures ticks[k] == ticks[0] + k * d
  {
    if k > 0 {
      EqualSteps(ticks, d, k - 1);
      assert ticks[k - 1 + 1] == ticks[k - 1] + d;
    }
  }

  /** The next tick is one interval later exactly if firing `k` is tolerated. */
  lemma {:induction false} OneTick(interval: nat, start: int, fs: seq<Firing>, k: nat)
    requires interval >= 1 && k < |fs|
    ensures Tick(interval, start, fs, k + 1) == Tick(interval, start, fs, k) + interval
            <==> Tolerated(interval, fs[k].draw + fs[k].late)
  {
    DelayBounds(interval, Now(interval, start, fs[..k]));
    NextTick(interval, Tick(interval, start, fs, k), fs[k].draw + fs[k].late);
    assert fs[..k + 1][..k] == fs[..k];
  }

  lemma {:induction false} ToleratedMeansNoDrift(interval: nat, start: int, fs: seq<Firing>)
    requires interval >= 1 && AllTolerated(interval, fs)
    ensures NoDrift(interval, start, fs)
  {
    var ticks := seq(|fs| + 1, k requires 0 <= k <= |fs| => Tick(interval, start, fs, k));
    forall k | 0 <= k < |fs|
      ensures ticks[k + 1] == ticks[k] + interval
    {
      OneTick(interval, start, fs, k);
    }
    forall k | 0 <= k <= |fs|
      ensures Tick(interval, start, fs, k) == Tick(interval, start, fs, 0) + k * interval
    {
      EqualSteps(ticks, interval, k);
    }
  }

  /** A run drifts exactly if some firing is off by more than is tolerated. */
  lemma {:induction false} RunNeverDrifts(interval: nat, start: int, fs: seq<Firing>)
    requires interval >= 1
    ensures Tick(interval, start, fs, 0) % interval == 0
    ensures NoDrift(interval, start, fs) <==> AllTolerated(interval, fs)
  {
    DelayBounds(interval, Now(interval, start, fs[..0]));
    if AllTolerated(interval, fs) {
      ToleratedMeansNoDrift(interval, start, fs);
    }
    if NoDrift(interval, start, fs) {
      forall k | 0 <= k < |fs|
        ensures Tolerated(interval, fs[k].draw + fs[k].late)
      {
        OneTick(interval, start, fs, k);
        assert Tick(interval, start, fs, k + 1) == Tick(interval, start, fs, 0) + (k + 1) * interval;
        assert (k + 1) * interval == k * interval + interval;
      }
    }
  }

  /** Without drift the timer fires at the consecutive multiples, each plus its own offset. */
  lemma {:induction false} TimesWithoutDrift(interval: nat, start: int, fs: seq<Firing>)
    requires interval >= 1
    ensures AllTolerated(interval, fs) ==>
              forall k :: 0 <= k < |fs| ==>
                Now(interval, start, fs[..k + 1])
                == Nominal(interval, start) + k * interval + fs[k].draw + fs[k].late
  {
    RunNeverDrifts(interval, start, fs);
    if AllTolerated(interval, fs) {
      forall k | 0 <= k < |fs|
        ensures Now(interval, start, fs[..k + 1])
                == Nominal(interval, start) + k * interval + fs[k].draw + fs[k].late
      {
        assert fs[..k + 1][..k] == fs[..k] && fs[..0] == [];
        assert Now(interval, start, fs[..k + 1]) == Tick(interval, start, fs, k) + fs[k].draw + fs[k].late;
      }
    }
  }

  /** The channel was emptied before firing `j`, and not again since. */
  predicate LastTaken(fs: seq<Firing>, j: int) {
    0 <= j < |fs| && fs[j].taken && forall k :: j < k < |fs| ==> !fs[k].taken
  }

  lemma {:induction false} LastTakenNext(fs: seq<Firing>, n: nat)
    requires n < |fs|
    ensures forall j :: LastTaken(fs[..n + 1], j) <==> if fs[n].taken then j == n else LastTaken(fs[..n], j)
  {
    forall j: int
      ensures LastTaken(fs[..n + 1], j) <==> if fs[n].taken then j == n else LastTaken(fs[..n], j)
    {
      assert forall k :: 0 <= k < n ==> fs[..n + 1][k] == fs[..n][k];
      assert fs[..n + 1][n] == fs[n];
    }
  }

  /** The channel, which was `ch0` at the start, holds the first tick since it was last emptied. */
  ghost predicate KeepsFirst(ch0: seq<int>, fs: seq<Firing>, times: seq<int>, ch: seq<int>) {
    && |times| == |fs| && |ch0| <= 1 && |ch| <= 1
    && (forall j :: LastTaken(fs, j) ==> ch == [times[j]])
    && ((forall k :: 0 <= k < |fs| ==> !fs[k].taken) ==> ch == if ch0 == [] && |fs| > 0 then [times[0]] else ch0)
  }

  lemma {:induction false} KeepsFirstNext(ch0: seq<int>, fs: seq<Firing>, times: seq<int>, ch: seq<int>, now: int)
    requires |times| < |fs| && KeepsFirst(ch0, fs[..|times|], times, ch)
    ensures KeepsFirst(ch0, fs[..|times| + 1], times + [now], if fs[|times|].taken || ch == [] then [now] else ch)
  {
    var n := |times|;
    LastTakenNext(fs, n);
    if forall k :: 0 <= k < n ==> !fs[..n][k].taken {
      assert ch == if ch0 == [] && n > 0 then [times[0]] else ch0;
      assert n > 0 ==> times[0] == (times + [now])[0];
    } else {
      var k :| 0 <= k < n && fs[..n][k].taken;
      assert fs[..n + 1][k].taken;
      NonEmptyOnceTaken(ch0, fs[..n], times, ch, k);
    }
  }

  lemma {:induction false} NonEmptyOnceTaken(ch0: seq<int>, fs: seq<Firing>, times: seq<int>, ch: seq<int>, k: nat)
    requires KeepsFirst(ch0, fs, times, ch) && k < |fs| && fs[k].taken
    ensures ch != []
    decreases |fs| - k
  {
    if LastTaken(fs, k) {
      assert ch == [times[k]];
    } else {
      var j :| k < j < |fs| && fs[j].taken;
      NonEmptyOnceTaken(ch0, fs, times, ch, j);
    }
  }

  class AlignedTicker {
    const interval: nat
    const jitter: nat
    const minInterval: nat
    var ch: seq<int>        // a channel that holds at most one tick

    ghost predicate Valid()
      reads this
    {
      interval >= 1 && minInterval == MinInterval(interval) && |ch| <= 1
    }

    constructor (interval: nat, jitter: nat)
      requires interval >= 1
      ensures Valid() && this.interval == interval && this.jitter == jitter && ch == []
    {
      this.interval, this.jitter, this.minInterval := interval, jitter, interval / 100;
      ch := [];
    }

    /** The delay until the next tick; `draw` is what the random generator gives. */
    method Next(now: int, draw: nat) returns (d: int)
      requires Valid() && Drawn(jitter, draw)
      ensures now + d == Nominal(interval, now) + draw
      ensures d >= 1
      ensures minInterval >= 1 ==> minInterval <= d < interval + minInterval + if jitter == 0 then 1 else jitter
    {
      DelayBounds(interval, now);
      var next := now + minInterval;
      next := AlignTime(next, interval);
      d := next - now;
      if d == 0 {
        d := interval;
      }
      d := d + draw;
    }

    /** The timer fires as told by `fs`. The channel keeps the first tick since it was last emptied, and the
        ticks that find it full are dropped. */
    method Run(start: int, fs: seq<Firing>) returns (times: seq<int>)
      requires Valid()
      requires forall k :: 0 <= k < |fs| ==> Drawn(jitter, fs[k].draw)
      modifies this
      ensures Valid() && |times| == |fs|
      ensures forall k :: 0 <= k < |fs| ==> times[k] == Now(interval, start, fs[..k + 1])
      ensures forall j :: LastTaken(fs, j) ==> ch == [times[j]]
      ensures (forall k :: 0 <= k < |fs| ==> !fs[k].taken) ==>
                ch == if old(ch) == [] && |fs| > 0 then [times[0]] else old(ch)
      ensures AllTolerated(interval, fs) ==>
                forall k :: 0 <= k < |fs| ==>
                  times[k] == Nominal(interval, start) + k * interval + fs[k].draw + fs[k].late
    {
      times := [];
      var now := start;
      while |times| < |fs|
        invariant Valid() && |times| <= |fs|
        invariant now == Now(interval, start, fs[..|times|])
        invariant forall k :: 0 <= k < |times| ==> times[k] == Now(interval, start, fs[..k + 1])
        invariant KeepsFirst(old(ch), fs[..|times|], times, ch)
      {
        ghost var n, was := |times|, ch;
        var f := fs[|times|];
        if f.taken {
          ch := [];
        }
        var d := Next(now, f.draw);
        assert fs[..n + 1][..n] == fs[..n];
        now := now + d + f.late;
        KeepsFirstNext(old(ch), fs, times, was, now);
        times := times + [now];
        if ch == [] {
          ch := [now];
        }
      }
      assert fs[..|fs|] == fs;
      TimesWithoutDrift(interval, start, fs);
    }
  }
}
