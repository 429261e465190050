/** Aggregation windows: the first window and the pushing of aggregators (agent/agent.go), and the
    wrapper that admits metrics into the current window (models/running_aggregator.go). */
module Windows {
  import opened Times

  /** The first aggregation window. */
  function FirstWindow(start: int, roundInterval: bool, period: nat): (r: (int, int))
    requires period >= 1
    ensures r.0 <= start < r.1 && r.1 - r.0 == period
    ensures roundInterval ==> r.0 % period == 0
    ensures !roundInterval ==> r.0 == start
  {
    AlignIsFirstMultiple(start, period, AlignTime(start, period));
    AlignIsFirstMultiple(start + 1, period, AlignTime(start + 1, period));
    var aligned := AlignTime(start, period);
    var until :=
      if !roundInterval then start + period
      else if aligned == start then AlignTime(start + 1, period)
      else aligned;
    NextMultiple(AlignTime(start, period), -1, period);
    NextMultiple(AlignTime(start + 1, period), -1, period);
    (until - period, until)
  }

  /** A metric, as far as aggregation windows are concerned. */
  datatype Sample = Sample(id: nat, time: int)

  /** An aggregator's configuration. Its filter is given by what it does: the ids of the metrics that it
      selects, and of those of which it leaves some field. */
  datatype Config = Config(period: nat, grace: nat, delay: nat, dropOriginal: bool,
                           selected: set<nat>, nonEmpty: set<nat>)

  /** What happens to an aggregator plugin, and the metrics it is not given. */
  datatype Event = Added(s: Sample) | Skipped(s: Sample) | Pushed | Cleared

  /** A running aggregator: its window and its history. */
  datatype Agg = Agg(periodStart: int, periodEnd: int, log: seq<Event>)

  predicate Wants(c: Config, s: Sample) {
    s.id in c.selected && s.id in c.nonEmpty
  }

  predicate InWindow(c: Config, start: int, end: int, t: int) {
    start - c.grace <= t <= end + c.delay
  }

  function Offer(c: Config, a: Agg, s: Sample): Agg {
    a.(log := a.log + [if Wants(c, s) && InWindow(c, a.periodStart, a.periodEnd, s.time) then Added(s) else Skipped(s)])
  }

  function Push(c: Config, a: Agg): Agg {
    Agg(a.periodEnd, a.periodEnd + c.period, a.log + [Pushed, Cleared])
  }

  class RunningAggregator {
    const config: Config
    var periodStart: int
    var periodEnd: int
    var plugin: seq<Event>       // the calls the plugin has received
    ghost var log: seq<Event>    // the same, and the metrics it was not given

    ghost function Value(): Agg
      reads this
    {
      Agg(periodStart, periodEnd, log)
    }

    ghost predicate Valid()
      reads this
    {
      plugin == Calls(log)
    }

    constructor (config: Config)
      ensures Valid() && this.config == config && log == []
    {
      this.config := config;
      periodStart, periodEnd := 0, 0;
      plugin, log := [], [];
    }

    method UpdateWindow(start: int, until: int)
      requires Valid()
      modifies this
      ensures Valid() && Value() == Agg(start, until, old(log))
    {
      periodStart, periodEnd := start, until;
    }

    /** Offer a metric; tells whether the original is to be dropped. */
    method Add(s: Sample) returns (drop: bool)
      requires Valid()
      modifies this
      ensures Valid() && Value() == Offer(config, old(Value()), s)
      ensures drop == (s.id in config.selected && config.dropOriginal)
    {
      CallsSnoc(log, Skipped(s));
      CallsSnoc(log, Added(s));
      if s.id !in config.selected {
        log := log + [Skipped(s)];
        return false;
      }
      if s.id !in config.nonEmpty {
        log := log + [Skipped(s)];
        return config.dropOriginal;
      }
      if s.time < periodStart - config.grace || s.time > periodEnd + config.delay {
        log := log + [Skipped(s)];
        return config.dropOriginal;
      }
      plugin := plugin + [Added(s)];
      log := log + [Added(s)];
      return config.dropOriginal;
    }

    method PushNow()
      requires Valid()
      modifies this
      ensures Valid() && Value() == Push(config, old(Value()))
    {
      CallsSnoc(log, Pushed);
      CallsSnoc(log + [Pushed], Cleared);
      var since := periodEnd;
      var until := periodEnd + config.period;
      UpdateWindow(since, until);
      plugin := plugin + [Pushed];
      plugin := plugin + [Cleared];
      log := log + [Pushed] + [Cleared];
      assert log == old(log) + [Pushed, Cleared];
    }
  }

  // Reading a history.

  /** The part of a history that the plugin sees. */
  function Calls(log: seq<Event>): seq<Event> {
    if log == [] then []
    else
      var e := log[|log| - 1];
      Calls(log[..|log| - 1]) + if e.Skipped? then [] else [e]
  }

  /** The metrics offered, in order. */
  function Offered(log: seq<Event>): seq<Sample> {
    if log == [] then []
    else
      var e := log[|log| - 1];
      Offered(log[..|log| - 1]) + if e.Pushed? || e.Cleared? then [] else [e.s]
  }

  function Pushes(log: seq<Event>): nat {
    if log == [] then 0
    else Pushes(log[..|log| - 1]) + if log[|log| - 1].Pushed? then 1 else 0
  }

  lemma {:induction false} CallsSnoc(log: seq<Event>, e: Event)
    ensures Calls(log + [e]) == Calls(log) + if e.Skipped? then [] else [e]
  {
    assert (log + [e])[..|log|] == log;
  }

  /** The start of window number `k`: windows are `period` wide and follow each other without gap. */
  function WindowStart(c: Config, since: int, k: nat): int {
    if k == 0 then since else WindowStart(c, since, k - 1) + c.period
  }

  /** Whether a metric offered after `k` pushes belongs to the aggregate. */
  predicate Belongs(c: Config, since: int, k: nat, s: Sample) {
    Wants(c, s) && InWindow(c, WindowStart(c, since, k), WindowStart(c, since, k + 1), s.time)
  }

  /** Whether an event after `k` pushes was decided by the window that was current then. */
  predicate Fits(c: Config, since: int, k: nat, e: Event) {
    e.Pushed? || e.Cleared? || (e.Added? <==> Belongs(c, since, k, e.s))
  }

  predicate JudgedAt(c: Config, since: int, log: seq<Event>, p: nat)
    requires p < |log|
  {
    Fits(c, since, Pushes(log[..p]), log[p])
  }

  ghost predicate Judged(c: Config, since: int, log: seq<Event>) {
    forall p :: 0 <= p < |log| ==> JudgedAt(c, since, log, p)
  }

  /** What holds of an aggregator at all times: its window is the next in a row, and every metric was
      judged by the window of its time. */
  ghost predicate InStep(c: Config, since: int, a: Agg) {
    && a.periodStart == WindowStart(c, since, Pushes(a.log))
    && a.periodEnd == WindowStart(c, since, Pushes(a.log) + 1)
    && Judged(c, since, a.log)
  }

  lemma {:induction false} JudgedSnoc(c: Config, since: int, log: seq<Event>, e: Event)
    requires Judged(c, since, log) && Fits(c, since, Pushes(log), e)
    ensures Judged(c, since, log + [e])
    ensures Pushes(log + [e]) == Pushes(log) + if e.Pushed? then 1 else 0
    ensures Offered(log + [e]) == Offered(log) + if e.Pushed? || e.Cleared? then [] else [e.s]
  {
    assert (log + [e])[..|log|] == log;
    forall p | 0 <= p < |log + [e]|
      ensures JudgedAt(c, since, log + [e], p)
    {
      if p < |log| {
        assert JudgedAt(c, since, log, p);
        assert (log + [e])[..p] == log[..p];
      }
    }
  }

  lemma {:induction false} OfferKeepsStep(c: Config, since: int, a: Agg, s: Sample)
    requires InStep(c, since, a)
    ensures InStep(c, since, Offer(c, a, s)) && Offered(Offer(c, a, s).log) == Offered(a.log) + [s]
  {
    JudgedSnoc(c, since, a.log, Offer(c, a, s).log[|a.log|]);
  }

  lemma {:induction false} PushKeepsStep(c: Config, since: int, a: Agg)
    requires InStep(c, since, a)
    ensures InStep(c, since, Push(c, a)) && Offered(Push(c, a).log) == Offered(a.log)
  {
    JudgedSnoc(c, since, a.log, Pushed);
    JudgedSnoc(c, since, a.log + [Pushed], Cleared);
    assert a.log + [Pushed, Cleared] == a.log + [Pushed] + [Cleared];
  }

  // The goroutines of runAggregators: one hands every metric to all aggregators in turn, and one for each
  // aggregator pushes it when its period has ended and once more after the last metric.

  datatype Adder = Idle | Offering(s: Sample, next: nat, drop: bool) | Ended

  datatype State = State(now: int, taken: nat, adder: Adder, aggs: seq<Agg>, final: seq<bool>,
                         forwarded: seq<Sample>, dropped: seq<Sample>)

  datatype Step =
    | Advance(delta: nat)   // time passes
    | Take                  // a metric comes from the source channel
    | OfferNext             // ... is offered to one more aggregator
    | Finish                // ... is forwarded to the outputs, or dropped
    | End                   // the source channel is closed and empty: cancel the pushing
    | Timer(i: nat)         // the period of aggregator i has ended
    | Last(i: nat)          // the last push of aggregator i

  datatype Params = Params(start: int, roundInterval: bool, configs: seq<Config>, input: seq<Sample>)

  predicate Sensible(p: Params) {
    forall i :: 0 <= i < |p.configs| ==> p.configs[i].period >= 1
  }

  function Since(p: Params, i: nat): int
    requires Sensible(p) && i < |p.configs|
  {
    FirstWindow(p.start, p.roundInterval, p.configs[i].period).0
  }

  function Sinces(p: Params): seq<int>
    requires Sensible(p)
  {
    seq(|p.configs|, i requires 0 <= i < |p.configs| => Since(p, i))
  }

  function Init(p: Params): State
    requires Sensible(p)
  {
    State(p.start, 0, Idle,
          seq(|p.configs|, i requires 0 <= i < |p.configs| =>
            var w := FirstWindow(p.start, p.roundInterval, p.configs[i].period); Agg(w.0, w.1, [])),
          seq(|p.configs|, i => false), [], [])
  }

  predicate Shaped(p: Params, s: State) {
    |s.aggs| == |s.final| == |p.configs|
  }

  predicate Enabled(p: Params, s: State, step: Step)
    requires Shaped(p, s)
  {
    match step
    case Advance(_) => true
    case Take => s.adder.Idle? && s.taken < |p.input|
    case OfferNext => s.adder.Offering? && s.adder.next < |p.configs|
    case Finish => s.adder.Offering? && s.adder.next == |p.configs|
    case End => s.adder.Idle? && s.taken >= |p.input|
    case Timer(i) => i < |p.configs| && !s.final[i] && s.now >= s.aggs[i].periodEnd
    case Last(i) => i < |p.configs| && !s.final[i] && s.adder.Ended?
  }

  function Apply(p: Params, s: State, step: Step): (t: State)
    requires Shaped(p, s) && Enabled(p, s, step)
    ensures Shaped(p, t)
  {
    match step
    case Advance(delta) => s.(now := s.now + delta)
    case Take => s.(taken := s.taken + 1, adder := Offering(p.input[s.taken], 0, false))
    case OfferNext =>
      var i, m := s.adder.next, s.adder.s;
      var c := p.configs[i];
      s.(aggs := s.aggs[i := Offer(c, s.aggs[i], m)],
         adder := Offering(m, i + 1, s.adder.drop || (m.id in c.selected && c.dropOriginal)))
    case Finish =>
      if s.adder.drop then s.(dropped := s.dropped + [s.adder.s], adder := Idle)
      else s.(forwarded := s.forwarded + [s.adder.s], adder := Idle)
    case End => s.(adder := Ended)
    case Timer(i) => s.(aggs := s.aggs[i := Push(p.configs[i], s.aggs[i])])
    case Last(i) => s.(aggs := s.aggs[i := Push(p.configs[i], s.aggs[i])], final := s.final[i := true])
  }

  /** All goroutines are done; the channel behind the aggregators is closed. */
  predicate Closed(p: Params, s: State) {
    s.adder.Ended? && forall i :: 0 <= i < |s.final| ==> s.final[i]
  }

  // What is to be dropped, by the configurations alone.

  predicate Drops(c: Config, s: Sample) {
    s.id in c.selected && c.dropOriginal
  }

  predicate SomeDrops(cs: seq<Config>, s: Sample) {
    exists i :: 0 <= i < |cs| && Drops(cs[i], s)
  }

  /** The metrics that no aggregator takes over (or, with `keep` false, the others). */
  function Part(cs: seq<Config>, xs: seq<Sample>, keep: bool): seq<Sample> {
    if xs == [] then []
    else
      var s := xs[|xs| - 1];
      Part(cs, xs[..|xs| - 1], keep) + if SomeDrops(cs, s) != keep then [s] else []
  }

  // The invariant.

  /** The metrics taken from the source that are no longer under way. */
  function Handled(p: Params, s: State): seq<Sample>
    requires s.taken <= |p.input|
  {
    if s.adder.Offering? && s.taken >= 1 then p.input[..s.taken - 1] else p.input[..s.taken]
  }

  ghost predicate Fed(p: Params, s: State, i: nat)
    requires Shaped(p, s) && i < |p.configs| && s.taken <= |p.input|
  {
    Offered(s.aggs[i].log) == if s.adder.Offering? && i < s.adder.next then p.input[..s.taken] else Handled(p, s)
  }

  /** The last thing that happened is a push, after which the plugin was reset. */
  predicate EndsWithPush(log: seq<Event>) {
    |log| >= 2 && log[|log| - 2] == Pushed && log[|log| - 1] == Cleared
  }

  /** What holds of one aggregator: its window, its last push once it is `final`, and that its window has
      begun before that. */
  ghost predicate AggCore(c: Config, since: int, a: Agg, final: bool, ended: bool, now: int) {
    && InStep(c, since, a)
    && (final ==> ended && EndsWithPush(a.log))
    && (!final ==> a.periodStart <= now)
  }

  ghost predicate AggInv(p: Params, s: State, i: nat, since: int)
    requires Shaped(p, s) && i < |p.configs| && s.taken <= |p.input|
  {
    AggCore(p.configs[i], since, s.aggs[i], s.final[i], s.adder.Ended?, s.now) && Fed(p, s, i)
  }

  /** The metric under way is the last one taken. */
  predicate AtInput(p: Params, s: State) {
    && s.taken <= |p.input|
    && (s.adder.Ended? ==> s.taken == |p.input|)
    && (s.adder.Offering? ==> s.taken >= 1 && s.adder.s == p.input[s.taken - 1] && s.adder.next <= |p.configs|)
  }

  ghost predicate AdderInv(p: Params, s: State) {
    && AtInput(p, s)
    && (s.adder.Offering? ==> s.adder.drop == SomeDrops(p.configs[..s.adder.next], s.adder.s))
    && s.forwarded == Part(p.configs, Handled(p, s), true)
    && s.dropped == Part(p.configs, Handled(p, s), false)
  }

  ghost predicate Inv(p: Params, s: State, sinces: seq<int>) {
    && Shaped(p, s)
    && |sinces| == |p.configs|
    && p.start <= s.now
    && AdderInv(p, s)
    && AggsInv(p, s, sinces)
  }

  ghost predicate AggsInv(p: Params, s: State, sinces: seq<int>)
    requires Shaped(p, s) && |sinces| == |p.configs| && s.taken <= |p.input|
  {
    forall i :: 0 <= i < |p.configs| ==> AggInv(p, s, i, sinces[i])
  }

  lemma {:induction false} InitInv(p: Params)
    requires Sensible(p)
    ensures Inv(p, Init(p), Sinces(p))
  {
    var s := Init(p);
    assert p.input[..0] == [];
    forall i | 0 <= i < |p.configs|
      ensures AggInv(p, s, i, Since(p, i))
    {
      var c := p.configs[i];
      assert s.aggs[i].log == [];
    }
  }

  lemma {:induction false} PartSnoc(cs: seq<Config>, xs: seq<Sample>, s: Sample, keep: bool)
    ensures Part(cs, xs + [s], keep) == Part(cs, xs, keep) + if SomeDrops(cs, s) != keep then [s] else []
  {
    assert (xs + [s])[..|xs|] == xs;
  }

  lemma {:induction false} SomeDropsSnoc(cs: seq<Config>, n: nat, s: Sample)
    requires n < |cs|
    ensures SomeDrops(cs[..n + 1], s) == (SomeDrops(cs[..n], s) || Drops(cs[n], s))
  {
    assert cs[..n + 1] == cs[..n] + [cs[n]];
    if SomeDrops(cs[..n], s) {
      var i :| 0 <= i < n && Drops(cs[..n][i], s);
      assert Drops(cs[..n + 1][i], s);
    }
    if Drops(cs[n], s) {
      assert Drops(cs[..n + 1][n], s);
    }
  }

  lemma {:induction false} TakeKeepsAdder(p: Params, s: State)
    requires Shaped(p, s) && AdderInv(p, s) && Enabled(p, s, Take)
    ensures AdderInv(p, Apply(p, s, Take)) && Handled(p, Apply(p, s, Take)) == Handled(p, s)
  {
    assert p.configs[..0] == [];
  }

  lemma {:induction false} FinishKeepsAdder(p: Params, s: State)
    requires Shaped(p, s) && AdderInv(p, s) && Enabled(p, s, Finish)
    ensures AdderInv(p, Apply(p, s, Finish))
  {
    var n := s.taken;
    assert p.configs[..|p.configs|] == p.configs;
    assert p.input[..n] == p.input[..n - 1] + [s.adder.s];
    PartSnoc(p.configs, p.input[..n - 1], s.adder.s, true);
    PartSnoc(p.configs, p.input[..n - 1], s.adder.s, false);
  }

  lemma {:induction false} OfferKeepsAdder(p: Params, s: State)
    requires Shaped(p, s) && AdderInv(p, s) && Enabled(p, s, OfferNext)
    ensures AdderInv(p, Apply(p, s, OfferNext))
  {
    SomeDropsSnoc(p.configs, s.adder.next, s.adder.s);
    assert Handled(p, Apply(p, s, OfferNext)) == Handled(p, s);
  }

  lemma {:induction false} SameAdder(p: Params, s: State, t: State)
    requires AdderInv(p, s) && t.taken == s.taken && t.forwarded == s.forwarded && t.dropped == s.dropped
    requires t.adder == s.adder || (s.adder.Idle? && t.adder.Ended? && s.taken == |p.input|)
    ensures AdderInv(p, t)
  {
    assert Handled(p, t) == Handled(p, s);
  }

  lemma {:induction false} AdderKeepsInv(p: Params, s: State, step: Step)
    requires Shaped(p, s) && AdderInv(p, s) && Enabled(p, s, step)
    ensures AdderInv(p, Apply(p, s, step))
  {
    match step
    case Take => TakeKeepsAdder(p, s);
    case OfferNext => OfferKeepsAdder(p, s);
    case Finish => FinishKeepsAdder(p, s);
    case _ => SameAdder(p, s, Apply(p, s, step));
  }

  lemma {:induction false} OfferCore(c: Config, since: int, a: Agg, m: Sample, ended: bool, now: int)
    requires AggCore(c, since, a, false, ended, now)
    ensures AggCore(c, since, Offer(c, a, m), false, ended, now) && Offered(Offer(c, a, m).log) == Offered(a.log) + [m]
  {
    OfferKeepsStep(c, since, a, m);
  }

  lemma {:induction false} PushCore(c: Config, since: int, a: Agg, final: bool, ended: bool, now: int)
    requires AggCore(c, since, a, false, ended, now) && (if final then ended else a.periodEnd <= now)
    ensures AggCore(c, since, Push(c, a), final, ended, now) && Offered(Push(c, a).log) == Offered(a.log)
  {
    PushKeepsStep(c, since, a);
  }

  lemma {:induction false} OfferKeepsInv(p: Params, s: State, i: nat, since: int)
    requires Shaped(p, s) && AtInput(p, s) && Enabled(p, s, OfferNext) && i < |p.configs|
    requires AggInv(p, s, i, since)
    ensures AggInv(p, Apply(p, s, OfferNext), i, since)
  {
    if i == s.adder.next {
      OfferCore(p.configs[i], since, s.aggs[i], s.adder.s, false, s.now);
      assert p.input[..s.taken] == p.input[..s.taken - 1] + [s.adder.s];
    }
  }

  lemma {:induction false} PushKeepsInv(p: Params, s: State, step: Step, i: nat, since: int)
    requires Shaped(p, s) && AtInput(p, s) && Enabled(p, s, step) && i < |p.configs|
    requires AggInv(p, s, i, since) && (step.Timer? || step.Last?)
    ensures AggInv(p, Apply(p, s, step), i, since)
  {
    if step.i == i {
      PushCore(p.configs[i], since, s.aggs[i], step.Last?, s.adder.Ended?, s.now);
    }
  }

  /** The other steps leave all aggregators alone. */
  lemma {:induction false} OtherKeepsInv(p: Params, s: State, step: Step, i: nat, since: int)
    requires Shaped(p, s) && AtInput(p, s) && Enabled(p, s, step) && i < |p.configs|
    requires AggInv(p, s, i, since) && !step.OfferNext? && !step.Timer? && !step.Last?
    ensures AtInput(p, Apply(p, s, step)) && AggInv(p, Apply(p, s, step), i, since)
  {
    var t := Apply(p, s, step);
    assert t.aggs[i] == s.aggs[i] && t.final[i] == s.final[i];
    assert Fed(p, t, i);
  }

  lemma {:induction false} AggKeepsInv(p: Params, s: State, step: Step, i: nat, since: int)
    requires Shaped(p, s) && AtInput(p, s) && Enabled(p, s, step) && i < |p.configs| && AggInv(p, s, i, since)
    requires AtInput(p, Apply(p, s, step))
    ensures AggInv(p, Apply(p, s, step), i, since)
  {
    if step.OfferNext? {
      OfferKeepsInv(p, s, i, since);
    } else if step.Timer? || step.Last? {
      PushKeepsInv(p, s, step, i, since);
    } else {
      OtherKeepsInv(p, s, step, i, since);
    }
  }

  lemma {:induction false} AggsKeepInv(p: Params, s: State, step: Step, sinces: seq<int>)
    requires Shaped(p, s) && AtInput(p, s) && Enabled(p, s, step) && |sinces| == |p.configs| && AggsInv(p, s, sinces)
    requires AtInput(p, Apply(p, s, step))
    ensures AggsInv(p, Apply(p, s, step), sinces)
  {
    var t := Apply(p, s, step);
    forall i | 0 <= i < |p.configs|
      ensures AggInv(p, t, i, sinces[i])
    {
      AggKeepsInv(p, s, step, i, sinces[i]);
    }
  }

  lemma {:induction false} StepKeepsInv(p: Params, s: State, step: Step, sinces: seq<int>)
    requires Inv(p, s, sinces) && Enabled(p, s, step)
    ensures Inv(p, Apply(p, s, step), sinces)
  {
    AdderKeepsInv(p, s, step);
    AggsKeepInv(p, s, step, sinces);
  }

  // Every run.

  ghost predicate LegalRun(p: Params, s: State, steps: seq<Step>)
    requires Shaped(p, s)
    decreases |steps|
  {
    steps == [] || (Enabled(p, s, steps[0]) && LegalRun(p, Apply(p, s, steps[0]), steps[1..]))
  }

  ghost function Run(p: Params, s: State, steps: seq<Step>): State
    requires Shaped(p, s) && LegalRun(p, s, steps)
    decreases |steps|
  {
    if steps == [] then s else Run(p, Apply(p, s, steps[0]), steps[1..])
  }

  lemma {:induction false} EveryRunKeepsInv(p: Params, s: State, steps: seq<Step>, sinces: seq<int>)
    requires Inv(p, s, sinces) && LegalRun(p, s, steps)
    ensures Inv(p, Run(p, s, steps), sinces)
    decreases |steps|
  {
    if steps != [] {
      StepKeepsInv(p, s, steps[0], sinces);
      EveryRunKeepsInv(p, Apply(p, s, steps[0]), steps[1..], sinces);
    }
  }

  /** How many of the steps push aggregator `i`. */
  function PushSteps(steps: seq<Step>, i: nat): nat {
    if steps == [] then 0
    else (if (steps[0].Timer? || steps[0].Last?) && steps[0].i == i then 1 else 0) + PushSteps(steps[1..], i)
  }

  /** How much time passes during the steps. */
  function Elapsed(steps: seq<Step>): nat {
    if steps == [] then 0 else (if steps[0].Advance? then steps[0].delta else 0) + Elapsed(steps[1..])
  }

  /** A metric that comes up while the window starts at `start` is given to the plugin exactly if it is selected, has
      fields left, and is neither older than the window by more than the grace nor newer by more than the delay. */
  predicate InTime(c: Config, start: int, e: Event) {
    match e
    case Added(s) =>
      s.id in c.selected && s.id in c.nonEmpty && start - c.grace <= s.time <= start + c.period + c.delay
    case Skipped(s) =>
      s.id !in c.selected || s.id !in c.nonEmpty || s.time < start - c.grace || s.time > start + c.period + c.delay
    case _ => true
  }

  /** Each metric in the history was judged by the window that was current when it came up. */
  ghost predicate AllInTime(c: Config, since: int, log: seq<Event>) {
    forall q :: 0 <= q < |log| ==> InTime(c, since + Pushes(log[..q]) * c.period, log[q])
  }

  lemma {:induction false} StepCounts(p: Params, s: State, step: Step, i: nat)
    requires Shaped(p, s) && Enabled(p, s, step) && i < |p.configs|
    ensures var t := Apply(p, s, step);
            && Pushes(t.aggs[i].log) == Pushes(s.aggs[i].log) + PushSteps([step], i)
            && t.now == s.now + Elapsed([step])
  {
    var log := s.aggs[i].log;
    assert forall e: Event :: (log + [e])[..|log|] == log;
    assert (log + [Pushed, Cleared])[..|log| + 1] == log + [Pushed];
  }

  /** In every run an aggregator has been pushed as often as the steps say. */
  lemma {:induction false} RunCounts(p: Params, s: State, steps: seq<Step>, i: nat)
    requires Shaped(p, s) && LegalRun(p, s, steps) && i < |p.configs|
    ensures var t := Run(p, s, steps);
            && Shaped(p, t)
            && Pushes(t.aggs[i].log) == Pushes(s.aggs[i].log) + PushSteps(steps, i)
            && t.now == s.now + Elapsed(steps)
    decreases |steps|
  {
    if steps != [] {
      StepCounts(p, s, steps[0], i);
      RunCounts(p, Apply(p, s, steps[0]), steps[1..], i);
    }
  }

  /** In every run, the windows of an aggregator follow each other, each `period` wide, the first one around the start
      time, and the current one is given by the number of pushes among the steps. Each metric offered so far was
      given to the plugin exactly if the filter wants it and its time is within grace and delay of the window that
      was then current. */
  lemma {:induction false} WindowsTile(p: Params, steps: seq<Step>, i: nat)
    requires Sensible(p) && LegalRun(p, Init(p), steps) && i < |p.configs|
    ensures Shaped(p, Run(p, Init(p), steps))
    ensures var s := Run(p, Init(p), steps);
            var c, since, log := p.configs[i], Since(p, i), s.aggs[i].log;
            && since <= p.start < since + c.period
            && s.now == p.start + Elapsed(steps)
            && Pushes(log) == PushSteps(steps, i)
            && s.aggs[i].periodStart == since + Pushes(log) * c.period
            && s.aggs[i].periodEnd == s.aggs[i].periodStart + c.period
            && AllInTime(c, since, log)
  {
    InitInv(p);
    EveryRunKeepsInv(p, Init(p), steps, Sinces(p));
    RunCounts(p, Init(p), steps, i);
    var s := Run(p, Init(p), steps);
    assert AggInv(p, s, i, Sinces(p)[i]);
    WindowIs(p.configs[i], Since(p, i), s.aggs[i]);
  }

  lemma {:induction false} WindowIs(c: Config, since: int, a: Agg)
    requires InStep(c, since, a)
    ensures a.periodStart == since + Pushes(a.log) * c.period && a.periodEnd == a.periodStart + c.period
    ensures AllInTime(c, since, a.log)
  {
    var log := a.log;
    WindowStartIs(c, since, Pushes(log));
    forall q | 0 <= q < |log|
      ensures InTime(c, since + Pushes(log[..q]) * c.period, log[q])
    {
      assert JudgedAt(c, since, log, q);
      WindowStartIs(c, since, Pushes(log[..q]));
    }
  }

  lemma {:induction false} WindowStartIs(c: Config, since: int, k: nat)
    ensures WindowStart(c, since, k) == since + k * c.period
  {
    if k > 0 {
      WindowStartIs(c, since, k - 1);
    }
  }

  /** Two offers of metrics that the plugin got are in the same window exactly if no push is between them. */
  lemma {:induction false} OneBlock(log: seq<Event>, p: nat, q: nat)
    requires p <= q < |log|
    ensures Pushes(log[..p]) <= Pushes(log[..q])
    ensures Pushes(log[..p]) == Pushes(log[..q]) <==> forall k :: p <= k < q ==> !log[k].Pushed?
  {
    if p < q {
      OneBlock(log, p, q - 1);
      assert log[..q][..q - 1] == log[..q - 1];
    }
  }

  /** When all goroutines are done every metric of the source was offered to every aggregator once, in
      order, and nothing was given to a plugin after its last push; and the outputs got exactly the metrics
      that no aggregator takes over. */
  lemma {:induction false} NothingIsLeftBehind(p: Params, steps: seq<Step>)
    requires Sensible(p) && LegalRun(p, Init(p), steps) && Closed(p, Run(p, Init(p), steps))
    ensures var s := Run(p, Init(p), steps);
            && Shaped(p, s)
            && s.forwarded == Part(p.configs, p.input, true) && s.dropped == Part(p.configs, p.input, false)
            && forall i :: 0 <= i < |p.configs| ==> Offered(s.aggs[i].log) == p.input && EndsWithPush(s.aggs[i].log)
  {
    InitInv(p);
    EveryRunKeepsInv(p, Init(p), steps, Sinces(p));
    var s := Run(p, Init(p), steps);
    assert p.input[..|p.input|] == p.input;
    forall i | 0 <= i < |p.configs|
      ensures Offered(s.aggs[i].log) == p.input && EndsWithPush(s.aggs[i].log)
    {
      assert AggInv(p, s, i, Sinces(p)[i]);
    }
  }

  /** A metric stamped with the present time is inside the window unless the push is overdue by more than
      the delay. */
  lemma {:induction false} FreshMetricIsInside(p: Params, steps: seq<Step>, i: nat)
    requires Sensible(p) && LegalRun(p, Init(p), steps) && i < |p.configs|
    requires !Run(p, Init(p), steps).adder.Ended?
    ensures var s := Run(p, Init(p), steps);
            && Shaped(p, s)
            && (InWindow(p.configs[i], s.aggs[i].periodStart, s.aggs[i].periodEnd, s.now)
                <==> s.now <= s.aggs[i].periodEnd + p.configs[i].delay)
  {
    InitInv(p);
    EveryRunKeepsInv(p, Init(p), steps, Sinces(p));
    assert AggInv(p, Run(p, Init(p), steps), i, Sinces(p)[i]);
  }
}
