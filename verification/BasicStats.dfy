/** The basicstats aggregator (plugins/aggregators/basicstats/basicstats.go). */
module BasicStats {
  import opened Seqs
  import opened Welford

  datatype Value = Float(f: real) | Int(i: int) | Uint(u: nat) | Other

  datatype Field = Field(key: string, value: Value)

  /** A metric: the id of its series, its time in nanoseconds, and its fields. */
  datatype Point = Point(id: nat, time: int, fields: seq<Field>)

  /** AddField replaces the value of an existing key, so no key occurs twice. */
  predicate DistinctKeys(fields: seq<Field>) {
    forall i, j :: 0 <= i < j < |fields| ==> fields[i].key != fields[j].key
  }

  predicate Numeric(v: Value) {
    !v.Other?
  }

  function Convert(v: Value): real
    requires Numeric(v)
  {
    match v
    case Float(f) => f
    case Int(i) => i as real
    case Uint(u) => u as real
  }

  // The samples of one field in a history.

  function InFields(fields: seq<Field>, key: string, time: int): seq<Sample> {
    if fields == [] then []
    else
      var f := fields[|fields| - 1];
      InFields(fields[..|fields| - 1], key, time)
      + if f.key == key && Numeric(f.value) then [Sample(Convert(f.value), time)] else []
  }

  function Samples(h: seq<Point>, id: nat, key: string): seq<Sample> {
    if h == [] then []
    else
      var p := h[|h| - 1];
      Samples(h[..|h| - 1], id, key) + if p.id == id then InFields(p.fields, key, p.time) else []
  }

  predicate Seen(h: seq<Point>, id: nat) {
    exists i :: 0 <= i < |h| && h[i].id == id
  }

  /** The cached statistics of a series are those of the samples of its fields. */
  ghost predicate Tracks(fields: map<string, Stats>, h: seq<Point>, id: nat) {
    forall key :: TracksKey(fields, h, id, key)
  }

  ghost predicate TracksKey(fields: map<string, Stats>, h: seq<Point>, id: nat, key: string) {
    Summarises(fields, key, Samples(h, id, key))
  }

  ghost predicate Summarises(fields: map<string, Stats>, key: string, xs: seq<Sample>) {
    (key in fields <==> xs != []) && (xs != [] ==> fields[key] == Fold(xs))
  }

  /** The metric with only its first `n` fields. */
  function Upto(p: Point, n: nat): Point
    requires n <= |p.fields|
  {
    p.(fields := p.fields[..n])
  }

  lemma {:induction false} SamplesSnoc(h: seq<Point>, p: Point, id: nat, key: string)
    ensures p.id == id ==> Samples(h + [p], id, key) == Samples(h, id, key) + InFields(p.fields, key, p.time)
    ensures p.id != id || p.fields == [] ==> Samples(h + [p], id, key) == Samples(h, id, key)
  {
    assert (h + [p])[..|h|] == h;
  }

  lemma {:induction false} NoSamples(h: seq<Point>, id: nat, key: string)
    requires !Seen(h, id)
    ensures Samples(h, id, key) == []
  {
    if h != [] {
      var n := |h| - 1;
      assert h[n].id != id;
      assert forall i :: 0 <= i < n ==> h[..n][i] == h[i];
      NoSamples(h[..n], id, key);
    }
  }

  lemma {:induction false} NotInFields(fields: seq<Field>, key: string, time: int)
    requires forall i :: 0 <= i < |fields| ==> fields[i].key != key
    ensures InFields(fields, key, time) == []
  {
    if fields != [] {
      NotInFields(fields[..|fields| - 1], key, time);
    }
  }

  lemma {:induction false} InFieldsNext(fields: seq<Field>, n: nat, key: string, time: int)
    requires n < |fields|
    ensures var xs := InFields(fields[..n], key, time);
            InFields(fields[..n + 1], key, time)
            == if fields[n].key == key && Numeric(fields[n].value)
               then xs + [Sample(Convert(fields[n].value), time)] else xs
  {
    assert fields[..n + 1][..n] == fields[..n];
  }

  /** Taking one more field into account adds at most one sample, to the key of that field. */
  lemma {:induction false} OneMoreField(h: seq<Point>, p: Point, n: nat, key: string)
    requires n < |p.fields|
    ensures var f := p.fields[n];
            var before := Samples(h + [Upto(p, n)], p.id, key);
            var after := Samples(h + [Upto(p, n + 1)], p.id, key);
            after == if f.key == key && Numeric(f.value)
                     then before + [Sample(Convert(f.value), p.time)] else before
  {
    SamplesSnoc(h, Upto(p, n + 1), p.id, key);
    SamplesSnoc(h, Upto(p, n), p.id, key);
    InFieldsNext(p.fields, n, key, p.time);
    var f := p.fields[n];
    if f.key == key && Numeric(f.value) {
      Regroup(Samples(h, p.id, key), InFields(p.fields[..n], key, p.time), [Sample(Convert(f.value), p.time)]);
    }
  }

  lemma {:induction false} SummaryOneMore(fields: map<string, Stats>, key: string, xs: seq<Sample>, s: Sample)
    requires Summarises(fields, key, xs)
    ensures Summarises(fields[key := if xs == [] then Start(s) else Update(Fold(xs), s)], key, xs + [s])
  {
    assert (xs + [s])[..|xs|] == xs;
  }

  lemma {:induction false} SummaryElsewhere(fields: map<string, Stats>, other: string, v: Stats, key: string,
                                            xs: seq<Sample>)
    requires Summarises(fields, key, xs) && key != other
    ensures Summarises(fields[other := v], key, xs)
  {
  }

  /** Storing the right statistics for a field. */
  lemma {:induction false} TrackOneMore(fields: map<string, Stats>, h: seq<Point>, p: Point, n: nat, v: Stats)
    requires n < |p.fields| && Numeric(p.fields[n].value) && Tracks(fields, h + [Upto(p, n)], p.id)
    requires var xs := Samples(h + [Upto(p, n)], p.id, p.fields[n].key);
             var s := Sample(Convert(p.fields[n].value), p.time);
             v == if xs == [] then Start(s) else Update(Fold(xs), s)
    ensures Tracks(fields[p.fields[n].key := v], h + [Upto(p, n + 1)], p.id)
  {
    var f := p.fields[n];
    var stored, now := fields[f.key := v], h + [Upto(p, n + 1)];
    forall key: string
      ensures TracksKey(stored, now, p.id, key)
    {
      assert TracksKey(fields, h + [Upto(p, n)], p.id, key);
      OneMoreField(h, p, n, key);
      var xs := Samples(h + [Upto(p, n)], p.id, key);
      if key == f.key {
        SummaryOneMore(fields, key, xs, Sample(Convert(f.value), p.time));
      } else {
        SummaryElsewhere(fields, f.key, v, key, xs);
      }
    }
  }

  /** Passing over a field that is not a number. */
  lemma {:induction false} TrackNothing(fields: map<string, Stats>, h: seq<Point>, p: Point, n: nat)
    requires n < |p.fields| && !Numeric(p.fields[n].value) && Tracks(fields, h + [Upto(p, n)], p.id)
    ensures Tracks(fields, h + [Upto(p, n + 1)], p.id)
  {
    var now := h + [Upto(p, n + 1)];
    forall key: string
      ensures TracksKey(fields, now, p.id, key)
    {
      assert TracksKey(fields, h + [Upto(p, n)], p.id, key);
      OneMoreField(h, p, n, key);
    }
  }

  class Aggregator {
    var cache: map<nat, map<string, Stats>>
    ghost var history: seq<Point>     // the metrics added since the last reset

    ghost predicate Valid()
      reads this
    {
      && (forall id :: id in cache <==> Seen(history, id))
      && forall id :: id in cache ==> Tracks(cache[id], history, id)
    }

    constructor ()
      ensures Valid() && history == []
    {
      cache, history := map[], [];
    }

    method Reset()
      modifies this
      ensures Valid() && history == []
    {
      cache, history := map[], [];
    }

    /** Add a metric to the statistics of its series. */
    method Add(p: Point)
      requires Valid() && DistinctKeys(p.fields)
      modifies this
      ensures Valid() && history == old(history) + [p]
    {
      ghost var h := history;
      var fields: map<string, Stats>;
      if p.id !in cache {
        fields := NewFields(p, h);
      } else {
        fields := UpdateFields(cache[p.id], p, h);
      }
      cache := cache[p.id := fields];
      history := history + [p];
      CacheTracks(old(cache), cache, h, p);
    }

    /** Push the configured statistics of every field of every series, in terms of all its samples since the
        last reset. A series for which nothing is to be sent is left out. */
    method Push(config: set<Stat>) returns (out: map<nat, map<string, map<Stat, Number>>>)
      requires Valid()
      ensures forall id, key, stat ::
                InReport(out, id, key, stat) <==> stat in config && Sent(Samples(history, id, key), stat)
      ensures forall id, key, stat ::
                InReport(out, id, key, stat) ==> Means(Samples(history, id, key), stat, out[id][key][stat])
      ensures forall id :: id in out ==> out[id] != map[]
    {
      out := Report(config, cache);
      forall id: nat, key: string, stat: Stat
        ensures InReport(out, id, key, stat) <==> stat in config && Sent(Samples(history, id, key), stat)
        ensures InReport(out, id, key, stat) ==> Means(Samples(history, id, key), stat, out[id][key][stat])
      {
        if id in cache {
          ReportIsRight(config, cache[id], history, id, key, stat);
        } else {
          NoSamples(history, id, key);
        }
      }
    }
  }

  predicate InReport(out: map<nat, map<string, map<Stat, Number>>>, id: nat, key: string, stat: Stat) {
    id in out && key in out[id] && stat in out[id][key]
  }

  /** The cache after a metric, given that the entry of its series is right. */
  lemma {:induction false} CacheTracks(before: map<nat, map<string, Stats>>, after: map<nat, map<string, Stats>>,
                                       h: seq<Point>, p: Point)
    requires forall id :: id in before <==> Seen(h, id)
    requires forall id :: id in before ==> Tracks(before[id], h, id)
    requires p.id in after && after == before[p.id := after[p.id]] && Tracks(after[p.id], h + [p], p.id)
    ensures forall id :: id in after <==> Seen(h + [p], id)
    ensures forall id :: id in after ==> Tracks(after[id], h + [p], id)
  {
    forall id: nat
      ensures id in after <==> Seen(h + [p], id)
    {
      if Seen(h, id) {
        var i :| 0 <= i < |h| && h[i].id == id;
        assert (h + [p])[i].id == id;
      }
      if id == p.id {
        assert (h + [p])[|h|].id == id;
      }
    }
    forall id | id in after
      ensures Tracks(after[id], h + [p], id)
    {
      if id != p.id {
        forall key: string
          ensures TracksKey(after[id], h + [p], id, key)
        {
          assert TracksKey(before[id], h, id, key);
          SamplesSnoc(h, p, id, key);
        }
      }
    }
  }

  /** The statistics of a series that is not cached yet. */
  method NewFields(p: Point, ghost h: seq<Point>) returns (fields: map<string, Stats>)
    requires DistinctKeys(p.fields) && !Seen(h, p.id)
    ensures Tracks(fields, h + [p], p.id)
  {
    fields := map[];
    forall key: string
      ensures TracksKey(fields, h + [Upto(p, 0)], p.id, key)
    {
      NoSamples(h, p.id, key);
      SamplesSnoc(h, Upto(p, 0), p.id, key);
    }
    for n := 0 to |p.fields|
      invariant Tracks(fields, h + [Upto(p, n)], p.id)
    {
      var f := p.fields[n];
      if Numeric(f.value) {
        NoSamples(h, p.id, f.key);
        SamplesSnoc(h, Upto(p, n), p.id, f.key);
        NotInFields(p.fields[..n], f.key, p.time);
        var fv := Convert(f.value);
        var v := Start(Sample(fv, p.time));
        TrackOneMore(fields, h, p, n, v);
        fields := fields[f.key := v];
      } else {
        TrackNothing(fields, h, p, n);
      }
    }
    assert Upto(p, |p.fields|) == p;
  }

  /** The statistics of a series that is cached already. */
  method UpdateFields(before: map<string, Stats>, p: Point, ghost h: seq<Point>) returns (fields: map<string, Stats>)
    requires Tracks(before, h, p.id)
    ensures Tracks(fields, h + [p], p.id)
  {
    fields := before;
    forall key: string
      ensures TracksKey(fields, h + [Upto(p, 0)], p.id, key)
    {
      assert TracksKey(fields, h, p.id, key);
      SamplesSnoc(h, Upto(p, 0), p.id, key);
    }
    for n := 0 to |p.fields|
      invariant Tracks(fields, h + [Upto(p, n)], p.id)
    {
      var f := p.fields[n];
      if Numeric(f.value) {
        assert TracksKey(fields, h + [Upto(p, n)], p.id, f.key);
        var fv := Convert(f.value);
        if f.key !in fields {
          var v := Start(Sample(fv, p.time));
          TrackOneMore(fields, h, p, n, v);
          fields := fields[f.key := v];
        } else {
          var tmp := OneSample(fields[f.key], fv, p.time);
          TrackOneMore(fields, h, p, n, tmp);
          fields := fields[f.key := tmp];
        }
      } else {
        TrackNothing(fields, h, p, n);
      }
    }
    assert Upto(p, |p.fields|) == p;
  }

  /** One more value of a field. */
  method OneSample(v: Stats, fv: real, time: int) returns (tmp: Stats)
    requires v.count > 0.0
    ensures tmp == Update(v, Sample(fv, time))
  {
    tmp := v;
    var mean := tmp.mean;
    var m2 := tmp.m2;
    var n := tmp.count + 1.0;
    tmp := tmp.(count := n);
    var delta := fv - mean;
    mean := mean + delta / n;
    tmp := tmp.(mean := mean);
    m2 := m2 + Product(delta, fv - mean);
    tmp := tmp.(m2 := m2);
    if fv < tmp.min {
      tmp := tmp.(min := fv);
    } else if fv > tmp.max {
      tmp := tmp.(max := fv);
    }
    tmp := tmp.(sum := tmp.sum + fv);
    tmp := tmp.(diff := fv - tmp.base);
    tmp := tmp.(interval := time - tmp.baseTime);
    if time != tmp.baseTime {
      tmp := tmp.(rate := Slope(tmp.diff, tmp.interval));
    }
    ghost var u := Update(v, Sample(fv, time));
    assert tmp.mean == u.mean;
    assert tmp.m2 == u.m2;
  }

  // Pushing.

  datatype Stat =
    Count | Min | Max | Mean | Sum | S2 | Stdev | Diff | NonNegativeDiff | Rate | NonNegativeRate | Interval

  /** A value of a pushed field; Sqrt(r) stands for the square root of `r`. */
  datatype Number = Real(r: real) | Integer(i: int) | Sqrt(r: real)

  /** Which statistics of these samples are sent if they are configured. */
  predicate Sent(xs: seq<Sample>, stat: Stat) {
    && xs != []
    && (stat in {Count, Min, Max, Mean, Sum} || |xs| >= 2)
    && (stat in {NonNegativeDiff, NonNegativeRate} ==> xs[|xs| - 1].x >= xs[0].x)
  }

  /** `n` is this statistic of these samples. */
  ghost predicate Means(xs: seq<Sample>, stat: Stat, n: Number)
    requires Sent(xs, stat)
  {
    var first, last := xs[0], xs[|xs| - 1];
    match stat
    case Count => n == Real(|xs| as real)
    case Min => n.Real? && IsMin(xs, n.r)
    case Max => n.Real? && IsMax(xs, n.r)
    case Mean => n == Real(Welford.Mean(xs))
    case Sum => n == Real(Total(Values(xs)))
    case S2 => n == Real(Variance(xs))
    case Stdev => n == Sqrt(Variance(xs))
    case Diff => n == Real(last.x - first.x)
    case NonNegativeDiff => n == Real(last.x - first.x)
    case Rate => n.Real? && IsRate(xs, n.r)
    case NonNegativeRate => n.Real? && IsRate(xs, n.r)
    case Interval => n == Integer(last.t - first.t)
  }

  /** A rate that is pushed as non-negative can be negative: what is checked is the difference. */
  lemma NegativeRateIsSent()
    ensures var xs := [Sample(0.0, 1000000000), Sample(1.0, 0)];
            Sent(xs, NonNegativeRate) && forall n :: Means(xs, NonNegativeRate, n) ==> n.r < 0.0
  {
    var xs := [Sample(0.0, 1000000000), Sample(1.0, 0)];
    assert LastElsewhen(xs) == 1;
  }

  // The same from the running statistics, as Push computes them.

  predicate SentFrom(v: Stats, stat: Stat) {
    && (v.rate.Slope? ==> v.rate.ns != 0)
    && (stat in {Count, Min, Max, Mean, Sum} || v.count > 1.0)
    && (stat in {NonNegativeDiff, NonNegativeRate} ==> v.diff >= 0.0)
  }

  function NumberFrom(v: Stats, stat: Stat): Number
    requires SentFrom(v, stat)
  {
    match stat
    case Count => Real(v.count)
    case Min => Real(v.min)
    case Max => Real(v.max)
    case Mean => Real(v.mean)
    case Sum => Real(v.sum)
    case S2 => Real(v.m2 / (v.count - 1.0))
    case Stdev => Sqrt(v.m2 / (v.count - 1.0))
    case Diff => Real(v.diff)
    case NonNegativeDiff => Real(v.diff)
    case Rate => Real(PerSecond(v.rate))
    case NonNegativeRate => Real(PerSecond(v.rate))
    case Interval => Integer(v.interval)
  }

  /** What is pushed is right if the running statistics are; in particular s2 is the sample variance. */
  lemma {:induction false} NumbersAreRight(v: Stats, xs: seq<Sample>, stat: Stat)
    requires Describes(v, xs)
    ensures SentFrom(v, stat) <==> Sent(xs, stat)
    ensures Sent(xs, stat) ==> Means(xs, stat, NumberFrom(v, stat))
  {
    RateOfIsRate(xs);
  }

  /** The fields pushed for one field of a series. */
  function FieldsFrom(config: set<Stat>, v: Stats): map<Stat, Number> {
    map stat | stat in config && SentFrom(v, stat) :: NumberFrom(v, stat)
  }

  /** The fields pushed for a series. */
  function SeriesFrom(config: set<Stat>, fields: map<string, Stats>): map<string, map<Stat, Number>> {
    map key | key in fields && FieldsFrom(config, fields[key]) != map[] :: FieldsFrom(config, fields[key])
  }

  lemma {:induction false} ReportIsRight(config: set<Stat>, fields: map<string, Stats>, h: seq<Point>, id: nat,
                                         key: string, stat: Stat)
    requires Tracks(fields, h, id)
    ensures var series, xs := SeriesFrom(config, fields), Samples(h, id, key);
            && (key in series && stat in series[key] <==> stat in config && Sent(xs, stat))
            && (key in series && stat in series[key] ==> Means(xs, stat, series[key][stat]))
  {
    assert TracksKey(fields, h, id, key);
    var xs := Samples(h, id, key);
    if xs != [] {
      FoldDescribes(xs);
      NumbersAreRight(fields[key], xs, stat);
      assert stat in FieldsFrom(config, fields[key]) ==> FieldsFrom(config, fields[key]) != map[];
    }
  }

  /** One group of fields for every series for which there is something to send. */
  method Report(config: set<Stat>, cache: map<nat, map<string, Stats>>)
    returns (out: map<nat, map<string, map<Stat, Number>>>)
    ensures forall id :: id in out <==> id in cache && SeriesFrom(config, cache[id]) != map[]
    ensures forall id :: id in out ==> out[id] == SeriesFrom(config, cache[id])
  {
    out := map[];
    var ids := cache.Keys;
    while ids != {}
      invariant ids <= cache.Keys
      invariant forall id :: id in out <==> id in cache && id !in ids && SeriesFrom(config, cache[id]) != map[]
      invariant forall id :: id in out ==> out[id] == SeriesFrom(config, cache[id])
    {
      var id :| id in ids;
      ids := ids - {id};
      var fields := SeriesFrom(config, cache[id]);
      if fields != map[] {
        out := out[id := fields];
      }
    }
  }
}
