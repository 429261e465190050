/** The state of the histogram aggregator: configured borders and counts per series and field
    (plugins/aggregators/histogram/histogram.go). */
module HistogramAggregator {
  import opened Histogram

  /** Only floats and signed integers are counted. */
  datatype Value = Float(f: real) | Int(i: int) | Other

  /** The series of a metric, which is what its hash id stands for. */
  datatype Series = Series(name: string, tags: nat)

  datatype Point = Point(series: Series, fields: map<string, Value>)

  /** A list of borders that may be missing (nil). */
  datatype Borders = Missing | Borders(bs: seq<real>)

  /** The borders for some fields of a metric; without fields they are for all of them. */
  datatype Config = Config(metric: string, fields: seq<string>, buckets: Borders)

  predicate Applies(c: Config, metric: string, field: string) {
    c.metric == metric && (c.fields == [] || field in c.fields)
  }

  /** The borders of the last configuration that applies, in ascending order. */
  function BucketsFor(cs: seq<Config>, metric: string, field: string): (r: Borders)
    ensures r.Borders? ==> Ascending(r.bs)
  {
    if cs == [] then Missing
    else
      var c := cs[|cs| - 1];
      if !Applies(c, metric, field) then BucketsFor(cs[..|cs| - 1], metric, field)
      else if c.buckets.Missing? then Missing
      else SortedIs(c.buckets.bs); Borders(Sorted(c.buckets.bs))
  }

  // The values of one field in a history.

  function InPoint(p: Point, field: string): seq<real> {
    if field !in p.fields then []
    else
      match p.fields[field]
      case Float(f) => [f]
      case Int(i) => [i as real]
      case Other => []
  }

  function Values(h: seq<Point>, series: Series, field: string): seq<real> {
    if h == [] then []
    else
      var p := h[|h| - 1];
      Values(h[..|h| - 1], series, field) + if p.series == series then InPoint(p, field) else []
  }

  predicate Touched(h: seq<Point>, series: Series, field: string) {
    exists i :: 0 <= i < |h| && h[i].series == series && field in h[i].fields
  }

  /** The counts kept for a field are those of all its values, if there are borders for it. */
  ghost predicate FieldRight(b: Borders, h: seq<Point>, hist: map<string, seq<nat>>, series: Series, field: string) {
    && (field in hist <==> b.Borders? && Touched(h, series, field))
    && (field in hist ==> Counted(b.bs, hist[field], Values(h, series, field)))
  }

  ghost predicate SeriesRight(cs: seq<Config>, h: seq<Point>, hist: map<string, seq<nat>>, series: Series) {
    forall field: string :: FieldRight(BucketsFor(cs, series.name, field), h, hist, series, field)
  }

  function HistOf(cache: map<Series, map<string, seq<nat>>>, series: Series): map<string, seq<nat>> {
    if series in cache then cache[series] else map[]
  }

  ghost predicate CacheRight(cs: seq<Config>, h: seq<Point>, cache: map<Series, map<string, seq<nat>>>) {
    forall series :: SeriesRight(cs, h, HistOf(cache, series), series)
  }

  lemma {:induction false} HistorySnoc(h: seq<Point>, p: Point, series: Series, field: string)
    ensures Touched(h + [p], series, field) <==> Touched(h, series, field) || (p.series == series && field in p.fields)
    ensures p.series != series || field !in p.fields ==> Values(h + [p], series, field) == Values(h, series, field)
    ensures p.series == series ==> Values(h + [p], series, field) == Values(h, series, field) + InPoint(p, field)
  {
    assert (h + [p])[..|h|] == h;
    if Touched(h, series, field) {
      var i :| 0 <= i < |h| && h[i].series == series && field in h[i].fields;
      assert (h + [p])[i] == h[i];
    }
    if p.series == series && field in p.fields {
      assert (h + [p])[|h|] == p;
    }
  }

  lemma {:induction false} UntouchedHasNoValues(h: seq<Point>, series: Series, field: string)
    requires !Touched(h, series, field)
    ensures Values(h, series, field) == []
  {
    if h != [] {
      var n := |h| - 1;
      assert forall i :: 0 <= i < n ==> h[..n][i] == h[i];
      assert h[n].series == series ==> field !in h[n].fields;
      UntouchedHasNoValues(h[..n], series, field);
    }
  }

  /** A metric changes nothing for fields that it does not have or that have no borders. */
  lemma {:induction false} OtherFieldRight(b: Borders, h: seq<Point>, p: Point, hist: map<string, seq<nat>>,
                                           series: Series, field: string)
    requires FieldRight(b, h, hist, series, field)
    requires p.series != series || field !in p.fields || b.Missing?
    ensures FieldRight(b, h + [p], hist, series, field)
  {
    HistorySnoc(h, p, series, field);
  }

  /** Count the value of one field, creating empty counts first if there are none. */
  method CountField(counts: Maybe, b: Borders, p: Point, field: string, ghost h: seq<Point>) returns (r: seq<nat>)
    requires b.Borders? && Ascending(b.bs) && field in p.fields
    requires counts.None? ==> !Touched(h, p.series, field)
    requires counts.Some? ==> Counted(b.bs, counts.c, Values(h, p.series, field))
    ensures Counted(b.bs, r, Values(h + [p], p.series, field))
  {
    HistorySnoc(h, p, p.series, field);
    ghost var vs := Values(h, p.series, field);
    if counts.None? {
      r := seq(|b.bs| + 1, i => 0);
      UntouchedHasNoValues(h, p.series, field);
      NothingCounted(b.bs, r);
    } else {
      r := counts.c;
    }
    assert Counted(b.bs, r, vs);
    match p.fields[field]
    case Float(f) => r := CountValue(b.bs, r, f, vs);
    case Int(i) => r := CountValue(b.bs, r, i as real, vs);
    case Other => assert vs + [] == vs;
  }

  /** One more hit in the bucket of a value. */
  method CountValue(bs: seq<real>, counts: seq<nat>, v: real, ghost vs: seq<real>) returns (r: seq<nat>)
    requires Ascending(bs) && Counted(bs, counts, vs)
    ensures Counted(bs, r, vs + [v])
  {
    var index := SearchBorder(bs, v);
    CountedSnoc(bs, counts, vs, v, index);
    r := counts[index := counts[index] + 1];
  }

  /** Storing the counts of one field. */
  lemma {:induction false} StoredRight(b: Borders, h: seq<Point>, p: Point, hist: map<string, seq<nat>>, field: string,
                                       counts: seq<nat>)
    requires b.Borders? && field in p.fields && Counted(b.bs, counts, Values(h + [p], p.series, field))
    ensures FieldRight(b, h + [p], hist[field := counts], p.series, field)
  {
    HistorySnoc(h, p, p.series, field);
  }

  lemma {:induction false} ElsewhereRight(b: Borders, h: seq<Point>, hist: map<string, seq<nat>>, series: Series,
                                          f: string, field: string, counts: seq<nat>)
    requires FieldRight(b, h, hist, series, f) && f != field
    ensures FieldRight(b, h, hist[field := counts], series, f)
  {
  }

  datatype Maybe = None | Some(c: seq<nat>)

  /** Count the values of all fields of a metric for which there are borders. */
  method CountFields(before: map<string, seq<nat>>, p: Point, buckets: map<string, Borders>,
                     ghost cs: seq<Config>, ghost h: seq<Point>)
    returns (hist: map<string, seq<nat>>)
    requires SeriesRight(cs, h, before, p.series)
    requires forall f :: f in buckets <==> f in p.fields && BucketsFor(cs, p.series.name, f).Borders?
    requires forall f :: f in buckets ==> buckets[f] == BucketsFor(cs, p.series.name, f)
    ensures SeriesRight(cs, h + [p], hist, p.series)
  {
    hist := before;
    var left := p.fields.Keys;
    forall f: string | f !in left
      ensures FieldRight(BucketsFor(cs, p.series.name, f), h + [p], hist, p.series, f)
    {
      OtherFieldRight(BucketsFor(cs, p.series.name, f), h, p, hist, p.series, f);
    }
    while left != {}
      invariant left <= p.fields.Keys
      invariant forall f: string :: f in left ==> FieldRight(BucketsFor(cs, p.series.name, f), h, hist, p.series, f)
      invariant forall f: string :: f !in left ==>
                  FieldRight(BucketsFor(cs, p.series.name, f), h + [p], hist, p.series, f)
    {
      var field :| field in left;
      left := left - {field};
      if field in buckets {
        var counts := CountField(if field in hist then Some(hist[field]) else None, buckets[field], p, field, h);
        StoredRight(buckets[field], h, p, hist, field, counts);
        forall f: string | f != field
          ensures FieldRight(BucketsFor(cs, p.series.name, f), if f in left then h else h + [p], hist[field := counts],
                             p.series, f)
        {
          ElsewhereRight(BucketsFor(cs, p.series.name, f), if f in left then h else h + [p], hist, p.series, f,
                         field, counts);
        }
        hist := hist[field := counts];
      } else {
        OtherFieldRight(BucketsFor(cs, p.series.name, field), h, p, hist, p.series, field);
      }
    }
  }

  /** The cache after a metric whose series has been counted. */
  lemma {:induction false} CacheSnoc(cs: seq<Config>, h: seq<Point>, before: map<Series, map<string, seq<nat>>>,
                                     p: Point, after: map<Series, map<string, seq<nat>>>)
    requires CacheRight(cs, h, before)
    requires after.Keys + {p.series} == before.Keys + {p.series}
    requires forall series :: series != p.series ==> HistOf(after, series) == HistOf(before, series)
    requires SeriesRight(cs, h + [p], HistOf(after, p.series), p.series)
    ensures CacheRight(cs, h + [p], after)
  {
    forall series: Series | series != p.series
      ensures SeriesRight(cs, h + [p], HistOf(after, series), series)
    {
      var hist := HistOf(before, series);
      assert SeriesRight(cs, h, hist, series);
      forall f: string
        ensures FieldRight(BucketsFor(cs, series.name, f), h + [p], hist, series, f)
      {
        OtherFieldRight(BucketsFor(cs, series.name, f), h, p, hist, series, f);
      }
    }
  }

  /** A metric for none of whose fields there are borders. */
  lemma {:induction false} NothingToCount(cs: seq<Config>, h: seq<Point>, hist: map<string, seq<nat>>, p: Point)
    requires SeriesRight(cs, h, hist, p.series)
    requires forall f :: f in p.fields ==> BucketsFor(cs, p.series.name, f).Missing?
    ensures SeriesRight(cs, h + [p], hist, p.series)
  {
    forall f: string
      ensures FieldRight(BucketsFor(cs, p.series.name, f), h + [p], hist, p.series, f)
    {
      OtherFieldRight(BucketsFor(cs, p.series.name, f), h, p, hist, p.series, f);
    }
  }

  class Aggregator {
    const configs: seq<Config>
    const resetBuckets: bool
    const cumulative: bool
    var buckets: map<(string, string), Borders>                 // borders found so far, by metric and field
    var cache: map<Series, map<string, seq<nat>>>
    ghost var history: seq<Point>                               // the metrics since the counts were last reset

    ghost predicate BucketsRight()
      reads this
    {
      forall metric, field :: (metric, field) in buckets ==>
          buckets[(metric, field)] == BucketsFor(configs, metric, field)
    }

    ghost predicate Valid()
      reads this
    {
      BucketsRight() && CacheRight(configs, history, cache)
    }

    constructor (configs: seq<Config>, resetBuckets: bool, cumulative: bool)
      ensures Valid() && history == []
      ensures this.configs == configs && this.resetBuckets == resetBuckets && this.cumulative == cumulative
    {
      this.configs, this.resetBuckets, this.cumulative := configs, resetBuckets, cumulative;
      buckets, cache, history := map[], map[], [];
    }

    /** The borders for a field, from those found before or else from the configuration. */
    method GetBuckets(metric: string, field: string) returns (r: Borders)
      requires BucketsRight()
      modifies `buckets
      ensures BucketsRight() && r == BucketsFor(configs, metric, field)
    {
      if (metric, field) in buckets {
        return buckets[(metric, field)];
      }
      ghost var others := buckets;
      for i := 0 to |configs|
        invariant forall k :: k != (metric, field) ==>
                    (k in buckets <==> k in others) && (k in others ==> buckets[k] == others[k])
        invariant if (metric, field) in buckets
                  then buckets[(metric, field)] == BucketsFor(configs[..i], metric, field)
                  else BucketsFor(configs[..i], metric, field).Missing?
      {
        var c := configs[i];
        assert configs[..i + 1][..i] == configs[..i];
        if Applies(c, metric, field) {
          var b := Missing;
          if c.buckets.Borders? {
            var sorted := SortBuckets(c.buckets.bs);
            b := Borders(sorted);
          }
          buckets := buckets[(metric, field) := b];
        }
      }
      assert configs[..|configs|] == configs;
      r := if (metric, field) in buckets then buckets[(metric, field)] else Missing;
    }

    /** Count the values of a metric. */
    method Add(p: Point)
      requires Valid()
      modifies this
      ensures Valid() && history == old(history) + [p]
    {
      ghost var h := history;
      history := h + [p];
      var bucketsByField := BucketsByField(p);
      if bucketsByField == map[] {
        NothingToCount(configs, h, HistOf(cache, p.series), p);
        CacheSnoc(configs, h, cache, p, cache);
        return;
      }
      assert SeriesRight(configs, h, HistOf(cache, p.series), p.series);
      var hist := CountFields(HistOf(cache, p.series), p, bucketsByField, configs, h);
      var after := cache[p.series := hist];
      CacheSnoc(configs, h, cache, p, after);
      cache := after;
    }

    method BucketsByField(p: Point) returns (r: map<string, Borders>)
      requires BucketsRight()
      modifies `buckets
      ensures BucketsRight()
      ensures forall f :: f in r <==> f in p.fields && BucketsFor(configs, p.series.name, f).Borders?
      ensures forall f :: f in r ==> r[f] == BucketsFor(configs, p.series.name, f)
    {
      r := map[];
      var left := p.fields.Keys;
      while left != {}
        invariant left <= p.fields.Keys && BucketsRight()
        invariant forall f :: f in r <==> f in p.fields && f !in left && BucketsFor(configs, p.series.name, f).Borders?
        invariant forall f :: f in r ==> r[f] == BucketsFor(configs, p.series.name, f)
      {
        var field :| field in left;
        left := left - {field};
        var b := GetBuckets(p.series.name, field);
        if b.Borders? {
          r := r[field := b];
        }
      }
    }

    /** Forget the counts, if so configured. */
    method Reset()
      requires Valid()
      modifies this
      ensures Valid() && history == if resetBuckets then [] else old(history)
    {
      if resetBuckets {
        cache, history := map[], [];
        buckets := map[];
      }
    }

    /** Emit the counts of every field of every series, grouped by series and bucket: a group has a count for a
        field exactly if the field was seen and has a bucket with these borders, and it is the number of values
        in the bucket. */
    method Push() returns (groups: seq<Group>)
      requires Valid()
      modifies `buckets
      ensures Valid() && DistinctGroups(groups)
      ensures forall key, field, n :: HasCount(groups, key, field, n)
                <==> && Touched(history, key.series, field)
                     && Reported(BucketsFor(configs, key.series.name, field), cumulative,
                                 Values(history, key.series, field), key, n)
    {
      var out := Collect();
      forall series, field | Emitted(out, series, field)
        ensures Consistent(out[series][field])
      {
        EmitsConsistently(BucketsFor(configs, series.name, field).bs, cumulative, Values(history, series, field),
                          out[series][field]);
      }
      groups := GroupAll(out);
      forall key: GroupKey, field: string, n: nat
        ensures HasCount(groups, key, field, n)
                <==> && Touched(history, key.series, field)
                     && Reported(BucketsFor(configs, key.series.name, field), cumulative,
                                 Values(history, key.series, field), key, n)
      {
        assert HasCount(groups, key, field, n) <==> Outgoing(out, key, field, n);
        if Emitted(out, key.series, field) {
          EmitsReported(BucketsFor(configs, key.series.name, field), cumulative, Values(history, key.series, field),
                        out[key.series][field], key, n);
        }
      }
    }

    /** The buckets of every field of every series. */
    method Collect() returns (out: map<Series, map<string, seq<Bucket>>>)
      requires Valid()
      modifies `buckets
      ensures Valid()
      ensures forall series, field :: Emitted(out, series, field)
                <==> BucketsFor(configs, series.name, field).Borders? && Touched(history, series, field)
      ensures forall series, field :: Emitted(out, series, field) ==>
                Emits(BucketsFor(configs, series.name, field).bs, cumulative, Values(history, series, field),
                    out[series][field])
    {
      out := map[];
      var left := cache.Keys;
      while left != {}
        invariant left <= cache.Keys && BucketsRight()
        invariant out.Keys == cache.Keys - left
        invariant forall series :: series in out ==>
                    SeriesEmitted(configs, cumulative, history, cache[series], series, out[series])
      {
        var series :| series in left;
        left := left - {series};
        assert SeriesRight(configs, history, HistOf(cache, series), series);
        var fields := PushSeries(series, cache[series]);
        out := out[series := fields];
      }
      forall series: Series, field: string
        ensures Emitted(out, series, field)
                <==> BucketsFor(configs, series.name, field).Borders? && Touched(history, series, field)
        ensures Emitted(out, series, field) ==>
                Emits(BucketsFor(configs, series.name, field).bs, cumulative, Values(history, series, field),
                    out[series][field])
      {
        assert SeriesRight(configs, history, HistOf(cache, series), series);
        assert FieldRight(BucketsFor(configs, series.name, field), history, HistOf(cache, series), series, field);
      }
    }

    method PushSeries(series: Series, hist: map<string, seq<nat>>) returns (fields: map<string, seq<Bucket>>)
      requires BucketsRight() && SeriesRight(configs, history, hist, series)
      modifies `buckets
      ensures BucketsRight() && SeriesEmitted(configs, cumulative, history, hist, series, fields)
    {
      fields := map[];
      var left := hist.Keys;
      while left != {}
        invariant left <= hist.Keys && BucketsRight() && fields.Keys == hist.Keys - left
        invariant forall f: string :: f in fields ==>
          && BucketsFor(configs, series.name, f).Borders?
          && Emits(BucketsFor(configs, series.name, f).bs, cumulative, Values(history, series, f), fields[f])
      {
        var field :| field in left;
        left := left - {field};
        var b := GetBuckets(series.name, field);
        assert FieldRight(b, history, hist, series, field);
        var out := GroupByBuckets(b.bs, cumulative, hist[field], Values(history, series, field));
        fields := fields[field := out];
      }
    }
  }

  predicate Emitted(out: map<Series, map<string, seq<Bucket>>>, series: Series, field: string) {
    series in out && field in out[series]
  }

  /** Exactly the fields that are counted are emitted, with the counts of all their values. */
  ghost predicate SeriesEmitted(cs: seq<Config>, cumulative: bool, h: seq<Point>, hist: map<string, seq<nat>>,
                                series: Series, fields: map<string, seq<Bucket>>) {
    && fields.Keys == hist.Keys
    && forall f: string :: f in fields ==>
         && BucketsFor(cs, series.name, f).Borders?
         && Emits(BucketsFor(cs, series.name, f).bs, cumulative, Values(h, series, f), fields[f])
  }

  // Grouping the counts of several fields.

  /** The name and tags of a pushed metric: those of the series, and the borders of the bucket. */
  datatype GroupKey = GroupKey(series: Series, gt: Border, le: Border)

  datatype Group = Group(key: GroupKey, counts: map<string, nat>)

  predicate DistinctGroups(groups: seq<Group>) {
    forall i, j :: 0 <= i < j < |groups| ==> groups[i].key != groups[j].key
  }

  predicate HasCount(groups: seq<Group>, key: GroupKey, field: string, n: nat) {
    exists k :: 0 <= k < |groups| && groups[k].key == key && field in groups[k].counts && groups[k].counts[field] == n
  }

  /** Set the count of a field in the group with this name and these tags, or in a new group. */
  method GroupField(groups: seq<Group>, key: GroupKey, field: string, count: nat) returns (r: seq<Group>)
    requires DistinctGroups(groups)
    ensures DistinctGroups(r)
    ensures forall k, f, n :: HasCount(r, k, f, n)
              <==> if k == key && f == field then n == count else HasCount(groups, k, f, n)
  {
    for i := 0 to |groups|
      invariant forall j :: 0 <= j < i ==> groups[j].key != key
    {
      if groups[i].key == key {
        r := groups[i := Group(key, groups[i].counts[field := count])];
        forall k: GroupKey, f: string, n: nat
          ensures HasCount(r, k, f, n) <==> if k == key && f == field then n == count else HasCount(groups, k, f, n)
        {
          CountReplaced(groups, i, field, count, k, f, n);
        }
        return;
      }
    }
    r := groups + [Group(key, map[field := count])];
    forall k: GroupKey, f: string, n: nat
      ensures HasCount(r, k, f, n) <==> if k == key && f == field then n == count else HasCount(groups, k, f, n)
    {
      CountAppended(groups, key, field, count, k, f, n);
    }
  }

  lemma {:induction false} CountReplaced(groups: seq<Group>, i: nat, field: string, count: nat,
                                         k: GroupKey, f: string, n: nat)
    requires DistinctGroups(groups) && i < |groups|
    ensures var r := groups[i := Group(groups[i].key, groups[i].counts[field := count])];
            HasCount(r, k, f, n)
            <==> if k == groups[i].key && f == field then n == count else HasCount(groups, k, f, n)
  {
    var r := groups[i := Group(groups[i].key, groups[i].counts[field := count])];
    assert r[i].counts[field] == count;
    if j :| 0 <= j < |groups| && groups[j].key == k && f in groups[j].counts && groups[j].counts[f] == n {
      assert r[j].key == k && ((j == i && f == field) || (f in r[j].counts && r[j].counts[f] == n));
    }
    if j :| 0 <= j < |r| && r[j].key == k && f in r[j].counts && r[j].counts[f] == n {
      assert groups[j].key == k && ((j == i && f == field) || (f in groups[j].counts && groups[j].counts[f] == n));
    }
  }

  lemma {:induction false} CountAppended(groups: seq<Group>, key: GroupKey, field: string, count: nat,
                                         k: GroupKey, f: string, n: nat)
    requires forall j :: 0 <= j < |groups| ==> groups[j].key != key
    ensures HasCount(groups + [Group(key, map[field := count])], k, f, n)
            <==> if k == key && f == field then n == count else HasCount(groups, k, f, n)
  {
    var r := groups + [Group(key, map[field := count])];
    assert r[|groups|] == Group(key, map[field := count]);
    if j :| 0 <= j < |groups| && groups[j].key == k && f in groups[j].counts && groups[j].counts[f] == n {
      assert r[j] == groups[j];
    }
  }

  /** Buckets with the same borders have the same count. */
  predicate Consistent(out: seq<Bucket>) {
    forall i, j :: 0 <= i < j < |out| && out[i].gt == out[j].gt && out[i].le == out[j].le ==>
        out[i].count == out[j].count
  }

  predicate HasBucket(out: seq<Bucket>, key: GroupKey, n: nat) {
    exists i :: 0 <= i < |out| && out[i] == Bucket(key.gt, key.le, n)
  }

  predicate Outgoing(out: map<Series, map<string, seq<Bucket>>>, key: GroupKey, field: string, n: nat) {
    Emitted(out, key.series, field) && HasBucket(out[key.series][field], key, n)
  }

  /** Add all buckets of one field. */
  method GroupBuckets(groups: seq<Group>, series: Series, field: string, out: seq<Bucket>) returns (r: seq<Group>)
    requires DistinctGroups(groups) && Consistent(out)
    requires forall k: GroupKey, n: nat :: k.series == series ==> !HasCount(groups, k, field, n)
    ensures DistinctGroups(r)
    ensures forall k, f, n :: HasCount(r, k, f, n)
              <==> HasCount(groups, k, f, n) || (k.series == series && f == field && HasBucket(out, k, n))
  {
    r := groups;
    for i := 0 to |out|
      invariant DistinctGroups(r)
      invariant forall k, f, n :: HasCount(r, k, f, n)
                  <==> HasCount(groups, k, f, n) || (k.series == series && f == field && HasBucket(out[..i], k, n))
    {
      r := GroupField(r, GroupKey(series, out[i].gt, out[i].le), field, out[i].count);
      forall k: GroupKey, n: nat
        ensures HasBucket(out[..i + 1], k, n)
                <==> if k.gt == out[i].gt && k.le == out[i].le then n == out[i].count else HasBucket(out[..i], k, n)
      {
        HasBucketNext(out, i, k, n);
      }
    }
    assert out[..|out|] == out;
  }

  lemma {:induction false} HasBucketNext(out: seq<Bucket>, i: nat, k: GroupKey, n: nat)
    requires Consistent(out) && i < |out|
    ensures HasBucket(out[..i + 1], k, n)
            <==> if k.gt == out[i].gt && k.le == out[i].le then n == out[i].count else HasBucket(out[..i], k, n)
  {
    assert out[..i + 1][i] == out[i];
    if HasBucket(out[..i], k, n) {
      var j :| 0 <= j < i && out[..i][j] == Bucket(k.gt, k.le, n);
      assert out[..i + 1][j] == Bucket(k.gt, k.le, n);
    }
    var more := out[..i + 1];
    if j :| 0 <= j < |more| && more[j] == Bucket(k.gt, k.le, n) {
      assert j < i ==> out[..i][j] == Bucket(k.gt, k.le, n);
    }
  }

  /** Add all buckets of all fields, in any order. */
  method GroupAll(out: map<Series, map<string, seq<Bucket>>>) returns (groups: seq<Group>)
    requires forall series, field :: Emitted(out, series, field) ==> Consistent(out[series][field])
    ensures DistinctGroups(groups)
    ensures forall key, field, n :: HasCount(groups, key, field, n) <==> Outgoing(out, key, field, n)
  {
    groups := [];
    var left := set series, field | series in out && field in out[series] :: (series, field);
    while left != {}
      invariant forall x :: x in left ==> Emitted(out, x.0, x.1)
      invariant DistinctGroups(groups)
      invariant forall key, field, n :: HasCount(groups, key, field, n)
                  <==> Outgoing(out, key, field, n) && (key.series, field) !in left
    {
      var x :| x in left;
      left := left - {x};
      groups := GroupBuckets(groups, x.0, x.1, out[x.0][x.1]);
    }
  }

  /** A bucket with these borders is reported, with the number of values in it. */
  ghost predicate Reported(b: Borders, cumulative: bool, vs: seq<real>, key: GroupKey, n: nat) {
    && b.Borders?
    && (exists i :: 0 <= i <= |b.bs| && key.le == Right(b.bs, i)
                    && key.gt == if cumulative then NegInf else Left(b.bs, i))
    && n == Holds(vs, cumulative, key.gt, key.le)
  }

  lemma {:induction false} EmitsConsistently(bs: seq<real>, cumulative: bool, vs: seq<real>, out: seq<Bucket>)
    requires Emits(bs, cumulative, vs, out)
    ensures Consistent(out)
  {
  }

  lemma {:induction false} EmitsReported(b: Borders, cumulative: bool, vs: seq<real>, out: seq<Bucket>, key: GroupKey,
                                         n: nat)
    requires b.Borders? && Emits(b.bs, cumulative, vs, out)
    ensures HasBucket(out, key, n) <==> Reported(b, cumulative, vs, key, n)
  {
    if i :| 0 <= i <= |b.bs| && key.le == Right(b.bs, i) && key.gt == if cumulative then NegInf else Left(b.bs, i) {
      assert out[i].le == key.le && out[i].gt == key.gt;
      assert n == out[i].count ==> out[i] == Bucket(key.gt, key.le, n);
    }
  }
}
