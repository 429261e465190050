/** The running statistics of one field (plugins/aggregators/basicstats/basicstats.go), over real numbers. */
module Welford {
  import opened Times

  /** A value of a field and the time of its metric in nanoseconds. */
  datatype Sample = Sample(x: real, t: int)

  /** The intermediate value `base` (LAST in the source) is only ever set to the first value, and `baseTime`
      (TIME in the source) to its time. */
  datatype Stats = Stats(count: real, min: real, max: real, sum: real, mean: real, diff: real, rate: Slope,
                         interval: int, m2: real, base: real, baseTime: int)

  /** A rate: none, or a change within a number of nanoseconds. */
  datatype Slope = Flat | Slope(dx: real, ns: int)

  /** The rate as a number, per second. */
  function PerSecond(r: Slope): real
    requires r.Slope? ==> r.ns != 0
  {
    if r.Flat? then 0.0 else r.dx / Seconds(r.ns)
  }

  function Product(a: real, b: real): real {
    a * b
  }

  function Start(s: Sample): Stats {
    Stats(1.0, s.x, s.x, s.x, s.x, 0.0, Flat, 0, 0.0, s.x, s.t)
  }

  function Update(v: Stats, s: Sample): Stats
    requires v.count > 0.0
  {
    var n := v.count + 1.0;
    var delta := s.x - v.mean;
    var mean := v.mean + delta / n;
    var diff := s.x - v.base;
    var interval := s.t - v.baseTime;
    Stats(n,
          if s.x < v.min then s.x else v.min,
          if s.x >= v.min && s.x > v.max then s.x else v.max,
          v.sum + s.x,
          mean,
          diff,
          if s.t != v.baseTime then Slope(diff, interval) else v.rate,
          interval,
          v.m2 + Product(delta, s.x - mean),
          v.base,
          v.baseTime)
  }

  /** The state after a nonempty history. */
  function Fold(xs: seq<Sample>): (v: Stats)
    requires xs != []
    ensures v.count == |xs| as real
  {
    if |xs| == 1 then Start(xs[0]) else Update(Fold(xs[..|xs| - 1]), xs[|xs| - 1])
  }

  // The definitions over a whole history.

  function Total(rs: seq<real>): real {
    if rs == [] then 0.0 else Total(rs[..|rs| - 1]) + rs[|rs| - 1]
  }

  function Square(x: real): real {
    x * x
  }

  function Values(xs: seq<Sample>): seq<real> {
    seq(|xs|, i requires 0 <= i < |xs| => xs[i].x)
  }

  function Squares(xs: seq<Sample>): seq<real> {
    seq(|xs|, i requires 0 <= i < |xs| => Square(xs[i].x))
  }

  /** The squared deviations from `c`. */
  function Deviations(xs: seq<Sample>, c: real): seq<real> {
    seq(|xs|, i requires 0 <= i < |xs| => Square(xs[i].x - c))
  }

  function Mean(xs: seq<Sample>): real
    requires xs != []
  {
    Total(Values(xs)) / |xs| as real
  }

  function Variance(xs: seq<Sample>): real
    requires |xs| >= 2
  {
    Total(Deviations(xs, Mean(xs))) / (|xs| - 1) as real
  }

  predicate IsMin(xs: seq<Sample>, v: real) {
    (exists i :: 0 <= i < |xs| && xs[i].x == v) && forall i :: 0 <= i < |xs| ==> v <= xs[i].x
  }

  predicate IsMax(xs: seq<Sample>, v: real) {
    (exists i :: 0 <= i < |xs| && xs[i].x == v) && forall i :: 0 <= i < |xs| ==> xs[i].x <= v
  }

  /** The last sample whose time is not that of the first one, if there is one. */
  function LastElsewhen(xs: seq<Sample>): (j: int)
    requires xs != []
    ensures -1 <= j < |xs|
    ensures j >= 0 ==> xs[j].t != xs[0].t
    ensures forall k :: j < k < |xs| ==> xs[k].t == xs[0].t
  {
    if xs[|xs| - 1].t != xs[0].t then |xs| - 1
    else if |xs| == 1 then -1
    else LastElsewhen(xs[..|xs| - 1])
  }

  /** The rate from the first sample to the last one with another time. */
  function RateOf(xs: seq<Sample>): (r: Slope)
    requires xs != []
    ensures r.Slope? ==> r.ns != 0
  {
    var j := LastElsewhen(xs);
    if j < 0 then Flat else Slope(xs[j].x - xs[0].x, xs[j].t - xs[0].t)
  }

  /** `r` per second is the rate: in the nanoseconds between the two samples it makes up for their difference. */
  predicate IsRate(xs: seq<Sample>, r: real)
    requires xs != []
  {
    var j := LastElsewhen(xs);
    if j < 0 then r == 0.0 else r * (xs[j].t - xs[0].t) as real == (xs[j].x - xs[0].x) * 1000000000.0
  }

  lemma RateQuotient(dx: real, ns: int)
    requires ns != 0
    ensures PerSecond(Slope(dx, ns)) * ns as real == dx * 1000000000.0
  {
    var s := Seconds(ns);
    assert (dx / s) * s == dx;
    assert (dx / s) * (s * 1000000000.0) == ((dx / s) * s) * 1000000000.0;
  }

  lemma {:induction false} RateOfIsRate(xs: seq<Sample>)
    requires xs != []
    ensures IsRate(xs, PerSecond(RateOf(xs)))
  {
    var j := LastElsewhen(xs);
    if j >= 0 {
      RateQuotient(xs[j].x - xs[0].x, xs[j].t - xs[0].t);
    }
  }

  // The state matches the definitions.

  lemma {:induction false} TotalNotNegative(rs: seq<real>)
    requires forall i :: 0 <= i < |rs| ==> rs[i] >= 0.0
    ensures Total(rs) >= 0.0
  {
    if rs != [] {
      TotalNotNegative(rs[..|rs| - 1]);
    }
  }

  function Scaled(k: real, rs: seq<real>): seq<real> {
    seq(|rs|, i requires 0 <= i < |rs| => Product(k, rs[i]))
  }

  lemma {:induction false} TotalScaled(k: real, rs: seq<real>)
    ensures Total(Scaled(k, rs)) == Product(k, Total(rs))
  {
    var n := |rs| - 1;
    if n >= 0 {
      TotalScaled(k, rs[..n]);
      forall i | 0 <= i < n
        ensures Scaled(k, rs)[..n][i] == Scaled(k, rs[..n])[i]
      {
        assert rs[..n][i] == rs[i];
      }
      assert Scaled(k, rs)[..n] == Scaled(k, rs[..n]);
      Distribute(k, Total(rs[..n]), rs[n]);
    }
  }

  lemma Distribute(k: real, t: real, x: real)
    ensures k * (t + x) == k * t + k * x
  {
  }

  ghost predicate Combines(rs: seq<real>, qs: seq<real>, ys: seq<real>, w: real) {
    |rs| == |qs| == |ys| && forall i :: 0 <= i < |rs| ==> rs[i] == qs[i] - ys[i] + w
  }

  lemma {:induction false} TotalCombines(rs: seq<real>, qs: seq<real>, ys: seq<real>, w: real)
    requires Combines(rs, qs, ys, w)
    ensures Total(rs) == Total(qs) - Total(ys) + Product(|rs| as real, w)
  {
    var n := |rs| - 1;
    if n >= 0 {
      TotalCombines(rs[..n], qs[..n], ys[..n], w);
      Distribute(w, n as real, 1.0);
    }
  }

  lemma SquareExpands(x: real, c: real)
    ensures Square(x - c) == Square(x) - (2.0 * c) * x + Square(c)
  {
  }

  lemma DeviationAt(xs: seq<Sample>, c: real, i: nat)
    requires i < |xs|
    ensures Deviations(xs, c)[i] == Squares(xs)[i] - Scaled(2.0 * c, Values(xs))[i] + Square(c)
  {
    SquareExpands(xs[i].x, c);
    assert Scaled(2.0 * c, Values(xs))[i] == Product(2.0 * c, xs[i].x);
  }

  lemma DeviationsCombine(xs: seq<Sample>, c: real)
    ensures Combines(Deviations(xs, c), Squares(xs), Scaled(2.0 * c, Values(xs)), Square(c))
  {
    forall i | 0 <= i < |xs|
      ensures Deviations(xs, c)[i] == Squares(xs)[i] - Scaled(2.0 * c, Values(xs))[i] + Square(c)
    {
      DeviationAt(xs, c, i);
    }
  }

  lemma {:induction false} DeviationsAre(xs: seq<Sample>, c: real)
    ensures Total(Deviations(xs, c))
         == Total(Squares(xs)) - Product(2.0 * c, Total(Values(xs))) + Product(|xs| as real, Square(c))
  {
    DeviationsCombine(xs, c);
    TotalCombines(Deviations(xs, c), Squares(xs), Scaled(2.0 * c, Values(xs)), Square(c));
    TotalScaled(2.0 * c, Values(xs));
  }

  lemma DeviationsNotNegative(xs: seq<Sample>, c: real)
    ensures Total(Deviations(xs, c)) >= 0.0
  {
    TotalNotNegative(Deviations(xs, c));
  }

  /** One step of the variance: `q` is the sum of squares, `n` the count and `m` the mean before, `m1` the
      mean after the step. */
  lemma VarianceStep(q: real, n: real, m: real, x: real, m1: real)
    requires (n + 1.0) * m1 == n * m + x
    ensures q - n * m * m + (x - m) * (x - m1) == q + x * x - (n + 1.0) * m1 * m1
  {
    assert (x - m) * (x - m1) == x * x - x * m1 - m * x + m * m1;
    assert (n + 1.0) * m1 * m1 == (n * m + x) * m1 == n * m * m1 + x * m1;
    assert m * ((n + 1.0) * m1) == m * (n * m + x);
    assert m * ((n + 1.0) * m1) == n * m * m1 + m * m1;
    assert m * (n * m + x) == n * m * m + m * x;
  }

  /** Sum and mean fit the total `t`, and the squared deviations the total `q` of the squares. */
  ghost predicate Fits(v: Stats, t: real, q: real) {
    v.count > 0.0 && v.sum == t && v.count * v.mean == t && v.m2 == q - v.count * v.mean * v.mean
  }

  lemma UpdateFits(v: Stats, s: Sample, t: real, q: real)
    requires Fits(v, t, q)
    ensures Fits(Update(v, s), t + s.x, q + Square(s.x))
  {
    var w := Update(v, s);
    MeanStep(v.count, v.mean, s.x);
    assert w.count * w.mean == t + s.x;
    VarianceStep(q, v.count, v.mean, s.x, w.mean);
  }

  lemma Snoc(xs: seq<Sample>)
    requires xs != []
    ensures var h, s := xs[..|xs| - 1], xs[|xs| - 1];
            Total(Values(xs)) == Total(Values(h)) + s.x && Total(Squares(xs)) == Total(Squares(h)) + Square(s.x)
  {
    var n := |xs| - 1;
    assert Values(xs)[..n] == Values(xs[..n]);
    assert Squares(xs)[..n] == Squares(xs[..n]);
  }

  lemma {:induction false} FoldFits(xs: seq<Sample>)
    requires xs != []
    ensures Fits(Fold(xs), Total(Values(xs)), Total(Squares(xs)))
  {
    var n := |xs| - 1;
    var h, s := xs[..n], xs[n];
    Snoc(xs);
    if n > 0 {
      FoldFits(h);
      UpdateFits(Fold(h), s, Total(Values(h)), Total(Squares(h)));
    } else {
      assert Values(h) == [] && Squares(h) == [];
    }
  }

  lemma MeanStep(n: real, m: real, x: real)
    requires n > 0.0
    ensures (n + 1.0) * (m + (x - m) / (n + 1.0)) == n * m + x
  {
    var k := n + 1.0;
    assert k * ((x - m) / k) == x - m;
  }

  lemma MeanIs(n: real, m: real, t: real)
    requires n > 0.0 && n * m == t
    ensures m == t / n
  {
  }

  lemma MeanSquare(t: real, n: real, m: real)
    requires n * m == t
    ensures Product(2.0 * m, t) - Product(n, Square(m)) == n * m * m
  {
    assert m * t == n * m * m;
  }

  lemma {:induction false} DeviationsFromMean(xs: seq<Sample>, v: Stats)
    requires Fits(v, Total(Values(xs)), Total(Squares(xs))) && v.count == |xs| as real
    ensures v.m2 == Total(Deviations(xs, v.mean))
  {
    DeviationsAre(xs, v.mean);
    MeanSquare(Total(Values(xs)), v.count, v.mean);
  }

  /** The running mean and squared deviations are those of the whole history. */
  lemma {:induction false} MeanAndDeviations(xs: seq<Sample>)
    requires xs != []
    ensures var v := Fold(xs);
            && v.sum == Total(Values(xs))
            && v.mean == Mean(xs)
            && v.m2 == Total(Deviations(xs, Mean(xs))) >= 0.0
  {
    FoldFits(xs);
    var v := Fold(xs);
    MeanIs(v.count, v.mean, Total(Values(xs)));
    DeviationsFromMean(xs, v);
    DeviationsNotNegative(xs, v.mean);
  }

  lemma {:induction false} MinAndMax(xs: seq<Sample>)
    requires xs != []
    ensures var v := Fold(xs); v.min <= v.max && IsMin(xs, v.min) && IsMax(xs, v.max)
  {
    var n := |xs| - 1;
    if n > 0 {
      var h := xs[..n];
      MinAndMax(h);
      var v := Fold(h);
      var i :| 0 <= i < n && h[i].x == v.min;
      var j :| 0 <= j < n && h[j].x == v.max;
      assert xs[i].x == v.min && xs[j].x == v.max;
      assert forall k :: 0 <= k < n ==> h[k] == xs[k];
    }
  }

  lemma {:induction false} BaseIsFirst(xs: seq<Sample>)
    requires xs != []
    ensures Fold(xs).base == xs[0].x && Fold(xs).baseTime == xs[0].t
  {
    if |xs| > 1 {
      BaseIsFirst(xs[..|xs| - 1]);
    }
  }

  lemma {:induction false} RateIsRight(xs: seq<Sample>)
    requires xs != []
    ensures Fold(xs).rate == RateOf(xs)
  {
    if |xs| > 1 {
      var h := xs[..|xs| - 1];
      RateIsRight(h);
      BaseIsFirst(h);
      assert h[0] == xs[0];
      assert LastElsewhen(xs) < |h| ==> LastElsewhen(xs) == LastElsewhen(h);
    }
  }

  /** Difference and interval are those between the last sample and the first; the rate is that of the last
      sample with another time than the first, if there is one. */
  lemma {:induction false} DiffAndRate(xs: seq<Sample>)
    requires xs != []
    ensures var v := Fold(xs);
            var last := xs[|xs| - 1];
            && v.base == xs[0].x && v.baseTime == xs[0].t
            && v.diff == last.x - xs[0].x && v.interval == last.t - xs[0].t
            && v.rate == RateOf(xs)
  {
    BaseIsFirst(xs);
    if |xs| > 1 {
      BaseIsFirst(xs[..|xs| - 1]);
    }
    RateIsRight(xs);
  }

  /** A rate is negative exactly if value and time of the sample it comes from lie on different sides of
      those of the first sample. A difference that is not negative does not rule that out. */
  lemma {:induction false} SignOfRate(xs: seq<Sample>)
    requires xs != []
    ensures var j := LastElsewhen(xs);
            PerSecond(RateOf(xs)) >= 0.0
            <==> j < 0 || xs[j].x == xs[0].x || (xs[j].x > xs[0].x <==> xs[j].t > xs[0].t)
  {
    var j := LastElsewhen(xs);
    if j >= 0 {
      SignOfSlope(xs[j].x - xs[0].x, xs[j].t - xs[0].t);
    }
  }

  lemma SignOfSlope(dx: real, ns: int)
    requires ns != 0
    ensures PerSecond(Slope(dx, ns)) >= 0.0 <==> dx == 0.0 || (dx > 0.0 <==> ns > 0)
  {
    var b := Seconds(ns);
    assert b > 0.0 <==> ns > 0;
    assert (dx / b) * b == dx;
  }

  /** The running statistics are those of the whole history. */
  ghost predicate Describes(v: Stats, xs: seq<Sample>) {
    && xs != []
    && v.count == |xs| as real
    && IsMin(xs, v.min) && IsMax(xs, v.max)
    && v.sum == Total(Values(xs)) && v.mean == Mean(xs) && v.m2 == Total(Deviations(xs, Mean(xs)))
    && v.diff == xs[|xs| - 1].x - xs[0].x && v.interval == xs[|xs| - 1].t - xs[0].t
    && v.rate == RateOf(xs)
  }

  lemma {:induction false} FoldDescribes(xs: seq<Sample>)
    requires xs != []
    ensures Describes(Fold(xs), xs)
  {
    MinAndMax(xs);
    MeanAndDeviations(xs);
    DiffAndRate(xs);
  }
}
