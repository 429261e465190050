/** The histogram aggregator (plugins/aggregators/histogram/histogram.go), over real numbers. */
module Histogram {

  // Borders and counts.

  datatype Border = NegInf | At(x: real) | PosInf

  /** Borders in ascending order, possibly with repeats. */
  predicate Ascending(bs: seq<real>) {
    forall i, j :: 0 <= i < j < |bs| ==> bs[i] <= bs[j]
  }

  predicate Within(v: real, b: Border) {
    b.PosInf? || (b.At? && v <= b.x)
  }

  predicate NotAbove(a: Border, b: Border) {
    a.NegInf? || b.PosInf? || (a.At? && b.At? && a.x <= b.x)
  }

  /** The number of values that are at most `b`. */
  function AtMost(vs: seq<real>, b: Border): (n: nat)
    ensures n <= |vs|
    ensures b.NegInf? ==> n == 0
    ensures b.PosInf? ==> n == |vs|
  {
    if vs == [] then 0
    else AtMost(vs[..|vs| - 1], b) + if Within(vs[|vs| - 1], b) then 1 else 0
  }

  /** Bucket number `i` reaches from Left (exclusive) to Right (inclusive). */
  function Right(bs: seq<real>, i: nat): Border
    requires i <= |bs|
  {
    if i < |bs| then At(bs[i]) else PosInf
  }

  function Left(bs: seq<real>, i: nat): Border
    requires i <= |bs|
  {
    if i == 0 then NegInf else At(bs[i - 1])
  }

  /** The counts of the buckets say how many of the values lie in each. */
  ghost predicate Counted(bs: seq<real>, counts: seq<nat>, vs: seq<real>) {
    && |counts| == |bs| + 1
    && forall i :: 0 <= i < |counts| ==> counts[i] == AtMost(vs, Right(bs, i)) - AtMost(vs, Left(bs, i))
  }

  lemma {:induction false} AtMostMonotone(vs: seq<real>, a: Border, b: Border)
    requires NotAbove(a, b)
    ensures AtMost(vs, a) <= AtMost(vs, b)
  {
    if vs != [] {
      AtMostMonotone(vs[..|vs| - 1], a, b);
    }
  }

  lemma {:induction false} AtMostSnoc(vs: seq<real>, v: real, b: Border)
    ensures AtMost(vs + [v], b) == AtMost(vs, b) + if Within(v, b) then 1 else 0
  {
    assert (vs + [v])[..|vs|] == vs;
  }

  // Sorting the borders.

  function Place(s: seq<real>, x: real): seq<real> {
    if s == [] then [x]
    else if x <= s[0] then [x] + s
    else [s[0]] + Place(s[1..], x)
  }

  /** Go's sort.Float64s. */
  function Sorted(s: seq<real>): seq<real> {
    if s == [] then [] else Place(Sorted(s[1..]), s[0])
  }

  lemma {:induction false} PlacePermutes(s: seq<real>, x: real)
    ensures multiset(Place(s, x)) == multiset(s + [x])
  {
    if s != [] && x > s[0] {
      PlacePermutes(s[1..], x);
      assert s + [x] == [s[0]] + (s[1..] + [x]);
    }
  }

  lemma {:induction false} PlaceAbove(s: seq<real>, x: real, b: real)
    requires b <= x && forall i :: 0 <= i < |s| ==> b <= s[i]
    ensures forall i :: 0 <= i < |Place(s, x)| ==> b <= Place(s, x)[i]
  {
    if s != [] && x > s[0] {
      PlaceAbove(s[1..], x, b);
    }
  }

  lemma {:induction false} PlaceAscends(s: seq<real>, x: real)
    requires Ascending(s)
    ensures Ascending(Place(s, x))
  {
    if s != [] && x > s[0] {
      PlaceAscends(s[1..], x);
      PlaceAbove(s[1..], x, s[0]);
    }
  }

  lemma {:induction false} SortedIs(s: seq<real>)
    ensures Ascending(Sorted(s)) && multiset(Sorted(s)) == multiset(s)
  {
    if s != [] {
      SortedIs(s[1..]);
      PlacePermutes(Sorted(s[1..]), s[0]);
      PlaceAscends(Sorted(s[1..]), s[0]);
      assert s == [s[0]] + s[1..];
    }
  }

  lemma {:induction false} SortedKeeps(s: seq<real>)
    requires Ascending(s)
    ensures Sorted(s) == s
  {
    if s != [] {
      SortedKeeps(s[1..]);
      assert Place(s[1..], s[0]) == [s[0]] + s[1..];
      assert s == [s[0]] + s[1..];
    }
  }

  lemma {:induction false} NeighboursAscend(s: seq<real>, i: nat, j: nat)
    requires i <= j < |s| && forall k :: 0 <= k < |s| - 1 ==> s[k] < s[k + 1]
    ensures s[i] <= s[j]
  {
    if i < j {
      NeighboursAscend(s, i, j - 1);
      assert s[j - 1] < s[j - 1 + 1];
    }
  }

  /** Sort the borders unless they are strictly ascending already. */
  method SortBuckets(buckets: seq<real>) returns (r: seq<real>)
    ensures r == Sorted(buckets)
    ensures Ascending(r) && multiset(r) == multiset(buckets)
  {
    SortedIs(buckets);
    r := buckets;
    for i := 0 to |buckets|
      invariant r == buckets
      invariant forall k :: 0 <= k < i && k < |buckets| - 1 ==> buckets[k] < buckets[k + 1]
    {
      if i < |buckets| - 1 && buckets[i] >= buckets[i + 1] {
        r := Sorted(buckets);
        return;
      }
    }
    forall i, j | 0 <= i < j < |buckets|
      ensures buckets[i] <= buckets[j]
    {
      NeighboursAscend(buckets, i, j);
    }
    SortedKeeps(buckets);
  }

  // Counting a value.

  /** Go's sort.SearchFloat64s: the first border that is not below the value. */
  method SearchBorder(bs: seq<real>, v: real) returns (index: nat)
    requires Ascending(bs)
    ensures index <= |bs|
    ensures forall k :: 0 <= k < index ==> bs[k] < v
    ensures forall k :: index <= k < |bs| ==> v <= bs[k]
  {
    var i, j := 0, |bs|;
    while i < j
      invariant 0 <= i <= j <= |bs|
      invariant forall k :: 0 <= k < i ==> bs[k] < v
      invariant forall k :: j <= k < |bs| ==> v <= bs[k]
    {
      var h := (i + j) / 2;
      if bs[h] < v {
        i := h + 1;
      } else {
        j := h;
      }
    }
    index := i;
  }

  /** One more value in the bucket that it is found to belong to. */
  lemma {:induction false} CountedSnoc(bs: seq<real>, counts: seq<nat>, vs: seq<real>, v: real, index: nat)
    requires Counted(bs, counts, vs) && index <= |bs|
    requires forall k :: 0 <= k < index ==> bs[k] < v
    requires forall k :: index <= k < |bs| ==> v <= bs[k]
    ensures Counted(bs, counts[index := counts[index] + 1], vs + [v])
  {
    var after := counts[index := counts[index] + 1];
    forall i | 0 <= i < |after|
      ensures after[i] == AtMost(vs + [v], Right(bs, i)) - AtMost(vs + [v], Left(bs, i))
    {
      AtMostSnoc(vs, v, Right(bs, i));
      AtMostSnoc(vs, v, Left(bs, i));
    }
  }

  lemma {:induction false} NothingCounted(bs: seq<real>, counts: seq<nat>)
    requires |counts| == |bs| + 1 && forall i :: 0 <= i < |counts| ==> counts[i] == 0
    ensures Counted(bs, counts, [])
  {
  }

  // Emitting the counts.

  /** A bucket as it is emitted; cumulative ones have no left border tag. */
  datatype Bucket = Bucket(gt: Border, le: Border, count: nat)

  /** The number of values that a bucket claims to hold. */
  function Holds(vs: seq<real>, cumulative: bool, gt: Border, le: Border): int {
    if cumulative then AtMost(vs, le) else AtMost(vs, le) - AtMost(vs, gt)
  }

  /** One bucket for every border and one for the rest, each with the number of values in its range. */
  ghost predicate Emits(bs: seq<real>, cumulative: bool, vs: seq<real>, out: seq<Bucket>) {
    && |out| == |bs| + 1
    && forall i :: 0 <= i < |out| ==>
         && out[i].le == Right(bs, i)
         && out[i].gt == (if cumulative then NegInf else Left(bs, i))
         && out[i].count == Holds(vs, cumulative, out[i].gt, out[i].le)
  }

  method GroupByBuckets(bs: seq<real>, cumulative: bool, counts: seq<nat>, ghost vs: seq<real>)
    returns (out: seq<Bucket>)
    requires Counted(bs, counts, vs)
    ensures Emits(bs, cumulative, vs, out)
  {
    var sum := 0;
    out := [];
    for index := 0 to |counts|
      invariant |out| == index
      invariant cumulative ==> sum == if index == 0 then 0 else AtMost(vs, Right(bs, index - 1))
      invariant forall i :: 0 <= i < index ==>
        && out[i].le == Right(bs, i)
        && out[i].gt == (if cumulative then NegInf else Left(bs, i))
        && out[i].count == Holds(vs, cumulative, out[i].gt, out[i].le)
    {
      var gt := NegInf;
      if !cumulative {
        sum := 0;
        if index > 0 {
          gt := At(bs[index - 1]);
        }
      }
      var le := PosInf;
      if index < |bs| {
        le := At(bs[index]);
      }
      sum := sum + counts[index];
      out := out + [Bucket(gt, le, sum)];
    }
  }

  /** Cumulative counts rise with the right border, count the values up to it, and end with all of them. */
  lemma {:induction false} CumulativeCounts(bs: seq<real>, vs: seq<real>, out: seq<Bucket>)
    requires Ascending(bs) && Emits(bs, true, vs, out)
    ensures forall i :: 0 <= i < |bs| ==> out[i].le == At(bs[i]) && out[i].count == AtMost(vs, At(bs[i]))
    ensures forall i, j :: 0 <= i < j < |out| ==> out[i].count <= out[j].count
    ensures out[|bs|].le == PosInf && out[|bs|].count == |vs|
  {
    forall i, j | 0 <= i < j < |out|
      ensures out[i].count <= out[j].count
    {
      AtMostMonotone(vs, Right(bs, i), Right(bs, j));
    }
  }

  function Total(out: seq<Bucket>): nat {
    if out == [] then 0 else Total(out[..|out| - 1]) + out[|out| - 1].count
  }

  /** Ordinary counts share out all values among the buckets. */
  lemma {:induction false} OrdinaryCounts(bs: seq<real>, vs: seq<real>, out: seq<Bucket>)
    requires Emits(bs, false, vs, out)
    ensures Total(out) == |vs|
  {
    PrefixTotal(bs, vs, out, |bs|);
    assert out[..|out|] == out;
  }

  lemma {:induction false} PrefixTotal(bs: seq<real>, vs: seq<real>, out: seq<Bucket>, n: nat)
    requires Emits(bs, false, vs, out) && n <= |bs|
    ensures Total(out[..n + 1]) == AtMost(vs, Right(bs, n))
  {
    assert out[..n + 1][..n] == out[..n];
    if n > 0 {
      PrefixTotal(bs, vs, out, n - 1);
    }
  }
}
