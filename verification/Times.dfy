/** Aligning points in time to an interval (internal/internal.go). A time is its distance from Go's zero
    time in nanoseconds, without a monotonic clock reading; a duration is a number of nanoseconds. */
module Times {

  /** Go's Time.Truncate: round down to a multiple of `d` since the zero time. */
  function Truncate(t: int, d: int): int {
    if d <= 0 then t else t - t % d
  }

  function AlignTime(t: int, interval: int): int {
    var truncated := Truncate(t, interval);
    if truncated == t then t else truncated + interval
  }

  /** Go's Duration.Seconds. */
  function Seconds(ns: int): (s: real)
    ensures s * 1000000000.0 == ns as real
  {
    ns as real / 1000000000.0
  }

  /** What RandomDuration(max) can return. */
  predicate Drawn(max: nat, d: int) {
    if max == 0 then d == 0 else 0 <= d < max
  }

  lemma NonZeroProduct(x: int, d: int)
    requires d >= 1 && x != 0
    ensures x * d >= d || x * d <= -d
  {
    if x >= 1 {
      assert (x - 1) * d >= 0;
    } else {
      assert (-x - 1) * d >= 0;
    }
  }

  lemma MultipleOf(q: int, d: int)
    requires d >= 1
    ensures (q * d) % d == 0
  {
    var p := (q * d) / d;
    assert (q - p) * d == (q * d) % d;
    if q != p {
      NonZeroProduct(q - p, d);
    }
  }

  /** A multiple of `d` plus a multiple of `d` is a multiple of `d`. */
  lemma NextMultiple(a: int, k: int, d: int)
    requires d >= 1 && a % d == 0
    ensures (a + k * d) % d == 0
  {
    assert a == (a / d) * d;
    assert a + k * d == (a / d + k) * d;
    MultipleOf(a / d + k, d);
  }

  /** Multiples of `d` less than `d` apart are equal. */
  lemma MultiplesApart(a: int, b: int, d: int)
    requires d >= 1 && a % d == 0 && b % d == 0 && -d < a - b < d
    ensures a == b
  {
    var p, q := a / d, b / d;
    assert a == p * d;
    assert b == q * d;
    assert (p - q) * d == a - b;
    if p != q {
      NonZeroProduct(p - q, d);
    }
  }

  /** AlignTime is the first multiple of the interval that is not before `t`. */
  lemma AlignIsFirstMultiple(t: int, interval: int, r: int)
    requires interval >= 1
    ensures r == AlignTime(t, interval) <==> r % interval == 0 && t <= r < t + interval
  {
    var a := AlignTime(t, interval);
    assert t - t % interval == (t / interval) * interval;
    MultipleOf(t / interval, interval);
    NextMultiple(t - t % interval, 1, interval);
    assert a % interval == 0 && t <= a < t + interval;
    if r % interval == 0 && t <= r < t + interval {
      MultiplesApart(r, a, interval);
    }
  }
}
