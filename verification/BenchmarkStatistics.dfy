/** The benchmark's type-7 percentile and Wilson interval, in exact arithmetic. */
module BenchmarkStatistics {
  import opened Prelude
  import Sorting

  // ----- Sorting

  ghost predicate Ordered(s: seq<real>) {
    forall i, j | 0 <= i <= j < |s| :: s[i] <= s[j]
  }

  predicate AtMost(x: real, y: real) {
    x <= y
  }

  /** `sorted(values)`. */
  function Sorted(s: seq<real>): (r: seq<real>)
    ensures |r| == |s|
  {
    Sorting.Sort(s, AtMost)
  }

  lemma SortedIsOrdered(s: seq<real>)
    ensures Ordered(Sorted(s)) && multiset(Sorted(s)) == multiset(s)
  {
    Sorting.SortOrders(s, AtMost);
    assert Sorting.Ordered(Sorted(s), AtMost);
  }

  /** How many samples are at most `y`. */
  function CountLe(s: seq<real>, y: real): nat {
    if s == [] then 0 else (if s[0] <= y then 1 else 0) + CountLe(s[1..], y)
  }

  lemma {:induction false} CountLeAll(s: seq<real>, y: real)
    ensures CountLe(s, y) <= |s|
    ensures (forall v | v in s :: v > y) ==> CountLe(s, y) == 0
  {
    if s != [] {
      CountLeAll(s[1..], y);
      assert s[0] in s;
      assert forall v | v in s[1..] :: v in s;
    }
  }

  /** The k-th smallest sample is at most `y` exactly when more than `k` samples are. */
  lemma {:induction false} OrderStatistic(s: seq<real>, k: nat, y: real)
    requires Ordered(s) && k < |s|
    ensures s[k] <= y <==> CountLe(s, y) > k
  {
    if s[0] > y {
      forall v | v in s
        ensures v > y
      {
        var i :| 0 <= i < |s| && s[i] == v;
        assert s[0] <= s[i];
      }
      CountLeAll(s, y);
      assert s[0] <= s[k];
    } else if k > 0 {
      OrderStatistic(s[1..], k - 1, y);
    }
  }

  lemma {:induction false} CountLeRemove(s: seq<real>, i: nat, y: real)
    requires i < |s|
    ensures CountLe(s, y) == (if s[i] <= y then 1 else 0) + CountLe(s[..i] + s[i + 1..], y)
  {
    var rest := s[..i] + s[i + 1..];
    if i == 0 {
      assert rest == s[1..];
    } else {
      CountLeRemove(s[1..], i - 1, y);
      assert rest[1..] == s[1..][..i - 1] + s[1..][i..];
    }
  }

  lemma {:induction false} CountLePermutation(a: seq<real>, b: seq<real>, y: real)
    requires multiset(a) == multiset(b)
    ensures CountLe(a, y) == CountLe(b, y)
  {
    if a == [] {
      assert |b| == |multiset(b)| == |multiset(a)| == 0;
    } else {
      var x, tail := a[0], a[1..];
      assert a == [x] + tail;
      assert x in multiset(b);
      var i :| 0 <= i < |b| && b[i] == x;
      var rest := b[..i] + b[i + 1..];
      assert b == b[..i] + [x] + b[i + 1..];
      assert multiset(tail) == multiset(a) - multiset{x};
      assert multiset(rest) == multiset(b) - multiset{x};
      CountLePermutation(tail, rest, y);
      CountLeRemove(b, i, y);
    }
  }

  lemma CountLeSorted(s: seq<real>, y: real)
    ensures CountLe(Sorted(s), y) == CountLe(s, y)
  {
    SortedIsOrdered(s);
    CountLePermutation(Sorted(s), s, y);
  }

  /** If at every level at least as many samples of `a` lie below, the sorted samples of `a` lie below those of `b`. */
  lemma SortedBelow(a: seq<real>, b: seq<real>, k: nat)
    requires |a| == |b| && k < |a|
    requires forall y :: CountLe(a, y) >= CountLe(b, y)
    ensures Sorted(a)[k] <= Sorted(b)[k]
  {
    SortedIsOrdered(a);
    SortedIsOrdered(b);
    var y := Sorted(b)[k];
    CountLeSorted(a, y);
    CountLeSorted(b, y);
    OrderStatistic(Sorted(b), k, y);
    OrderStatistic(Sorted(a), k, y);
  }

  lemma {:induction false} CountLeRaised(a: seq<real>, b: seq<real>, y: real)
    requires |a| == |b| && forall i | 0 <= i < |a| :: a[i] <= b[i]
    ensures CountLe(a, y) >= CountLe(b, y)
  {
    if a != [] {
      CountLeRaised(a[1..], b[1..], y);
    }
  }

  // ----- Percentile

  function Ceiling(r: real): int {
    if r.Floor as real == r then r.Floor else r.Floor + 1
  }

  /** Linear interpolation between the two samples around `position`. */
  function Interpolate(s: seq<real>, position: real): real
    requires 0.0 <= position <= (|s| - 1) as real
  {
    var lower, upper := position.Floor, Ceiling(position);
    if lower == upper then s[lower] else s[lower] + (s[upper] - s[lower]) * (position - lower as real)
  }

  function Position(n: nat, quantile: real): (p: real)
    requires n > 0 && 0.0 <= quantile <= 1.0
    ensures 0.0 <= p <= (n - 1) as real
  {
    (n - 1) as real * quantile
  }

  /** `_percentile`. */
  function Percentile(values: seq<real>, quantile: real): Option<real>
    requires 0.0 <= quantile <= 1.0
  {
    if values == [] then None else Some(Interpolate(Sorted(values), Position(|values|, quantile)))
  }

  lemma ProductNonNegative(x: real, y: real)
    requires x >= 0.0 && y >= 0.0
    ensures x * y >= 0.0
  {
  }

  lemma ProductPositive(x: real, y: real)
    requires x > 0.0 && y > 0.0
    ensures x * y > 0.0
  {
  }

  lemma Between(x: real, y: real, f: real)
    requires x <= y && 0.0 <= f <= 1.0
    ensures x <= x + (y - x) * f <= y
  {
    ProductNonNegative(y - x, f);
    ProductNonNegative(y - x, 1.0 - f);
    assert (y - x) * (1.0 - f) == (y - x) - (y - x) * f;
  }

  lemma InterpolateWithin(s: seq<real>, position: real)
    requires Ordered(s) && 0.0 <= position <= (|s| - 1) as real
    ensures s[position.Floor] <= Interpolate(s, position) <= s[Ceiling(position)]
  {
    var lower := position.Floor;
    if lower as real != position {
      Between(s[lower], s[lower + 1], position - lower as real);
    }
  }

  lemma InterpolateMonotone(s: seq<real>, p: real, q: real)
    requires Ordered(s) && 0.0 <= p <= q <= (|s| - 1) as real
    ensures Interpolate(s, p) <= Interpolate(s, q)
  {
    InterpolateWithin(s, p);
    InterpolateWithin(s, q);
    if p.Floor == q.Floor && Ceiling(p) != p.Floor {
      var lower := p.Floor;
      var step := s[lower + 1] - s[lower];
      ProductNonNegative(step, q - p);
      assert step * (q - lower as real) == step * (p - lower as real) + step * (q - p);
    }
  }

  lemma InterpolateRaised(s: seq<real>, t: seq<real>, position: real)
    requires |s| == |t| && (forall i | 0 <= i < |s| :: s[i] <= t[i])
    requires 0.0 <= position <= (|s| - 1) as real
    ensures Interpolate(s, position) <= Interpolate(t, position)
  {
    var lower := position.Floor;
    if lower as real != position {
      var f := position - lower as real;
      Blend(s[lower], s[lower + 1], t[lower], t[lower + 1], f);
    }
  }

  lemma Blend(x: real, y: real, x': real, y': real, f: real)
    requires x <= x' && y <= y' && 0.0 <= f <= 1.0
    ensures x + (y - x) * f <= x' + (y' - x') * f
  {
    ProductNonNegative(x' - x, 1.0 - f);
    ProductNonNegative(y' - y, f);
    assert x' + (y' - x') * f - (x + (y - x) * f) == (x' - x) * (1.0 - f) + (y' - y) * f;
  }

  /** The percentile depends only on which samples there are, not on their order. */
  lemma PercentileIgnoresOrder(a: seq<real>, b: seq<real>, quantile: real)
    requires multiset(a) == multiset(b) && 0.0 <= quantile <= 1.0
    ensures Percentile(a, quantile) == Percentile(b, quantile)
  {
    assert |a| == |multiset(a)| == |multiset(b)| == |b|;
    forall y
      ensures CountLe(a, y) == CountLe(b, y)
    {
      CountLePermutation(a, b, y);
    }
    forall k | 0 <= k < |a|
      ensures Sorted(a)[k] == Sorted(b)[k]
    {
      SortedBelow(a, b, k);
      SortedBelow(b, a, k);
    }
    assert Sorted(a) == Sorted(b);
  }

  /** It never leaves the range of the samples. */
  lemma PercentileWithinSamples(values: seq<real>, quantile: real, lo: real, hi: real)
    requires values != [] && 0.0 <= quantile <= 1.0
    requires forall v | v in values :: lo <= v <= hi
    ensures lo <= Percentile(values, quantile).value <= hi
  {
    var s, p := Sorted(values), Position(|values|, quantile);
    SortedIsOrdered(values);
    InterpolateWithin(s, p);
    SortedWithin(values, lo, hi, p.Floor);
    SortedWithin(values, lo, hi, Ceiling(p));
  }

  lemma SortedWithin(values: seq<real>, lo: real, hi: real, k: nat)
    requires k < |values| && forall v | v in values :: lo <= v <= hi
    ensures lo <= Sorted(values)[k] <= hi
  {
    SortedIsOrdered(values);
    assert Sorted(values)[k] in multiset(Sorted(values));
    assert Sorted(values)[k] in values;
  }

  /** It never falls as the quantile rises. */
  lemma PercentileMonotoneInQuantile(values: seq<real>, p: real, q: real)
    requires values != [] && 0.0 <= p <= q <= 1.0
    ensures Percentile(values, p).value <= Percentile(values, q).value
  {
    SortedIsOrdered(values);
    ProductNonNegative((|values| - 1) as real, q - p);
    assert Position(|values|, q) - Position(|values|, p) == (|values| - 1) as real * (q - p);
    InterpolateMonotone(Sorted(values), Position(|values|, p), Position(|values|, q));
  }

  /** It never falls when samples are raised, although raising them can reorder them. */
  lemma PercentileMonotoneInSamples(a: seq<real>, b: seq<real>, quantile: real)
    requires a != [] && |a| == |b| && 0.0 <= quantile <= 1.0
    requires forall i | 0 <= i < |a| :: a[i] <= b[i]
    ensures Percentile(a, quantile).value <= Percentile(b, quantile).value
  {
    forall y
      ensures CountLe(a, y) >= CountLe(b, y)
    {
      CountLeRaised(a, b, y);
    }
    forall k | 0 <= k < |a|
      ensures Sorted(a)[k] <= Sorted(b)[k]
    {
      SortedBelow(a, b, k);
    }
    InterpolateRaised(Sorted(a), Sorted(b), Position(|a|, quantile));
  }

  // ----- Wilson interval

  const Z := 1.959963984540054

  function Radicand(proportion: real, total: real): real
    requires total > 0.0
  {
    proportion * (1.0 - proportion) / total + Z * Z / (4.0 * total * total)
  }

  function Denominator(total: real): (d: real)
    requires total > 0.0
    ensures d > 1.0
  {
    1.0 + Z * Z / total
  }

  function Center(proportion: real, total: real): real
    requires total > 0.0
  {
    (proportion + Z * Z / (2.0 * total)) / Denominator(total)
  }

  function Margin(root: real, total: real): real
    requires total > 0.0
  {
    Z * root / Denominator(total)
  }

  function Max(x: real, y: real): real {
    if x >= y then x else y
  }

  function Min(x: real, y: real): real {
    if x <= y then x else y
  }

  /** `root` is the square root the code takes. */
  ghost predicate IsRoot(root: real, failures: nat, total: nat)
    requires 0 < total
  {
    root >= 0.0 && root * root == Radicand(failures as real / total as real, total as real)
  }

  /** `_wilson`, given that root. */
  function Wilson(failures: nat, total: nat, root: real): Option<(real, real)> {
    if total == 0 then None
    else
      var n := total as real;
      var proportion := failures as real / n;
      var center, margin := Center(proportion, n), Margin(root, n);
      Some((if failures == 0 then 0.0 else Max(0.0, center - margin),
            if failures == total then 1.0 else Min(1.0, center + margin)))
  }

  lemma SquareStrict(x: real, y: real)
    requires 0.0 <= y < x
    ensures y * y < x * x
  {
    var d := x - y;
    ProductNonNegative(d, y);
    ProductPositive(d, d);
    assert x * x == (y + d) * (y + d) == y * y + 2.0 * (d * y) + d * d;
  }

  lemma SquareOrder(x: real, y: real)
    requires y >= 0.0 && x * x <= y * y
    ensures x <= y
  {
    if x > y {
      SquareStrict(x, y);
    }
  }

  lemma SquareGap(x: real, y: real, gap: real)
    requires y >= 0.0 && gap >= 0.0 && y * y - x * x == gap
    ensures x <= y
  {
    SquareOrder(x, y);
  }

  /** The interval before division: `a` is `z*z/n`, `s` is `z` times the root. */
  lemma WilsonCore(p: real, a: real, s: real)
    requires 0.0 <= p <= 1.0 && a > 0.0 && s >= 0.0
    requires s * s == a * p * (1.0 - p) + a * a / 4.0
    ensures 0.0 <= p + a / 2.0 - s <= p * (1.0 + a) <= p + a / 2.0 + s <= 1.0 + a
    ensures p == 0.0 ==> p + a / 2.0 - s == 0.0
    ensures p == 1.0 ==> p + a / 2.0 + s == 1.0 + a
  {
    var q := 1.0 - p;
    LowGap(p, a, s);
    LowGap(q, a, s);
    MidGap(p, a, s);
    if p == 0.0 {
      SquareOrder(a / 2.0, s);
    }
    if p == 1.0 {
      SquareOrder(a / 2.0, s);
    }
  }

  lemma LowGap(p: real, a: real, s: real)
    requires 0.0 <= p <= 1.0 && a > 0.0 && s >= 0.0
    requires s * s == a * p * (1.0 - p) + a * a / 4.0
    ensures s <= p + a / 2.0
  {
    var low := p + a / 2.0;
    ProductNonNegative(p, p);
    ProductNonNegative(p * p, 1.0 + a);
    assert low * low == p * p + a * p + a * a / 4.0;
    assert a * p * (1.0 - p) == a * p - a * p * p;
    assert p * p * (1.0 + a) == p * p + a * p * p;
    SquareGap(s, low, p * p * (1.0 + a));
  }

  lemma MidGap(p: real, a: real, s: real)
    requires 0.0 <= p <= 1.0 && a > 0.0 && s >= 0.0
    requires s * s == a * p * (1.0 - p) + a * a / 4.0
    ensures -s <= a / 2.0 - a * p <= s
  {
    var mid := a / 2.0 - a * p;
    var spread := a * p * (1.0 - p);
    ProductNonNegative(a, p);
    ProductNonNegative(a * p, 1.0 - p);
    ProductNonNegative(spread, 1.0 + a);
    assert mid * mid == a * a / 4.0 - a * spread by {
      assert mid * mid == a * a / 4.0 - a * a * p + a * a * p * p;
      assert a * spread == a * a * p - a * a * p * p;
    }
    assert spread * (1.0 + a) == spread + a * spread;
    SquareGap(mid, s, spread * (1.0 + a));
    assert (-mid) * (-mid) == mid * mid;
    SquareGap(-mid, s, spread * (1.0 + a));
  }

  lemma Unscale(lo: real, x: real, d: real)
    requires d > 0.0 && lo * d <= x * d
    ensures lo <= x
  {
    if lo > x {
      ProductPositive(lo - x, d);
    }
  }

  lemma UnscaleEqual(x: real, y: real, d: real)
    requires d > 0.0 && x * d == y * d
    ensures x == y
  {
    Unscale(x, y, d);
    Unscale(y, x, d);
  }

  /** Center and margin are those of the core, divided by the denominator. */
  lemma Scaled(p: real, n: real, root: real)
    requires n > 0.0
    ensures Center(p, n) * Denominator(n) == p + Z * Z / n / 2.0
    ensures Margin(root, n) * Denominator(n) == Z * root
    ensures Denominator(n) == 1.0 + Z * Z / n
  {
    assert Z * Z / (2.0 * n) == Z * Z / n / 2.0;
  }

  lemma Distribute(x: real, y: real, d: real)
    ensures (x - y) * d == x * d - y * d && (x + y) * d == x * d + y * d
  {
  }

  lemma BoundsFromCore(p: real, a: real, s: real, center: real, margin: real, d: real)
    requires 0.0 <= p <= 1.0 && a > 0.0 && s >= 0.0 && d == 1.0 + a
    requires s * s == a * p * (1.0 - p) + a * a / 4.0
    requires center * d == p + a / 2.0 && margin * d == s
    ensures 0.0 <= center - margin <= p <= center + margin <= 1.0
    ensures p == 0.0 ==> center - margin == 0.0
    ensures p == 1.0 ==> center + margin == 1.0
  {
    WilsonCore(p, a, s);
    Distribute(center, margin, d);
    FromScaled(p, d, p + a / 2.0 - s, center - margin, p + a / 2.0 + s, center + margin);
  }

  lemma FromScaled(p: real, d: real, low: real, lower: real, high: real, upper: real)
    requires d > 0.0 && lower * d == low && upper * d == high
    requires 0.0 <= low <= p * d <= high <= d
    ensures 0.0 <= lower <= p <= upper <= 1.0
    ensures low == 0.0 ==> lower == 0.0
    ensures high == d ==> upper == 1.0
  {
    Unscale(0.0, lower, d);
    Unscale(lower, p, d);
    Unscale(p, upper, d);
    Unscale(upper, 1.0, d);
    if low == 0.0 {
      UnscaleEqual(lower, 0.0, d);
    }
    if high == d {
      UnscaleEqual(upper, 1.0, d);
    }
  }

  lemma ProportionRange(failures: nat, total: nat)
    requires failures <= total && 0 < total
    ensures var p := failures as real / total as real;
            0.0 <= p <= 1.0 && (failures == 0 <==> p == 0.0) && (failures == total <==> p == 1.0)
  {
    var f, n := failures as real, total as real;
    var p := f / n;
    assert p * n == f;
    Unscale(0.0, p, n);
    Unscale(p, 1.0, n);
    if failures == total {
      UnscaleEqual(p, 1.0, n);
    }
    if failures == 0 {
      UnscaleEqual(p, 0.0, n);
    }
  }

  /** The bounds enclose the proportion, stay in the unit interval without the clamps, and need no special cases. */
  lemma WilsonEnclosesProportion(failures: nat, total: nat, root: real)
    requires failures <= total && 0 < total && IsRoot(root, failures, total)
    ensures var n, p := total as real, failures as real / total as real;
            var (lower, upper) := Wilson(failures, total, root).value;
            && 0.0 <= lower <= p <= upper <= 1.0
            && lower == Center(p, n) - Margin(root, n)
            && upper == Center(p, n) + Margin(root, n)
  {
    var n, p := total as real, failures as real / total as real;
    ProportionRange(failures, total);
    CenterAndMargin(p, n, root);
  }

  lemma CenterAndMargin(p: real, n: real, root: real)
    requires 0.0 <= p <= 1.0 && n > 0.0 && root >= 0.0 && root * root == Radicand(p, n)
    ensures 0.0 <= Center(p, n) - Margin(root, n) <= p <= Center(p, n) + Margin(root, n) <= 1.0
    ensures p == 0.0 ==> Center(p, n) - Margin(root, n) == 0.0
    ensures p == 1.0 ==> Center(p, n) + Margin(root, n) == 1.0
  {
    ScaledRoot(p, n, root);
    Scaled(p, n, root);
    BoundsFromCore(p, Z * Z / n, Z * root, Center(p, n), Margin(root, n), Denominator(n));
  }

  lemma ScaledRoot(p: real, n: real, root: real)
    requires n > 0.0 && root * root == Radicand(p, n)
    ensures var a := Z * Z / n; (Z * root) * (Z * root) == a * p * (1.0 - p) + a * a / 4.0
  {
    var a := Z * Z / n;
    assert (Z * root) * (Z * root) == (Z * Z) * (root * root);
    assert (Z * Z) * (p * (1.0 - p) / n) == a * p * (1.0 - p);
    assert (Z * Z) * (Z * Z / (4.0 * n * n)) == a * a / 4.0;
  }
}
