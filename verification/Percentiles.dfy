/** The linear-interpolated percentile of the latency report. */
module Percentiles {
  import opened Sorting

  lemma ProductNonNegative(x: real, y: real)
    requires x >= 0.0 && y >= 0.0
    ensures x * y >= 0.0
  {
  }

  lemma ScaledOrder(x: real, y: real, c: real)
    requires x <= y && c >= 0.0
    ensures x * c <= y * c
  {
    ProductNonNegative(y - x, c);
    assert (y - x) * c == y * c - x * c;
  }

  predicate AtMost(x: real, y: real) { x <= y }

  function Ceiling(r: real): int { -((-r).Floor) }

  function Interpolate(a: real, b: real, t: real): real { a + (b - a) * t }

  /** The value at a possibly fractional rank of an ascending sequence. */
  function AtRank(s: seq<real>, rank: real): real
    requires 0.0 <= rank <= (|s| - 1) as real
  {
    var lower, upper := rank.Floor, Ceiling(rank);
    if lower == upper then s[lower]
    else Interpolate(s[lower], s[upper], rank - lower as real)
  }

  function RankOf(n: nat, fraction: real): real { fraction * (n as real - 1.0) }

  lemma RankInRange(n: nat, fraction: real)
    requires n > 0 && 0.0 <= fraction <= 1.0
    ensures 0.0 <= RankOf(n, fraction) <= (n - 1) as real
  {
    var c := n as real - 1.0;
    assert c == (n - 1) as real >= 0.0;
    ScaledOrder(0.0, fraction, c);
    ScaledOrder(fraction, 1.0, c);
    assert 0.0 * c == 0.0 && 1.0 * c == c;
  }

  function Percentile(values: seq<real>, fraction: real): real
    requires 0.0 <= fraction <= 1.0
  {
    var s := Sort(values, AtMost);
    if s == [] then 0.0
    else
      RankInRange(|s|, fraction);
      AtRank(s, RankOf(|s|, fraction))
  }

  lemma AtMostIsTotalOrder()
    ensures TotalOrder(AtMost)
  {
  }

  /** The order of the values does not matter. */
  lemma PercentileIgnoresOrder(a: seq<real>, b: seq<real>, fraction: real)
    requires 0.0 <= fraction <= 1.0 && multiset(a) == multiset(b)
    ensures Percentile(a, fraction) == Percentile(b, fraction)
  {
    AtMostIsTotalOrder();
    SortIgnoresInputOrder(a, b, AtMost);
  }

  lemma Between(a: real, b: real, t: real)
    requires a <= b && 0.0 <= t <= 1.0
    ensures a <= Interpolate(a, b, t) <= b
  {
    ProductNonNegative(b - a, t);
    ProductNonNegative(b - a, 1.0 - t);
    assert (b - a) * (1.0 - t) == (b - a) - (b - a) * t;
  }

  /** An interpolated value lies between its two neighbours, which coincide at a whole rank. */
  lemma AtRankBetween(s: seq<real>, rank: real)
    requires Sorted(s, AtMost) && 0.0 <= rank <= (|s| - 1) as real
    ensures 0 <= rank.Floor <= Ceiling(rank) <= rank.Floor + 1 && Ceiling(rank) < |s|
    ensures s[rank.Floor] <= AtRank(s, rank) <= s[Ceiling(rank)]
  {
    var lower, upper := rank.Floor, Ceiling(rank);
    if lower != upper {
      assert AtMost(s[lower], s[upper]);
      Between(s[lower], s[upper], rank - lower as real);
    }
  }

  lemma SortedMember(values: seq<real>, i: nat)
    requires i < |Sort(values, AtMost)|
    ensures Sort(values, AtMost)[i] in values
  {
    AtMostIsTotalOrder();
    SortProperties(values, AtMost);
    assert Sort(values, AtMost)[i] in multiset(Sort(values, AtMost));
  }

  /** A percentile lies between any lower and any upper bound of the values, so between minimum and maximum. */
  lemma PercentileWithinValues(values: seq<real>, fraction: real, low: real, high: real)
    requires 0.0 <= fraction <= 1.0 && values != [] && forall v | v in values :: low <= v <= high
    ensures low <= Percentile(values, fraction) <= high
  {
    var s := Sort(values, AtMost);
    AtMostIsTotalOrder();
    SortProperties(values, AtMost);
    RankInRange(|s|, fraction);
    var rank := RankOf(|s|, fraction);
    AtRankBetween(s, rank);
    SortedMember(values, rank.Floor);
    SortedMember(values, Ceiling(rank));
  }

  lemma AtWholeRank(s: seq<real>, k: nat)
    requires k < |s|
    ensures AtRank(s, k as real) == s[k]
  {
    assert (k as real).Floor == Ceiling(k as real) == k;
  }

  /** At a whole rank the percentile is the sorted element there: 0 gives the minimum and 1 the maximum. */
  lemma PercentileAtWholeRank(values: seq<real>, fraction: real, k: nat)
    requires 0.0 <= fraction <= 1.0 && k < |values| && RankOf(|values|, fraction) == k as real
    ensures k < |Sort(values, AtMost)| && Percentile(values, fraction) == Sort(values, AtMost)[k]
  {
    AtMostIsTotalOrder();
    SortProperties(values, AtMost);
    var s := Sort(values, AtMost);
    assert |s| == |values|;
    AtWholeRank(s, k);
    assert Percentile(values, fraction) == AtRank(s, RankOf(|s|, fraction));
  }

  /** `s` is an ascending arrangement of the values. */
  ghost predicate Ascending(s: seq<real>, values: seq<real>) {
    multiset(s) == multiset(values) && forall i, j | 0 <= i < j < |s| :: s[i] <= s[j]
  }

  lemma AscendingIsSorted(s: seq<real>, values: seq<real>)
    requires Ascending(s, values)
    ensures s == Sort(values, AtMost)
  {
    AtMostIsTotalOrder();
    SortProperties(values, AtMost);
    SortedUnique(s, Sort(values, AtMost), AtMost);
  }

  lemma AtRankBetweenWhole(s: seq<real>, i: nat, t: real)
    requires 0.0 < t < 1.0 && i + 1 < |s|
    ensures 0.0 <= i as real + t <= (|s| - 1) as real
    ensures AtRank(s, i as real + t) == s[i] + (s[i + 1] - s[i]) * t
  {
    assert (i as real + t).Floor == i;
  }

  function Blend(a: real, b: real, t: real): real { (1.0 - t) * a + t * b }

  lemma Weights(a: real, b: real, t: real)
    ensures a + (b - a) * t == Blend(a, b, t)
  {
    assert (b - a) * t == b * t - a * t && (1.0 - t) * a == a - t * a;
  }

  /**
   Linear interpolation: between the whole ranks i and i + 1 the percentile divides the gap between
   the two neighbours, in the ascending arrangement of the values, as the rank divides the step.
   */
  lemma PercentileIsLinear(values: seq<real>, fraction: real, s: seq<real>, i: nat, t: real)
    requires 0.0 <= fraction <= 1.0 && Ascending(s, values) && i < |s| && 0.0 <= t <= 1.0 && (t > 0.0 ==> i + 1 < |s|)
    requires fraction * (|s| as real - 1.0) == i as real + t
    ensures Percentile(values, fraction) == if t == 0.0 then s[i] else Blend(s[i], s[i + 1], t)
  {
    PercentileAtRank(values, fraction, s);
    LinearAtRank(s, RankOf(|s|, fraction), i, t);
  }

  lemma PercentileAtRank(values: seq<real>, fraction: real, s: seq<real>)
    requires 0.0 <= fraction <= 1.0 && Ascending(s, values) && s != []
    ensures 0.0 <= RankOf(|s|, fraction) <= (|s| - 1) as real
    ensures Percentile(values, fraction) == AtRank(s, RankOf(|s|, fraction))
  {
    AscendingIsSorted(s, values);
    RankInRange(|s|, fraction);
  }

  lemma LinearAtRank(s: seq<real>, rank: real, i: nat, t: real)
    requires i < |s| && 0.0 <= t <= 1.0 && (t > 0.0 ==> i + 1 < |s|) && rank == i as real + t
    ensures 0.0 <= rank <= (|s| - 1) as real
    ensures AtRank(s, rank) == if t == 0.0 then s[i] else Blend(s[i], s[i + 1], t)
  {
    if t == 0.0 {
      AtWholeRank(s, i);
    } else if t == 1.0 {
      AtWholeRank(s, i + 1);
    } else {
      AtRankBetweenWhole(s, i, t);
      Weights(s[i], s[i + 1], t);
    }
  }

  lemma SlopeUp(a: real, b: real, t: real, u: real)
    requires a <= b && t <= u
    ensures Interpolate(a, b, t) <= Interpolate(a, b, u)
  {
    ScaledOrder(t, u, b - a);
    assert t * (b - a) == (b - a) * t && u * (b - a) == (b - a) * u;
  }

  /** A larger rank never has a smaller value, within a segment and across segments. */
  lemma AtRankMonotone(s: seq<real>, p: real, q: real)
    requires Sorted(s, AtMost) && 0.0 <= p <= q <= (|s| - 1) as real
    ensures AtRank(s, p) <= AtRank(s, q)
  {
    AtRankBetween(s, p);
    AtRankBetween(s, q);
    if p.Floor == q.Floor {
      if p.Floor < Ceiling(q) {
        assert AtMost(s[p.Floor], s[Ceiling(q)]);
        SlopeUp(s[p.Floor], s[Ceiling(q)], p - p.Floor as real, q - p.Floor as real);
      }
    } else {
      assert Ceiling(p) <= q.Floor;
      assert Ceiling(p) < q.Floor ==> AtMost(s[Ceiling(p)], s[q.Floor]);
    }
  }

  lemma RankMonotone(n: nat, p: real, q: real)
    requires n > 0 && p <= q
    ensures RankOf(n, p) <= RankOf(n, q)
  {
    ScaledOrder(p, q, n as real - 1.0);
  }

  /** A larger fraction never gives a smaller percentile. */
  lemma PercentileMonotone(values: seq<real>, p: real, q: real)
    requires 0.0 <= p <= q <= 1.0
    ensures Percentile(values, p) <= Percentile(values, q)
  {
    var s := Sort(values, AtMost);
    AtMostIsTotalOrder();
    SortProperties(values, AtMost);
    if s != [] {
      RankInRange(|s|, p);
      RankInRange(|s|, q);
      RankMonotone(|s|, p, q);
      AtRankMonotone(s, RankOf(|s|, p), RankOf(|s|, q));
    }
  }
}
