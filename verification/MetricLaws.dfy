/** What the averaged metrics guarantee, for every set of query outcomes. */
module MetricLaws {
  import opened Common
  import opened Metrics

  // ----- averages keep inequalities

  ghost predicate BoundAt(o: QueryOutcome, f: Score, g: Score, a: real, b: real) { f(o) <= a * g(o) + b }

  lemma {:induction false} SumBound(os: seq<QueryOutcome>, f: Score, g: Score, a: real, b: real)
    requires forall o | o in os :: BoundAt(o, f, g, a, b)
    ensures Sum(os, f) <= a * Sum(os, g) + b * |os| as real
  {
    if os != [] {
      assert BoundAt(os[0], f, g, a, b);
      SumBound(os[1..], f, g, a, b);
      AddBounds(f(os[0]), g(os[0]), Sum(os[1..], f), Sum(os[1..], g), a, b, |os[1..]| as real, |os| as real);
    }
  }

  lemma AddBounds(f: real, g: real, fs: real, gs: real, a: real, b: real, m: real, n: real)
    requires f <= a * g + b && fs <= a * gs + b * m && n == m + 1.0
    ensures f + fs <= a * (g + gs) + b * n
  {
    assert a * (g + gs) == a * g + a * gs;
    assert b * n == b * m + b;
  }

  lemma DivideBound(f: real, g: real, a: real, b: real, n: real)
    requires n > 0.0 && f <= a * g + b * n
    ensures f / n <= a * (g / n) + b
  {
    var p, q := f / n, g / n;
    assert p * n == f && q * n == g;
    assert (a * q + b) * n == a * g + b * n;
    if p > a * q + b { StrictlyScaled(a * q + b, p, n); }
  }

  /** A linear bound that holds for every query holds for the averages. */
  lemma MeanBound(os: seq<QueryOutcome>, f: Score, g: Score, a: real, b: real)
    requires forall o | o in os :: BoundAt(o, f, g, a, b)
    requires os != [] || b >= 0.0
    ensures Mean(os, f) <= a * Mean(os, g) + b
  {
    if os != [] {
      SumBound(os, f, g, a, b);
      DivideBound(Sum(os, f), Sum(os, g), a, b, |os| as real);
    }
  }

  /** A query-by-query order carries over to the averages. */
  lemma MeanMonotone(os: seq<QueryOutcome>, f: Score, g: Score)
    requires forall o | o in os :: f(o) <= g(o)
    ensures Mean(os, f) <= Mean(os, g)
  {
    forall o | o in os ensures BoundAt(o, f, g, 1.0, 0.0) {}
    MeanBound(os, f, g, 1.0, 0.0);
  }

  lemma MeanAtMostOne(os: seq<QueryOutcome>, f: Score)
    requires forall o | o in os :: f(o) <= 1.0
    ensures Mean(os, f) <= 1.0
  {
    forall o | o in os ensures BoundAt(o, f, f, 0.0, 1.0) {}
    MeanBound(os, f, f, 0.0, 1.0);
  }

  lemma MeanNonNegative(os: seq<QueryOutcome>, f: Score)
    requires forall o | o in os :: f(o) >= 0.0
    ensures Mean(os, f) >= 0.0
  {
    var zero: Score := _ => 0.0;
    MeanMonotone(os, zero, f);
    MeanOfZero(os, zero);
  }

  /** Averaged over any queries: 0 <= recall <= hit rate <= 1, and both grow with k. */
  lemma MeanRecallWithinHit(os: seq<QueryOutcome>, k: nat, m: nat)
    requires k <= m
    ensures 0.0 <= Mean(os, RecallScore(k)) <= Mean(os, HitScore(k)) <= 1.0
    ensures Mean(os, RecallScore(k)) <= Mean(os, RecallScore(m))
    ensures Mean(os, HitScore(k)) <= Mean(os, HitScore(m))
  {
    var recall, hit := RecallScore(k), HitScore(k);
    forall o | o in os
      ensures 0.0 <= recall(o) <= hit(o) <= 1.0 && recall(o) <= RecallScore(m)(o) && hit(o) <= HitScore(m)(o)
    {
      RecallWithinHit(o, k, m);
    }
    MeanNonNegative(os, recall);
    MeanMonotone(os, recall, hit);
    MeanAtMostOne(os, hit);
    MeanMonotone(os, recall, RecallScore(m));
    MeanMonotone(os, hit, HitScore(m));
  }

  lemma {:induction false} MeanOfZero(os: seq<QueryOutcome>, f: Score)
    requires forall o | o in os :: f(o) == 0.0
    ensures Sum(os, f) == 0.0 && Mean(os, f) == 0.0
  {
    if os != [] {
      assert os[0] in os && forall o | o in os[1..] :: o in os;
      MeanOfZero(os[1..], f);
    }
  }

  /** MRR lies between hit@k / k and hit@k + (1 - hit@k) / (k + 1), for every k and any queries. */
  lemma MrrSandwich(os: seq<QueryOutcome>, k: nat)
    requires k >= 1
    ensures var h := Mean(os, HitScore(k));
            h / k as real <= Mean(os, ReciprocalRank) <= h + (1.0 - h) / (k + 1) as real
  {
    AsFactors(Mean(os, HitScore(k)), k);
    MrrLower(os, k);
    MrrUpper(os, k);
  }

  lemma MrrLower(os: seq<QueryOutcome>, k: nat)
    requires k >= 1
    ensures (1.0 / k as real) * Mean(os, HitScore(k)) <= Mean(os, ReciprocalRank)
  {
    var c := 1.0 / k as real;
    forall o | o in os ensures c * HitScore(k)(o) <= ReciprocalRank(o) {
      ReciprocalRankSandwich(o, k);
      AsFactors(HitRateAt(o, k), k);
    }
    MeanLowerBound(os, HitScore(k), ReciprocalRank, c);
  }

  lemma MrrUpper(os: seq<QueryOutcome>, k: nat)
    requires k >= 1
    ensures var d := 1.0 / (k + 1) as real; Mean(os, ReciprocalRank) <= (1.0 - d) * Mean(os, HitScore(k)) + d
  {
    var d := 1.0 / (k + 1) as real;
    forall o | o in os ensures BoundAt(o, ReciprocalRank, HitScore(k), 1.0 - d, d) {
      ReciprocalRankSandwich(o, k);
      AsFactors(HitRateAt(o, k), k);
    }
    ReciprocalOrder(1, k + 1);
    MeanBound(os, ReciprocalRank, HitScore(k), 1.0 - d, d);
  }

  lemma AsFactors(h: real, k: nat)
    requires k >= 1
    ensures h / k as real == (1.0 / k as real) * h
    ensures h + (1.0 - h) / (k + 1) as real == (1.0 - 1.0 / (k + 1) as real) * h + 1.0 / (k + 1) as real
  {
  }

  lemma MeanLowerBound(os: seq<QueryOutcome>, g: Score, f: Score, c: real)
    requires forall o | o in os :: c * g(o) <= f(o)
    ensures c * Mean(os, g) <= Mean(os, f)
  {
    var minus: Score := o => -f(o);
    forall o | o in os ensures BoundAt(o, minus, g, -c, 0.0) { assert (-c) * g(o) == -(c * g(o)); }
    MeanBound(os, minus, g, -c, 0.0);
    MeanOfNegation(os, f, minus);
    assert (-c) * Mean(os, g) == -(c * Mean(os, g));
  }

  lemma NegatedQuotient(x: real, n: real)
    requires n > 0.0
    ensures (-x) / n == -(x / n)
  {
  }

  lemma {:induction false} MeanOfNegation(os: seq<QueryOutcome>, f: Score, minus: Score)
    requires forall o | o in os :: minus(o) == -f(o)
    ensures Sum(os, minus) == -Sum(os, f) && Mean(os, minus) == -Mean(os, f)
  {
    if os != [] {
      assert os[0] in os && forall o | o in os[1..] :: o in os;
      MeanOfNegation(os[1..], f, minus);
      NegatedQuotient(Sum(os, f), |os| as real);
    }
  }

  // ----- failed queries

  /** Failed queries come with an empty ranking. */
  ghost predicate FailuresAreEmpty(os: seq<QueryOutcome>) {
    forall o | o in os :: !o.succeeded ==> o.ranked == []
  }

  lemma EmptyRankingScoresZero(o: QueryOutcome, field: nat)
    requires o.ranked == [] && field < 7
    ensures ScoreOf(field)(o) == 0.0
  {
    forall k ensures TopK(o.ranked, k) == {} {}
    forall k ensures Retrieved(o, k) == {} {}
  }

  lemma ScoreNonNegative(o: QueryOutcome, field: nat)
    requires field < 7
    ensures ScoreOf(field)(o) >= 0.0
  {
    RecallWithinHit(o, 1, 1);
    RecallWithinHit(o, 3, 3);
    RecallWithinHit(o, 5, 5);
    if field == 6 {
      ReciprocalRankIsFirst(o);
      if i: nat :| FirstRelevant(o, i) && ReciprocalRank(o) == 1.0 / (i + 1) as real { ReciprocalOrder(1, i + 1); }
    }
  }

  lemma {:induction false} SumSkipsZeros(os: seq<QueryOutcome>, f: Score, p: QueryOutcome -> bool)
    requires forall o | o in os :: !p(o) ==> f(o) == 0.0
    ensures Sum(os, f) == Sum(Filter(os, p), f) && |Filter(os, p)| <= |os|
  {
    if os != [] {
      assert os[0] in os && forall o | o in os[1..] :: o in os;
      SumSkipsZeros(os[1..], f, p);
      if p(os[0]) { SumCons(os[0], Filter(os[1..], p), f); }
    }
  }

  lemma {:induction false} SumNonNegative(os: seq<QueryOutcome>, f: Score)
    requires forall o | o in os :: f(o) >= 0.0
    ensures Sum(os, f) >= 0.0
  {
    if os != [] {
      assert os[0] in os && forall o | o in os[1..] :: o in os;
      SumNonNegative(os[1..], f);
    }
  }

  /** s / n <= s / m for a smaller divisor, also when the smaller one is an empty average. */
  lemma LargerCountLowersMean(s: real, m: nat, n: nat)
    requires s >= 0.0 && 0 < m <= n
    ensures s / n as real <= s / m as real
  {
    var x, y, d := m as real, n as real, s / n as real;
    assert d * y == s;
    assert d >= 0.0 by { if d < 0.0 { StrictlyScaled(d, 0.0, y); } }
    DivideOrder(d * x, s, x) by { assert d * (y - x) >= 0.0; }
    assert (d * x) / x == d;
  }

  lemma FailuresAddNothing(os: seq<QueryOutcome>, field: nat)
    requires FailuresAreEmpty(os) && field < 7
    ensures Sum(os, ScoreOf(field)) == Sum(Filter(os, Succeeded), ScoreOf(field)) >= 0.0
    ensures |Filter(os, Succeeded)| <= |os|
  {
    var f := ScoreOf(field);
    forall o | o in os ensures (!Succeeded(o) ==> f(o) == 0.0) && f(o) >= 0.0 {
      ScoreNonNegative(o, field);
      if !o.succeeded { EmptyRankingScoresZero(o, field); }
    }
    SumSkipsZeros(os, f, Succeeded);
    SumNonNegative(os, f);
  }

  lemma FailuresLowerMeans(os: seq<QueryOutcome>, field: nat)
    requires FailuresAreEmpty(os) && field < 7
    ensures Mean(os, ScoreOf(field)) <= Mean(Filter(os, Succeeded), ScoreOf(field))
  {
    var good := Filter(os, Succeeded);
    FailuresAddNothing(os, field);
    if |good| > 0 { LargerCountLowersMean(Sum(os, ScoreOf(field)), |good|, |os|); }
  }

  /**
   Counting failed queries in never raises a score: each overall score times the number of queries equals the
   successful-only score times the number of successes, so it is never the larger one.
   */
  lemma OverallWithinSuccessful(os: seq<QueryOutcome>, field: nat)
    requires FailuresAreEmpty(os) && field < 7
    ensures var overall, successful := Quality(os), Quality(Filter(os, Succeeded));
            && Weighted(overall, field) == Weighted(successful, field)
            && successful.queryCount == overall.successfulCount <= overall.queryCount
            && Field(overall, field) <= Field(successful, field)
  {
    FailuresAddNothing(os, field);
    WeightedIsSum(os, field);
    WeightedIsSum(Filter(os, Succeeded), field);
    FailuresLowerMeans(os, field);
    FieldIsMean(os, field);
    FieldIsMean(Filter(os, Succeeded), field);
  }

  // ----- slices

  /** The sums of a score over the slices with the given values, added up. */
  function SliceSums(os: seq<QueryOutcome>, key: Key, values: seq<string>, f: Score): real {
    if values == [] then 0.0 else Sum(Slice(os, key, values[0]), f) + SliceSums(os, key, values[1..], f)
  }

  function SlicedCount(os: seq<QueryOutcome>, key: Key, values: seq<string>): nat {
    if values == [] then 0 else |Slice(os, key, values[0])| + SlicedCount(os, key, values[1..])
  }

  lemma {:induction false} SumSplits(os: seq<QueryOutcome>, f: Score, p: QueryOutcome -> bool, q: QueryOutcome -> bool, r: QueryOutcome -> bool)
    requires forall o | o in os :: (r(o) <==> p(o) || q(o)) && !(p(o) && q(o))
    ensures Sum(Filter(os, r), f) == Sum(Filter(os, p), f) + Sum(Filter(os, q), f)
    ensures |Filter(os, r)| == |Filter(os, p)| + |Filter(os, q)|
  {
    if os != [] {
      var o, rest := os[0], os[1..];
      assert o in os && forall x | x in rest :: x in os;
      SumSplits(rest, f, p, q, r);
      FilterSum(os, f, p);
      FilterSum(os, f, q);
      FilterSum(os, f, r);
    }
  }

  lemma FilterSum(os: seq<QueryOutcome>, f: Score, p: QueryOutcome -> bool)
    requires os != []
    ensures Sum(Filter(os, p), f) == (if p(os[0]) then f(os[0]) else 0.0) + Sum(Filter(os[1..], p), f)
    ensures |Filter(os, p)| == (if p(os[0]) then 1 else 0) + |Filter(os[1..], p)|
  {
    if p(os[0]) { SumCons(os[0], Filter(os[1..], p), f); }
  }

  lemma {:induction false} FilterAll(os: seq<QueryOutcome>, p: QueryOutcome -> bool)
    requires forall o | o in os :: p(o)
    ensures Filter(os, p) == os
  {
    if os != [] {
      assert os[0] in os && forall x | x in os[1..] :: x in os;
      FilterAll(os[1..], p);
    }
  }

  lemma {:induction false} FilterNone(os: seq<QueryOutcome>, p: QueryOutcome -> bool)
    requires forall o | o in os :: !p(o)
    ensures Filter(os, p) == []
  {
    if os != [] {
      assert os[0] in os && forall x | x in os[1..] :: x in os;
      FilterNone(os[1..], p);
    }
  }

  lemma {:induction false} SlicesAddUp(os: seq<QueryOutcome>, key: Key, values: seq<string>, f: Score)
    requires Distinct(values)
    ensures SliceSums(os, key, values, f) == Sum(Filter(os, o => key(o) in values), f)
    ensures SlicedCount(os, key, values) == |Filter(os, o => key(o) in values)|
  {
    if values == [] {
      FilterNone(os, o => key(o) in values);
    } else {
      var v, rest := values[0], values[1..];
      SlicesAddUp(os, key, rest, f);
      assert v !in rest;
      SumSplits(os, f, o => key(o) == v, o => key(o) in rest, o => key(o) in values);
    }
  }

  /**
   When every query has one of the expected values, as a validated dataset guarantees, the slices
   partition the queries: sums over them, and their counts, add up to those of all queries.
   */
  lemma SlicesPartition(os: seq<QueryOutcome>, key: Key, values: seq<string>, f: Score)
    requires Distinct(values) && forall o | o in os :: key(o) in values
    ensures SliceSums(os, key, values, f) == Sum(os, f)
    ensures SlicedCount(os, key, values) == |os|
  {
    SlicesAddUp(os, key, values, f);
    FilterAll(os, o => key(o) in values);
  }

  lemma ThreeSlices(os: seq<QueryOutcome>, key: Key, a: string, b: string, c: string, f: Score)
    requires a != b && b != c && a != c && forall o | o in os :: key(o) in [a, b, c]
    ensures Sum(Slice(os, key, a), f) + Sum(Slice(os, key, b), f) + Sum(Slice(os, key, c), f) == Sum(os, f)
  {
    SlicesPartition(os, key, [a, b, c], f);
    assert [a, b, c][1..] == [b, c] && [b, c][1..] == [c] && [c][1..] == [];
    assert SliceSums(os, key, [c], f) == Sum(Slice(os, key, c), f);
    assert SliceSums(os, key, [b, c], f) == Sum(Slice(os, key, b), f) + SliceSums(os, key, [c], f);
  }

  /** Count-weighted, the three qualities of a breakdown add up to the overall quality. */
  lemma QualitiesAddUp(os: seq<QueryOutcome>, key: Key, a: string, b: string, c: string, field: nat)
    requires field < 7 && a != b && b != c && a != c && forall o | o in os :: key(o) in [a, b, c]
    ensures Weighted(Quality(Slice(os, key, a)), field) + Weighted(Quality(Slice(os, key, b)), field)
            + Weighted(Quality(Slice(os, key, c)), field) == Weighted(Quality(os), field)
  {
    ThreeSlices(os, key, a, b, c, ScoreOf(field));
    WeightedIsSum(os, field);
    WeightedIsSum(Slice(os, key, a), field);
    WeightedIsSum(Slice(os, key, b), field);
    WeightedIsSum(Slice(os, key, c), field);
  }

  /** A breakdown of a report into the three named slices. */
  ghost predicate AddsUp(slices: map<string, QualityMetrics>, a: string, b: string, c: string, overall: QualityMetrics, field: nat)
    requires field < 7
  {
    && a in slices && b in slices && c in slices
    && Weighted(slices[a], field) + Weighted(slices[b], field) + Weighted(slices[c], field) == Weighted(overall, field)
  }

  /** Both breakdowns of a report add up to its overall quality, in every score. */
  lemma ReportSlicesAddUp(measured: Measurements, price: Option<real>, field: nat)
    requires field < 7
    requires forall o | o in measured.outcomes :: o.language in LANGUAGES && o.scenario in SCENARIOS
    ensures var m := ComputeMetrics(measured, price);
            && AddsUp(m.byLanguage, "kk", "ru", "mixed", m.overall, field)
            && AddsUp(m.byScenario, "same_language", "cross_language", "mixed", m.overall, field)
  {
    var os := measured.outcomes;
    assert "kk" in LANGUAGES && "ru" in LANGUAGES && "mixed" in LANGUAGES;
    assert "same_language" in SCENARIOS && "cross_language" in SCENARIOS && "mixed" in SCENARIOS;
    assert |"kk"| != |"mixed"| && |"same_language"| != |"cross_language"| && "kk"[0] != "ru"[0] && "ru"[0] != "mixed"[0];
    forall o | o in os ensures Language(o) in LANGUAGES && Scenario(o) in SCENARIOS {}
    QualitiesAddUp(os, Language, "kk", "ru", "mixed", field);
    QualitiesAddUp(os, Scenario, "same_language", "cross_language", "mixed", field);
  }

  /** In a report whose failed queries have empty rankings no overall score exceeds the successful-only one. */
  lemma ReportOverallWithinSuccessful(measured: Measurements, price: Option<real>, field: nat)
    requires field < 7 && FailuresAreEmpty(measured.outcomes)
    ensures var m := ComputeMetrics(measured, price);
            && Field(m.overall, field) <= Field(m.successfulOnly, field)
            && Weighted(m.overall, field) == Weighted(m.successfulOnly, field)
            && m.overall.queryCount == |measured.outcomes| && m.successfulOnly.queryCount == m.overall.successfulCount
  {
    OverallWithinSuccessful(measured.outcomes, field);
  }
}
