/** Retrieval quality: Hit Rate@K, Recall@K and MRR, averaged over all queries and over slices of them. */
module Metrics {
  import opened Common
  import opened Percentiles

  datatype QueryOutcome = QueryOutcome(
    ranked: seq<string>, relevant: set<string>, language: string, scenario: string, succeeded: bool)

  datatype QualityMetrics = QualityMetrics(
    queryCount: nat, successfulCount: nat, failedCount: int,
    hitAt1: real, hitAt3: real, hitAt5: real,
    recallAt1: real, recallAt3: real, recallAt5: real,
    mrr: real)

  // ----- scores of one query

  function TopK(ranked: seq<string>, k: nat): set<string> { SeqSet(ranked[..Min(k, |ranked|)]) }

  function HitRateAt(o: QueryOutcome, k: nat): real {
    if exists id :: id in o.relevant && id in TopK(o.ranked, k) then 1.0 else 0.0
  }

  function Retrieved(o: QueryOutcome, k: nat): set<string> { set id | id in o.relevant && id in TopK(o.ranked, k) }

  function RecallAt(o: QueryOutcome, k: nat): real {
    if o.relevant == {} then 0.0 else |Retrieved(o, k)| as real / |o.relevant| as real
  }

  /** The search loop of reciprocal_rank, from some position on. */
  function ReciprocalFrom(ranked: seq<string>, relevant: set<string>, position: nat): real
    requires position >= 1
  {
    if ranked == [] then 0.0
    else if ranked[0] in relevant then 1.0 / position as real
    else ReciprocalFrom(ranked[1..], relevant, position + 1)
  }

  function ReciprocalRank(o: QueryOutcome): real { ReciprocalFrom(o.ranked, o.relevant, 1) }

  /** `i` is the place of the first relevant document. */
  ghost predicate FirstRelevant(o: QueryOutcome, i: nat) {
    i < |o.ranked| && o.ranked[i] in o.relevant && forall j | 0 <= j < i :: o.ranked[j] !in o.relevant
  }

  lemma {:induction false} ReciprocalFromFirst(o: QueryOutcome, from: nat)
    requires from <= |o.ranked| && forall j | 0 <= j < from :: o.ranked[j] !in o.relevant
    ensures var r := ReciprocalFrom(o.ranked[from..], o.relevant, from + 1);
            || (exists i :: FirstRelevant(o, i) && r == 1.0 / (i + 1) as real)
            || (r == 0.0 && forall id | id in o.ranked :: id !in o.relevant)
    decreases |o.ranked| - from
  {
    var rest := o.ranked[from..];
    if rest != [] {
      assert rest[0] == o.ranked[from] && rest[1..] == o.ranked[from + 1..];
      if rest[0] in o.relevant {
        assert FirstRelevant(o, from);
      } else {
        ReciprocalFromFirst(o, from + 1);
      }
    }
  }

  /** MRR's summand is one over the rank of the first relevant document, or zero if there is none. */
  lemma ReciprocalRankIsFirst(o: QueryOutcome)
    ensures || (exists i :: FirstRelevant(o, i) && ReciprocalRank(o) == 1.0 / (i + 1) as real)
            || (ReciprocalRank(o) == 0.0 && forall id | id in o.ranked :: id !in o.relevant)
  {
    assert o.ranked[0..] == o.ranked;
    ReciprocalFromFirst(o, 0);
  }

  lemma RetrievedGrows(o: QueryOutcome, k: nat, m: nat)
    requires k <= m
    ensures Retrieved(o, k) <= Retrieved(o, m) <= o.relevant
  {
    var a, b := Min(k, |o.ranked|), Min(m, |o.ranked|);
    assert o.ranked[..a] == o.ranked[..b][..a];
    forall id | id in o.ranked[..a] ensures id in o.ranked[..b] {}
  }

  lemma DivideOrder(a: real, b: real, n: real)
    requires a <= b && n > 0.0
    ensures a / n <= b / n
  {
    var p, q := a / n, b / n;
    assert p * n == a && q * n == b;
    if p > q { StrictlyScaled(q, p, n); }
  }

  lemma StrictlyScaled(x: real, y: real, c: real)
    requires x < y && c > 0.0
    ensures x * c < y * c
  {
    var d := y - x;
    assert d * c > 0.0;
    assert d * c == y * c - x * c;
  }

  lemma QuotientOrder(a: nat, b: nat, n: nat)
    requires a <= b <= n && n > 0
    ensures 0.0 <= a as real / n as real <= b as real / n as real <= 1.0
  {
    DivideOrder(0.0, a as real, n as real);
    DivideOrder(a as real, b as real, n as real);
    DivideOrder(b as real, n as real, n as real);
  }

  /** More results never lower a score, and recall never exceeds the hit rate. */
  lemma RecallWithinHit(o: QueryOutcome, k: nat, m: nat)
    requires k <= m
    ensures 0.0 <= RecallAt(o, k) <= HitRateAt(o, k) <= 1.0
    ensures RecallAt(o, k) <= RecallAt(o, m)
    ensures HitRateAt(o, k) <= HitRateAt(o, m)
  {
    RetrievedGrows(o, k, m);
    SubsetSize(Retrieved(o, k), Retrieved(o, m));
    SubsetSize(Retrieved(o, m), o.relevant);
    if o.relevant != {} {
      QuotientOrder(|Retrieved(o, k)|, |Retrieved(o, m)|, |o.relevant|);
    }
    if HitRateAt(o, k) == 0.0 {
      assert Retrieved(o, k) == {};
    } else {
      var id :| id in o.relevant && id in TopK(o.ranked, k);
      assert id in Retrieved(o, k);
    }
  }

  /** Document `id` is among the first `k` of the ranking. */
  ghost predicate RankedWithin(o: QueryOutcome, k: nat, id: string) {
    exists j :: 0 <= j < k && j < |o.ranked| && o.ranked[j] == id
  }

  lemma TopKIsRankedWithin(o: QueryOutcome, k: nat, id: string)
    ensures id in TopK(o.ranked, k) <==> RankedWithin(o, k, id)
  {
    var n := Min(k, |o.ranked|);
    if id in TopK(o.ranked, k) {
      var j :| 0 <= j < n && o.ranked[..n][j] == id;
      assert o.ranked[j] == id;
    }
    if j :| 0 <= j < k && j < |o.ranked| && o.ranked[j] == id { assert o.ranked[..n][j] == id; }
  }

  /** What the two scores count: recall the share of the relevant documents ranked within k, the hit rate whether there is one. */
  lemma ScoresCount(o: QueryOutcome, k: nat)
    ensures HitRateAt(o, k) == 1.0 || HitRateAt(o, k) == 0.0
    ensures HitRateAt(o, k) == 1.0 <==> exists id :: id in o.relevant && RankedWithin(o, k, id)
    ensures RecallAt(o, k) * |o.relevant| as real == |set id | id in o.relevant && RankedWithin(o, k, id)| as real
  {
    forall id ensures id in TopK(o.ranked, k) <==> RankedWithin(o, k, id) { TopKIsRankedWithin(o, k, id); }
    assert Retrieved(o, k) == set id | id in o.relevant && RankedWithin(o, k, id);
    if exists id :: id in o.relevant && id in TopK(o.ranked, k) {
      var id :| id in o.relevant && id in TopK(o.ranked, k);
      assert RankedWithin(o, k, id);
    }
    if o.relevant == {} { assert Retrieved(o, k) == {}; }
  }

  lemma HitIffFirstWithin(o: QueryOutcome, k: nat, i: nat)
    requires FirstRelevant(o, i)
    ensures HitRateAt(o, k) == (if i < k then 1.0 else 0.0)
  {
    var n := Min(k, |o.ranked|);
    if i < k {
      assert o.ranked[..n][i] == o.ranked[i];
      assert o.ranked[i] in TopK(o.ranked, k);
    } else {
      forall id | id in TopK(o.ranked, k) ensures id !in o.relevant {
        var j :| 0 <= j < n && o.ranked[..n][j] == id;
      }
    }
  }

  lemma ReciprocalOrder(a: nat, b: nat)
    requires 1 <= a <= b
    ensures 0.0 < 1.0 / b as real <= 1.0 / a as real <= 1.0
  {
  }

  lemma SandwichAtFirst(o: QueryOutcome, k: nat, i: nat)
    requires k >= 1 && FirstRelevant(o, i)
    ensures var h, r := HitRateAt(o, k), 1.0 / (i + 1) as real;
            h / k as real <= r <= h + (1.0 - h) / (k + 1) as real
  {
    HitIffFirstWithin(o, k, i);
    if i < k { ReciprocalOrder(i + 1, k); } else { ReciprocalOrder(k + 1, i + 1); }
  }

  lemma SandwichAtNone(o: QueryOutcome, k: nat)
    requires k >= 1 && forall id | id in o.ranked :: id !in o.relevant
    ensures HitRateAt(o, k) == 0.0
    ensures 0.0 / k as real <= 0.0 <= 0.0 + (1.0 - 0.0) / (k + 1) as real
  {
    forall id | id in TopK(o.ranked, k) ensures id !in o.relevant {}
    ReciprocalOrder(1, k + 1);
  }

  /** The reciprocal rank lies between hit@k / k and hit@k + (1 - hit@k) / (k + 1), for every k. */
  lemma ReciprocalRankSandwich(o: QueryOutcome, k: nat)
    requires k >= 1
    ensures var h := HitRateAt(o, k);
            h / k as real <= ReciprocalRank(o) <= h + (1.0 - h) / (k + 1) as real
  {
    ReciprocalRankIsFirst(o);
    if i: nat :| FirstRelevant(o, i) && ReciprocalRank(o) == 1.0 / (i + 1) as real {
      SandwichAtFirst(o, k, i);
    } else {
      SandwichAtNone(o, k);
    }
  }

  // ----- averages

  type Score = QueryOutcome -> real

  function Sum(os: seq<QueryOutcome>, f: Score): real {
    if os == [] then 0.0 else f(os[0]) + Sum(os[1..], f)
  }

  lemma SumCons(o: QueryOutcome, os: seq<QueryOutcome>, f: Score)
    ensures Sum([o] + os, f) == f(o) + Sum(os, f)
  {
    assert ([o] + os)[1..] == os;
  }

  function Mean(os: seq<QueryOutcome>, f: Score): real {
    if |os| == 0 then 0.0 else Sum(os, f) / |os| as real
  }

  function HitScore(k: nat): Score { o => HitRateAt(o, k) }

  function RecallScore(k: nat): Score { o => RecallAt(o, k) }

  /** The scores of a report, in the order of its fields. */
  function ScoreOf(field: nat): Score
    requires field < 7
  {
    match field
    case 0 => HitScore(1)
    case 1 => HitScore(3)
    case 2 => HitScore(5)
    case 3 => RecallScore(1)
    case 4 => RecallScore(3)
    case 5 => RecallScore(5)
    case 6 => ReciprocalRank
  }

  /** The score in a given field of a report. */
  function Field(q: QualityMetrics, field: nat): real
    requires field < 7
  {
    match field
    case 0 => q.hitAt1
    case 1 => q.hitAt3
    case 2 => q.hitAt5
    case 3 => q.recallAt1
    case 4 => q.recallAt3
    case 5 => q.recallAt5
    case 6 => q.mrr
  }

  function Filter(os: seq<QueryOutcome>, p: QueryOutcome -> bool): seq<QueryOutcome> {
    if os == [] then []
    else if p(os[0]) then [os[0]] + Filter(os[1..], p)
    else Filter(os[1..], p)
  }

  predicate Succeeded(o: QueryOutcome) { o.succeeded }

  function Quality(os: seq<QueryOutcome>): QualityMetrics {
    var successes := |Filter(os, Succeeded)|;
    QualityMetrics(|os|, successes, |os| - successes,
                   Mean(os, HitScore(1)), Mean(os, HitScore(3)), Mean(os, HitScore(5)),
                   Mean(os, RecallScore(1)), Mean(os, RecallScore(3)), Mean(os, RecallScore(5)),
                   Mean(os, ReciprocalRank))
  }

  lemma FieldIsMean(os: seq<QueryOutcome>, field: nat)
    requires field < 7
    ensures Field(Quality(os), field) == Mean(os, ScoreOf(field))
  {
  }

  function Times(x: real, n: nat): real { x * n as real }

  /** An average times its count, which is how averages of different sets are added up. */
  function Weighted(q: QualityMetrics, field: nat): real
    requires field < 7
  {
    Times(Field(q, field), q.queryCount)
  }

  lemma WeightedIsSum(os: seq<QueryOutcome>, field: nat)
    requires field < 7
    ensures Weighted(Quality(os), field) == Sum(os, ScoreOf(field))
  {
    FieldIsMean(os, field);
    WeightedMean(Quality(os), os, field);
  }

  lemma WeightedMean(q: QualityMetrics, os: seq<QueryOutcome>, field: nat)
    requires field < 7 && Field(q, field) == Mean(os, ScoreOf(field)) && q.queryCount == |os|
    ensures Weighted(q, field) == Sum(os, ScoreOf(field))
  {
    MeanTimesCount(os, ScoreOf(field));
  }

  lemma MeanTimesCount(os: seq<QueryOutcome>, f: Score)
    ensures Times(Mean(os, f), |os|) == Sum(os, f)
  {
  }

  ghost predicate HitsWithin(o: QueryOutcome, k: nat) { exists id :: id in o.relevant && RankedWithin(o, k, id) }

  ghost function CountHits(os: seq<QueryOutcome>, k: nat): nat {
    |set i: nat | i < |os| && HitsWithin(os[i], k)|
  }

  lemma CountHitsCons(os: seq<QueryOutcome>, k: nat)
    requires os != []
    ensures CountHits(os, k) == CountHits(os[1..], k) + (if HitsWithin(os[0], k) then 1 else 0)
  {
    var rest := set i: nat | i < |os[1..]| && HitsWithin(os[1..][i], k);
    var moved := set i: nat | i in rest :: i + 1;
    assert (set i: nat | i < |os| && HitsWithin(os[i], k)) == moved + (if HitsWithin(os[0], k) then {0} else {}) by {
      forall i: nat | 0 < i < |os| && HitsWithin(os[i], k) ensures i in moved { assert i - 1 in rest; }
    }
    ShiftedSize(rest);
  }

  lemma {:induction false} ShiftedSize(s: set<nat>)
    ensures |set i: nat | i in s :: i + 1| == |s|
  {
    if x :| x in s {
      ShiftedSize(s - {x});
      var all, rest := set i: nat | i in s :: i + 1, set i: nat | i in s - {x} :: i + 1;
      forall y | y in all ensures y in rest + {x + 1} {
        var i: nat :| i in s && i + 1 == y;
        if i != x { assert i in s - {x}; }
      }
      assert all == rest + {x + 1};
    }
  }

  /** The reported hit rates count queries: hit@k times the number of queries is how many of them were hit within k. */
  lemma {:induction false} HitsAreCounted(os: seq<QueryOutcome>, k: nat)
    ensures Sum(os, HitScore(k)) == CountHits(os, k) as real
  {
    if os != [] {
      CountHitsCons(os, k);
      ScoresCount(os[0], k);
      HitsAreCounted(os[1..], k);
    }
  }

  lemma ReportedHits(os: seq<QueryOutcome>)
    ensures Times(Quality(os).hitAt1, |os|) == CountHits(os, 1) as real
    ensures Times(Quality(os).hitAt3, |os|) == CountHits(os, 3) as real
    ensures Times(Quality(os).hitAt5, |os|) == CountHits(os, 5) as real
  {
    HitsAreCounted(os, 1);
    HitsAreCounted(os, 3);
    HitsAreCounted(os, 5);
    MeanTimesCount(os, HitScore(1));
    MeanTimesCount(os, HitScore(3));
    MeanTimesCount(os, HitScore(5));
  }

  // ----- the report

  const LANGUAGES: seq<string> := ["kk", "ru", "mixed"]
  const SCENARIOS: seq<string> := ["same_language", "cross_language", "mixed"]

  datatype RetrievalMetrics = RetrievalMetrics(
    overall: QualityMetrics,
    successfulOnly: QualityMetrics,
    byLanguage: map<string, QualityMetrics>,
    byScenario: map<string, QualityMetrics>,
    meanLatencyMs: real,
    p95LatencyMs: real,
    embeddingDimension: Option<nat>,
    estimatedCostUsd: Option<real>,
    totalTokens: Option<nat>,
    requests: nat)

  type Key = QueryOutcome -> string

  function Language(o: QueryOutcome): string { o.language }

  function Scenario(o: QueryOutcome): string { o.scenario }

  function Slice(os: seq<QueryOutcome>, key: Key, value: string): seq<QueryOutcome> {
    Filter(os, o => key(o) == value)
  }

  function Total(xs: seq<real>): real {
    if xs == [] then 0.0 else xs[0] + Total(xs[1..])
  }

  /** What an evaluation run collects. */
  datatype Measurements = Measurements(
    outcomes: seq<QueryOutcome>, latencies: seq<real>, dimension: Option<nat>, tokens: Option<nat>, requests: nat)

  lemma {:induction false} TotalWithin(xs: seq<real>, low: real, high: real)
    requires forall x | x in xs :: low <= x <= high
    ensures Scaled(low, |xs|) <= Total(xs) <= Scaled(high, |xs|)
  {
    if xs != [] {
      assert xs[0] in xs && forall x | x in xs[1..] :: x in xs;
      TotalWithin(xs[1..], low, high);
      ScaledNext(low, |xs|);
      ScaledNext(high, |xs|);
    }
  }

  function Scaled(x: real, n: nat): real { x * n as real }

  lemma ScaledNext(x: real, n: nat)
    requires n > 0
    ensures Scaled(x, n) == x + Scaled(x, n - 1)
  {
    assert n as real == (n - 1) as real + 1.0;
  }

  lemma AverageWithin(total: real, n: nat, low: real, high: real)
    requires n > 0 && Scaled(low, n) <= total <= Scaled(high, n)
    ensures low <= total / n as real <= high
  {
    DivideOrder(Scaled(low, n), total, n as real);
    DivideOrder(total, Scaled(high, n), n as real);
    ScaledBack(low, n);
    ScaledBack(high, n);
  }

  lemma ScaledBack(x: real, n: nat)
    requires n > 0
    ensures Scaled(x, n) / n as real == x
  {
  }

  /**
   The other figures of a report: the mean latency lies between the fastest and the slowest request,
   the 95th percentile interpolates the ascending latencies at 0.95, the price is per million tokens,
   and an unknown price or token count has no cost.
   */
  lemma ReportFigures(m: Measurements, price: Option<real>, low: real, high: real, s: seq<real>, i: nat, t: real)
    requires m.latencies != [] && forall x | x in m.latencies :: low <= x <= high
    requires Ascending(s, m.latencies) && i < |s| && 0.0 <= t <= 1.0 && (t > 0.0 ==> i + 1 < |s|) && 0.95 * (|s| as real - 1.0) == i as real + t
    ensures var r := ComputeMetrics(m, price);
            && low <= r.meanLatencyMs <= high
            && r.p95LatencyMs == (if t == 0.0 then s[i] else Blend(s[i], s[i + 1], t))
            && (r.estimatedCostUsd.Some? <==> price.Some? && m.tokens.Some?)
            && (m.tokens == Some(1000000) ==> r.estimatedCostUsd == price)
            && r.totalTokens == m.tokens && r.requests == m.requests && r.embeddingDimension == m.dimension
  {
    MeanWithin(m.latencies, low, high);
    PercentileIsLinear(m.latencies, 0.95, s, i, t);
  }

  lemma MeanWithin(xs: seq<real>, low: real, high: real)
    requires xs != [] && forall x | x in xs :: low <= x <= high
    ensures low <= Total(xs) / |xs| as real <= high
  {
    TotalWithin(xs, low, high);
    AverageWithin(Total(xs), |xs|, low, high);
  }

  function ComputeMetrics(m: Measurements, price: Option<real>): RetrievalMetrics {
    RetrievalMetrics(
      Quality(m.outcomes),
      Quality(Filter(m.outcomes, Succeeded)),
      map language | language in LANGUAGES :: Quality(Slice(m.outcomes, Language, language)),
      map scenario | scenario in SCENARIOS :: Quality(Slice(m.outcomes, Scenario, scenario)),
      if m.latencies == [] then 0.0 else Total(m.latencies) / |m.latencies| as real,
      Percentile(m.latencies, 0.95),
      m.dimension,
      if price.Some? && m.tokens.Some? then Some(m.tokens.value as real / 1000000.0 * price.value) else None,
      m.tokens,
      m.requests)
  }
}
