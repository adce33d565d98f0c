/** What provider failures do to the scores of an evaluation. */
module EvaluationFailures {
  import opened Common
  import opened Vectors
  import opened Percentiles
  import opened Metrics
  import opened MetricLaws
  import opened Evaluation

  // ----- overall scores

  /** The same query, at most with its ranking lost to a failure. */
  ghost predicate SameOrFailed(o: QueryOutcome, o': QueryOutcome) {
    o' == o || (o'.ranked == [] && !o'.succeeded)
  }

  ghost predicate SomeFailed(os: seq<QueryOutcome>, os': seq<QueryOutcome>) {
    |os'| == |os| && forall i | 0 <= i < |os| :: SameOrFailed(os[i], os'[i])
  }

  lemma {:induction false} FailuresLowerSum(os: seq<QueryOutcome>, os': seq<QueryOutcome>, field: nat)
    requires SomeFailed(os, os') && field < 7
    ensures Sum(os', ScoreOf(field)) <= Sum(os, ScoreOf(field))
  {
    if os != [] {
      assert SameOrFailed(os[0], os'[0]);
      ScoreNonNegative(os[0], field);
      if os'[0] != os[0] { EmptyRankingScoresZero(os'[0], field); }
      forall i | 0 <= i < |os[1..]| ensures SameOrFailed(os[1..][i], os'[1..][i]) { assert SameOrFailed(os[i + 1], os'[i + 1]); }
      FailuresLowerSum(os[1..], os'[1..], field);
    }
  }

  lemma FailuresLowerOverall(os: seq<QueryOutcome>, os': seq<QueryOutcome>, field: nat)
    requires SomeFailed(os, os') && field < 7
    ensures Field(Quality(os'), field) <= Field(Quality(os), field)
  {
    FailuresLowerSum(os, os', field);
    FieldIsMean(os, field);
    FieldIsMean(os', field);
    if os != [] { DivideOrder(Sum(os', ScoreOf(field)), Sum(os, ScoreOf(field)), |os| as real); }
  }

  /** `answers'` is `answers` with some requests failed instead of answered. */
  ghost predicate FewerAnswers(answers: seq<Option<Batch>>, answers': seq<Option<Batch>>) {
    |answers'| == |answers| && forall i | 0 <= i < |answers| :: answers'[i] == answers[i] || answers'[i].None?
  }

  /** More failures never make an evaluation impossible. */
  lemma FailuresKeepMeasurable(
    m: Measurements, index: Index, documents: Batch, queries: seq<Query>, answers: seq<Option<Batch>>, answers': seq<Option<Batch>>,
    topK: int, norm: Vector -> real)
    requires |queries| == |answers| && FewerAnswers(answers, answers')
    requires Measured(m, index, documents, queries, answers, topK, norm)
    ensures exists m' :: Measured(m', index, documents, queries, answers', topK, norm)
  {
    var outcomes := seq(|queries|, i requires 0 <= i < |queries| =>
      if answers'[i] == answers[i] then m.outcomes[i]
      else QueryOutcome([], queries[i].relevant, queries[i].language, queries[i].scenario, false));
    forall i | 0 <= i < |queries| ensures Ok(outcomes[i]) == OutcomeOf(index, queries[i], answers'[i], topK, norm) {
      assert Ok(m.outcomes[i]) == OutcomeOf(index, queries[i], answers[i], topK, norm);
    }
    var m' := Measurements(outcomes, [documents.latencyMs] + Latencies(answers'), Some(index.dimension),
                           Tokens(documents.tokens, answers'), documents.requests + Requests(answers'));
    assert Measured(m', index, documents, queries, answers', topK, norm);
  }

  /**
   Provider failures cannot improve an evaluation: had any of the answered requests failed instead,
   every overall score of the report would be the same or lower.
   */
  lemma FailuresNeverImprove(
    m: Measurements, m': Measurements, index: Index, documents: Batch, queries: seq<Query>,
    answers: seq<Option<Batch>>, answers': seq<Option<Batch>>, topK: int, norm: Vector -> real, price: Option<real>, field: nat)
    requires |queries| == |answers| && FewerAnswers(answers, answers') && field < 7
    requires Measured(m, index, documents, queries, answers, topK, norm)
    requires Measured(m', index, documents, queries, answers', topK, norm)
    ensures Field(ComputeMetrics(m', price).overall, field) <= Field(ComputeMetrics(m, price).overall, field)
  {
    forall i | 0 <= i < |queries| ensures SameOrFailed(m.outcomes[i], m'.outcomes[i]) {
      assert Ok(m.outcomes[i]) == OutcomeOf(index, queries[i], answers[i], topK, norm);
      assert Ok(m'.outcomes[i]) == OutcomeOf(index, queries[i], answers'[i], topK, norm);
    }
    FailuresLowerOverall(m.outcomes, m'.outcomes, field);
  }

  // ----- successful-only scores

  /** Query `i` fails instead. */
  function FailedAt(os: seq<QueryOutcome>, i: nat): seq<QueryOutcome>
    requires i < |os|
  {
    os[i := os[i].(ranked := [], succeeded := false)]
  }

  function Successes(os: seq<QueryOutcome>): seq<QueryOutcome> { Filter(os, Succeeded) }

  lemma {:induction false} FailingRemovesOne(os: seq<QueryOutcome>, i: nat, f: Score)
    requires i < |os| && os[i].succeeded
    ensures Sum(Successes(FailedAt(os, i)), f) == Sum(Successes(os), f) - f(os[i])
    ensures |Successes(FailedAt(os, i))| == |Successes(os)| - 1
  {
    var os' := FailedAt(os, i);
    FilterSum(os, f, Succeeded);
    FilterSum(os', f, Succeeded);
    if i == 0 {
      assert os'[1..] == os[1..];
    } else {
      assert os'[1..] == FailedAt(os[1..], i - 1);
      FailingRemovesOne(os[1..], i - 1, f);
    }
  }

  /** Leaving out `x` raises an average exactly when `x` is below it and not alone. */
  lemma WithoutOne(s: real, x: real, n: real, m: real)
    requires m > 0.0 && n == m + 1.0
    ensures (s - x) / m > s / n <==> x < s / n
  {
    var a, b := s / n, (s - x) / m;
    assert a * n == s && b * m == s - x;
    assert a * n == a * m + a;
    var d := b - a;
    assert d * m == b * m - a * m == a - x;
    if d > 0.0 { ProductPositive(d, m); } else { ScaledOrder(d, 0.0, m); assert 0.0 * m == 0.0; }
  }

  lemma MeanWithoutOne(os: seq<QueryOutcome>, i: nat, f: Score)
    requires i < |os| && os[i].succeeded && |Successes(os)| > 1
    ensures Mean(Successes(FailedAt(os, i)), f) > Mean(Successes(os), f) <==> f(os[i]) < Mean(Successes(os), f)
  {
    FailingRemovesOne(os, i, f);
    var n, m := |Successes(os)| as real, |Successes(FailedAt(os, i))| as real;
    assert n == m + 1.0;
    WithoutOne(Sum(Successes(os), f), f(os[i]), n, m);
  }

  /**
   The successful-only view is different: failing one query raises a successful-only score exactly
   when that query scored below the average of the successful ones and was not the only success.
   */
  lemma FailureRaisesSuccessfulOnlyExactlyWhen(os: seq<QueryOutcome>, i: nat, field: nat)
    requires i < |os| && os[i].succeeded && field < 7
    ensures Field(Quality(Successes(FailedAt(os, i))), field) > Field(Quality(Successes(os)), field) <==>
            |Successes(os)| > 1 && ScoreOf(field)(os[i]) < Field(Quality(Successes(os)), field)
  {
    FieldIsMean(Successes(os), field);
    FieldIsMean(Successes(FailedAt(os, i)), field);
    if |Successes(os)| > 1 {
      MeanWithoutOne(os, i, ScoreOf(field));
    } else {
      FailingRemovesOne(os, i, ScoreOf(field));
      SuccessfulMeanNonNegative(os, field);
    }
  }

  lemma SuccessfulMeanNonNegative(os: seq<QueryOutcome>, field: nat)
    requires field < 7
    ensures Mean(Successes(os), ScoreOf(field)) >= 0.0
  {
    forall o | o in Successes(os) ensures ScoreOf(field)(o) >= 0.0 { ScoreNonNegative(o, field); }
    MeanNonNegative(Successes(os), ScoreOf(field));
  }

  const HIT := QueryOutcome(["p"], {"p"}, "ru", "same_language", true)
  const MISS := QueryOutcome([], {"p"}, "ru", "same_language", true)

  /** For example: of a hit and a miss, failing the miss raises the successful-only hit rate from a half to one. */
  lemma SuccessfulOnlyCanRise()
    ensures Field(Quality(Successes(FailedAt([HIT, MISS], 1))), 0) > Field(Quality(Successes([HIT, MISS])), 0)
  {
    var os, f := [HIT, MISS], ScoreOf(0);
    assert os[1..] == [MISS] && [MISS][1..] == [];
    assert Filter([MISS], Succeeded) == [MISS] + Filter([], Succeeded);
    assert Successes(os) == [HIT] + Filter([MISS], Succeeded) == os;
    assert "p" in TopK(HIT.ranked, 1) by { assert HIT.ranked[..1][0] == "p"; }
    EmptyRankingScoresZero(MISS, 0);
    SumCons(HIT, [MISS], f);
    SumCons(MISS, [], f);
    FieldIsMean(Successes(os), 0);
    FailureRaisesSuccessfulOnlyExactlyWhen(os, 1, 0);
  }
}
