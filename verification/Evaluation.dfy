/** The evaluation loop: one outcome per query, failed queries with an empty ranking. */
module Evaluation {
  import opened Common
  import opened Vectors
  import opened Ranking
  import opened Metrics
  import MetricLaws

  datatype Query = Query(relevant: set<string>, language: string, scenario: string)

  /** What the provider returns for one request. */
  datatype Batch = Batch(vectors: seq<Vector>, latencyMs: real, requests: nat, tokens: Option<nat>)

  datatype EvalError = NoDocuments | Zero | InconsistentDocuments | WrongCount | WrongQueryDimension | Unranked(why: RankError)

  /** The indexed side of an evaluation. */
  datatype Index = Index(vectors: seq<Vector>, ids: seq<string>, dimension: nat)

  function NormalizeAll(vs: seq<Vector>, norm: Vector -> real): Result<seq<Vector>, EvalError> {
    if vs == [] then Ok([])
    else
      var front := NormalizeAll(vs[..|vs| - 1], norm);
      if front.Err? then front
      else
        var last := NormalizeVector(vs[|vs| - 1], norm);
        if last.Err? then Err(Zero) else Ok(front.value + [last.value])
  }

  function BuildIndex(documents: Batch, ids: seq<string>, norm: Vector -> real): Result<Index, EvalError> {
    if documents.vectors == [] then Err(NoDocuments)
    else
      var normalized := NormalizeAll(documents.vectors, norm);
      if normalized.Err? then Err(normalized.error)
      else if normalized.value == [] || exists v :: v in normalized.value && |v| != |normalized.value[0]| then Err(InconsistentDocuments)
      else Ok(Index(normalized.value, ids, |normalized.value[0]|))
  }

  function IdsOf(ranked: seq<Scored>): seq<string> { seq(|ranked|, i requires 0 <= i < |ranked| => ranked[i].0) }

  /** The outcome of one query; no answer means that the provider failed. */
  function OutcomeOf(index: Index, q: Query, answer: Option<Batch>, topK: int, norm: Vector -> real): Result<QueryOutcome, EvalError> {
    if answer.None? then Ok(QueryOutcome([], q.relevant, q.language, q.scenario, false))
    else if |answer.value.vectors| != 1 then Err(WrongCount)
    else
      var v := NormalizeVector(answer.value.vectors[0], norm);
      if v.Err? then Err(Zero)
      else if |v.value| != index.dimension then Err(WrongQueryDimension)
      else
        var ranked := RankDocuments(v.value, index.vectors, index.ids, topK, norm);
        if ranked.Err? then Err(Unranked(ranked.error))
        else Ok(QueryOutcome(IdsOf(ranked.value), q.relevant, q.language, q.scenario, true))
  }

  function Latencies(answers: seq<Option<Batch>>): seq<real> {
    if answers == [] then []
    else
      var last := answers[|answers| - 1];
      Latencies(answers[..|answers| - 1]) + (if last.Some? then [last.value.latencyMs] else [])
  }

  function Requests(answers: seq<Option<Batch>>): nat {
    if answers == [] then 0
    else
      var last := answers[|answers| - 1];
      Requests(answers[..|answers| - 1]) + (if last.Some? then last.value.requests else 0)
  }

  function AddTokens(total: Option<nat>, more: Option<nat>): Option<nat> {
    if more.None? then total else Some((if total.Some? then total.value else 0) + more.value)
  }

  function Tokens(start: Option<nat>, answers: seq<Option<Batch>>): Option<nat> {
    if answers == [] then start
    else
      var last := answers[|answers| - 1];
      AddTokens(Tokens(start, answers[..|answers| - 1]), if last.Some? then last.value.tokens else None)
  }

  /** The accumulated measurements after the document batch and `answers`. */
  ghost predicate TotalsAre(latencies: seq<real>, tokens: Option<nat>, requests: nat, documents: Batch, answers: seq<Option<Batch>>) {
    && latencies == [documents.latencyMs] + Latencies(answers)
    && tokens == Tokens(documents.tokens, answers)
    && requests == documents.requests + Requests(answers)
  }

  lemma AnsweredNext(
    latencies: seq<real>, tokens: Option<nat>, requests: nat, documents: Batch, answers: seq<Option<Batch>>, batch: Batch)
    requires TotalsAre(latencies, tokens, requests, documents, answers)
    ensures TotalsAre(latencies + [batch.latencyMs], AddTokens(tokens, batch.tokens), requests + batch.requests,
                      documents, answers + [Some(batch)])
    ensures AddTokens(tokens, batch.tokens) ==
              match (tokens, batch.tokens) { case (Some(a), Some(b)) => Some(a + b) case (None, more) => more case (known, None) => known }
  {
    assert (answers + [Some(batch)])[..|answers|] == answers;
  }

  lemma FailedNext(latencies: seq<real>, tokens: Option<nat>, requests: nat, documents: Batch, answers: seq<Option<Batch>>)
    requires TotalsAre(latencies, tokens, requests, documents, answers)
    ensures TotalsAre(latencies, tokens, requests, documents, answers + [None])
  {
    assert (answers + [None])[..|answers|] == answers;
  }

  ghost predicate OutcomesUpTo(
    n: nat, outcomes: seq<QueryOutcome>, index: Index, queries: seq<Query>, answers: seq<Option<Batch>>, topK: int, norm: Vector -> real)
    requires |queries| == |answers|
  {
    && |outcomes| == n <= |queries|
    && forall i | 0 <= i < n :: Ok(outcomes[i]) == OutcomeOf(index, queries[i], answers[i], topK, norm)
  }

  ghost predicate OutcomesAre(
    outcomes: seq<QueryOutcome>, index: Index, queries: seq<Query>, answers: seq<Option<Batch>>, topK: int, norm: Vector -> real)
    requires |queries| == |answers|
  {
    OutcomesUpTo(|queries|, outcomes, index, queries, answers, topK, norm)
  }

  /** Query `i` is the first that cannot be processed. */
  ghost predicate FailsFirstAt(
    i: nat, error: EvalError, index: Index, queries: seq<Query>, answers: seq<Option<Batch>>, topK: int, norm: Vector -> real)
    requires |queries| == |answers|
  {
    && i < |queries| && OutcomeOf(index, queries[i], answers[i], topK, norm) == Err(error)
    && forall j | 0 <= j < i :: OutcomeOf(index, queries[j], answers[j], topK, norm).Ok?
  }

  lemma OneMore(
    outcomes: seq<QueryOutcome>, o: QueryOutcome, index: Index, queries: seq<Query>, answers: seq<Option<Batch>>,
    topK: int, norm: Vector -> real)
    requires |queries| == |answers| && OutcomesUpTo(|outcomes|, outcomes, index, queries, answers, topK, norm)
    requires |outcomes| < |queries| && OutcomeOf(index, queries[|outcomes|], answers[|outcomes|], topK, norm) == Ok(o)
    ensures OutcomesUpTo(|outcomes| + 1, outcomes + [o], index, queries, answers, topK, norm)
  {
  }

  lemma StopsAt(
    i: nat, error: EvalError, outcomes: seq<QueryOutcome>, index: Index, queries: seq<Query>, answers: seq<Option<Batch>>,
    topK: int, norm: Vector -> real)
    requires |queries| == |answers| && OutcomesUpTo(i, outcomes, index, queries, answers, topK, norm)
    requires i < |queries| && OutcomeOf(index, queries[i], answers[i], topK, norm) == Err(error)
    ensures FailsFirstAt(i, error, index, queries, answers, topK, norm)
  {
    forall j | 0 <= j < i ensures OutcomeOf(index, queries[j], answers[j], topK, norm).Ok? {
      assert Ok(outcomes[j]) == OutcomeOf(index, queries[j], answers[j], topK, norm);
    }
  }

  /** The loop over the queries: the first query that cannot be processed ends the evaluation. */
  method RunQueries(index: Index, queries: seq<Query>, answers: seq<Option<Batch>>, documents: Batch, topK: int, norm: Vector -> real)
    returns (error: Option<EvalError>, outcomes: seq<QueryOutcome>, latencies: seq<real>, tokens: Option<nat>, requests: nat)
    requires |queries| == |answers|
    ensures error.None? ==> OutcomesAre(outcomes, index, queries, answers, topK, norm)
    ensures error.None? ==> TotalsAre(latencies, tokens, requests, documents, answers)
    ensures error.Some? ==> exists i :: FailsFirstAt(i, error.value, index, queries, answers, topK, norm)
  {
    error, outcomes, latencies, tokens, requests := None, [], [documents.latencyMs], documents.tokens, documents.requests;
    for i := 0 to |queries|
      invariant error.None?
      invariant OutcomesUpTo(i, outcomes, index, queries, answers, topK, norm)
      invariant TotalsAre(latencies, tokens, requests, documents, answers[..i])
    {
      assert answers[..i + 1] == answers[..i] + [answers[i]];
      var q, answer := queries[i], answers[i];
      if answer.None? {
        var o := QueryOutcome([], q.relevant, q.language, q.scenario, false);
        OneMore(outcomes, o, index, queries, answers, topK, norm);
        FailedNext(latencies, tokens, requests, documents, answers[..i]);
        outcomes := outcomes + [o];
        continue;
      }
      var batch := answer.value;
      AnsweredNext(latencies, tokens, requests, documents, answers[..i], batch);
      latencies := latencies + [batch.latencyMs];
      requests := requests + batch.requests;
      if batch.tokens.Some? {
        tokens := Some((if tokens.Some? then tokens.value else 0) + batch.tokens.value);
      }
      if |batch.vectors| != 1 {
        error := Some(WrongCount);
        StopsAt(i, error.value, outcomes, index, queries, answers, topK, norm);
        return;
      }
      var v := NormalizeVector(batch.vectors[0], norm);
      if v.Err? {
        error := Some(Zero);
        StopsAt(i, error.value, outcomes, index, queries, answers, topK, norm);
        return;
      }
      if |v.value| != index.dimension {
        error := Some(WrongQueryDimension);
        StopsAt(i, error.value, outcomes, index, queries, answers, topK, norm);
        return;
      }
      var ranked := RankDocuments(v.value, index.vectors, index.ids, topK, norm);
      if ranked.Err? {
        error := Some(Unranked(ranked.error));
        StopsAt(i, error.value, outcomes, index, queries, answers, topK, norm);
        return;
      }
      var o := QueryOutcome(IdsOf(ranked.value), q.relevant, q.language, q.scenario, true);
      OneMore(outcomes, o, index, queries, answers, topK, norm);
      outcomes := outcomes + [o];
    }
    assert answers[..|answers|] == answers;
  }

  /** The measurements of an evaluation whose every query could be processed. */
  ghost predicate Measured(
    m: Measurements, index: Index, documents: Batch, queries: seq<Query>, answers: seq<Option<Batch>>, topK: int, norm: Vector -> real)
    requires |queries| == |answers|
  {
    && OutcomesAre(m.outcomes, index, queries, answers, topK, norm)
    && TotalsAre(m.latencies, m.tokens, m.requests, documents, answers)
    && m.dimension == Some(index.dimension)
  }

  /** _run_with_provider up to its report, from which compute_metrics takes all it needs. */
  method RunWithProvider(
    documents: Batch, ids: seq<string>, queries: seq<Query>, answers: seq<Option<Batch>>, topK: int, norm: Vector -> real)
    returns (r: Result<Measurements, EvalError>)
    requires |queries| == |answers|
    ensures r.Ok? ==>
              var index := BuildIndex(documents, ids, norm);
              index.Ok? && Measured(r.value, index.value, documents, queries, answers, topK, norm)
    ensures r.Err? ==>
              var index := BuildIndex(documents, ids, norm);
              || index == Err(r.error)
              || (index.Ok? && exists i :: FailsFirstAt(i, r.error, index.value, queries, answers, topK, norm))
  {
    var index := BuildIndex(documents, ids, norm);
    if index.Err? {
      return Err(index.error);
    }
    var error, outcomes, latencies, tokens, requests := RunQueries(index.value, queries, answers, documents, topK, norm);
    if error.Some? {
      return Err(error.value);
    }
    r := Ok(Measurements(outcomes, latencies, Some(index.value.dimension), tokens, requests));
  }

  // ----- what an evaluation guarantees

  /** One outcome per query, in order; exactly the failed queries did not succeed, and their rankings are empty. */
  lemma OneOutcomePerQuery(
    outcomes: seq<QueryOutcome>, index: Index, queries: seq<Query>, answers: seq<Option<Batch>>, topK: int, norm: Vector -> real)
    requires |queries| == |answers| && OutcomesAre(outcomes, index, queries, answers, topK, norm)
    ensures |outcomes| == |queries| && MetricLaws.FailuresAreEmpty(outcomes)
    ensures forall i | 0 <= i < |queries| ::
              outcomes[i].succeeded == answers[i].Some? && outcomes[i].relevant == queries[i].relevant
              && outcomes[i].language == queries[i].language && outcomes[i].scenario == queries[i].scenario
  {
    forall i | 0 <= i < |queries|
      ensures outcomes[i].succeeded == answers[i].Some? && outcomes[i].relevant == queries[i].relevant
              && outcomes[i].language == queries[i].language && outcomes[i].scenario == queries[i].scenario
              && (!outcomes[i].succeeded ==> outcomes[i].ranked == [])
    {
      assert Ok(outcomes[i]) == OutcomeOf(index, queries[i], answers[i], topK, norm);
    }
  }

  /** So no overall score of an evaluation exceeds its successful-only score, and all queries are counted. */
  lemma OverallWithinSuccessful(
    m: Measurements, index: Index, documents: Batch, queries: seq<Query>, answers: seq<Option<Batch>>, topK: int, norm: Vector -> real,
    price: Option<real>, field: nat)
    requires |queries| == |answers| && Measured(m, index, documents, queries, answers, topK, norm) && field < 7
    ensures Field(ComputeMetrics(m, price).overall, field) <= Field(ComputeMetrics(m, price).successfulOnly, field)
    ensures ComputeMetrics(m, price).overall.queryCount == |queries|
  {
    OneOutcomePerQuery(m.outcomes, index, queries, answers, topK, norm);
    MetricLaws.ReportOverallWithinSuccessful(m, price, field);
  }

  lemma {:induction false} NormalizedAll(vs: seq<Vector>, norm: Vector -> real)
    requires NormalizeAll(vs, norm).Ok?
    ensures AreNormalized(vs, NormalizeAll(vs, norm).value, norm)
  {
    if vs != [] {
      NormalizedAll(vs[..|vs| - 1], norm);
    }
  }

  // ----- when an evaluation fails

  lemma {:induction false} NormalizeAllFails(vs: seq<Vector>, norm: Vector -> real)
    requires Exact(norm)
    ensures NormalizeAll(vs, norm).Err? <==> exists v :: v in vs && AllZero(v)
    ensures NormalizeAll(vs, norm).Err? ==> NormalizeAll(vs, norm).error == Zero
  {
    if vs != [] {
      var n := |vs| - 1;
      NormalizeAllFails(vs[..n], norm);
      ZeroVectorsFail(vs[n], norm);
      assert vs == vs[..n] + [vs[n]];
    }
  }

  /** The documents do not have one dimension. */
  ghost predicate MixedDimensions(vs: seq<Vector>) { exists i :: 0 <= i < |vs| && |vs[i]| != |vs[0]| }

  lemma NormalizedDimensions(vs: seq<Vector>, us: seq<Vector>, norm: Vector -> real)
    requires AreNormalized(vs, us, norm) && vs != []
    ensures |us| == |vs| && (forall i | 0 <= i < |vs| :: |us[i]| == |vs[i]|)
    ensures MixedDimensions(vs) <==> exists u :: u in us && |u| != |us[0]|
  {
    if u :| u in us && |u| != |us[0]| {
      var i :| 0 <= i < |us| && us[i] == u;
      assert |vs[i]| != |vs[0]|;
    }
    if MixedDimensions(vs) {
      var i :| 0 <= i < |vs| && |vs[i]| != |vs[0]|;
      assert us[i] in us;
    }
  }

  /** Indexing fails exactly without documents, on a zero vector, and on mixed dimensions, in this order. */
  lemma IndexFailsExactlyWhen(documents: Batch, ids: seq<string>, norm: Vector -> real)
    requires Exact(norm)
    ensures var vs, r := documents.vectors, BuildIndex(documents, ids, norm);
            var zero := exists v :: v in vs && AllZero(v);
            && (r == Err(NoDocuments) <==> vs == [])
            && (r == Err(Zero) <==> vs != [] && zero)
            && (r == Err(InconsistentDocuments) <==> vs != [] && !zero && MixedDimensions(vs))
            && (r.Ok? <==> vs != [] && !zero && !MixedDimensions(vs))
            && (r.Ok? ==> r.value.dimension == |vs[0]| && r.value.ids == ids && AreNormalized(vs, r.value.vectors, norm))
  {
    var vs := documents.vectors;
    NormalizeAllFails(vs, norm);
    if vs != [] && NormalizeAll(vs, norm).Ok? {
      NormalizedAll(vs, norm);
      NormalizedDimensions(vs, NormalizeAll(vs, norm).value, norm);
    }
  }

  /** A query fails exactly when it was answered, by other than one vector, a zero one, or one of another dimension. */
  lemma QueryFailsExactlyWhen(documents: Batch, ids: seq<string>, q: Query, answer: Option<Batch>, topK: int, norm: Vector -> real)
    requires Exact(norm) && BuildIndex(documents, ids, norm).Ok? && |ids| == |documents.vectors| && topK >= 1
    ensures var r := OutcomeOf(BuildIndex(documents, ids, norm).value, q, answer, topK, norm);
            && (answer.None? ==> r.Ok? && r.value.ranked == [] && !r.value.succeeded)
            && (answer.Some? && |answer.value.vectors| != 1 ==> r == Err(WrongCount))
            && (answer.Some? && |answer.value.vectors| == 1 ==>
                  var v := answer.value.vectors[0];
                  && (r == Err(Zero) <==> AllZero(v))
                  && (r == Err(WrongQueryDimension) <==> !AllZero(v) && |v| != |documents.vectors[0]|)
                  && (r.Ok? <==> !AllZero(v) && |v| == |documents.vectors[0]|)
                  && (r.Ok? ==> r.value.succeeded))
  {
    IndexFailsExactlyWhen(documents, ids, norm);
    var index := BuildIndex(documents, ids, norm).value;
    NormalizedDimensions(documents.vectors, index.vectors, norm);
    if answer.Some? && |answer.value.vectors| == 1 {
      var v := answer.value.vectors[0];
      ZeroVectorsFail(v, norm);
      if !AllZero(v) && |v| == index.dimension {
        var u := NormalizeVector(v, norm).value;
        forall i | 0 <= i < |index.vectors| ensures |index.vectors[i]| == |u| { assert |documents.vectors[i]| == |documents.vectors[0]|; }
      }
    }
  }

  /** Although only normalised vectors are compared, every ranking is that of the provider's own vectors. */
  lemma RankingsAreOfRawVectors(documents: Batch, ids: seq<string>, q: Query, answer: Batch, topK: int, norm: Vector -> real)
    requires Exact(norm) && BuildIndex(documents, ids, norm).Ok?
    requires OutcomeOf(BuildIndex(documents, ids, norm).value, q, Some(answer), topK, norm).Ok?
    ensures |answer.vectors| == 1
    ensures var raw := RankDocuments(answer.vectors[0], documents.vectors, ids, topK, norm);
            raw.Ok? && OutcomeOf(BuildIndex(documents, ids, norm).value, q, Some(answer), topK, norm).value.ranked == IdsOf(raw.value)
  {
    var index := BuildIndex(documents, ids, norm).value;
    NormalizedAll(documents.vectors, norm);
    var unit := NormalizeVector(answer.vectors[0], norm).value;
    RankingIgnoresNormalization(answer.vectors[0], unit, documents.vectors, index.vectors, ids, topK, norm);
  }
}
