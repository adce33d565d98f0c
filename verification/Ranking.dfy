/** Ranking documents by cosine similarity, ties by document id. */
module Ranking {
  import opened Common
  import opened Sorting
  import opened Vectors

  type Scored = (string, real)

  datatype RankError = LengthMismatch | BadTopK | WrongDimension

  /** Comparison of strings by code points. */
  predicate IdLe(a: string, b: string) {
    a == [] || (b != [] && (a[0] < b[0] || (a[0] == b[0] && IdLe(a[1..], b[1..]))))
  }

  /** The sort key (-score, id). */
  predicate Better(x: Scored, y: Scored) {
    x.1 > y.1 || (x.1 == y.1 && IdLe(x.0, y.0))
  }

  function Score(query: Vector, document: Vector, norm: Vector -> real): real {
    var r := CosineSimilarity(query, document, norm);
    if r.Ok? then r.value else 0.0
  }

  /** Every document id with its cosine to the query. */
  function ScoreAll(query: Vector, documents: seq<Vector>, ids: seq<string>, norm: Vector -> real): (r: seq<Scored>)
    requires |documents| == |ids|
    ensures |r| == |ids|
  {
    seq(|ids|, i requires 0 <= i < |ids| => (ids[i], Score(query, documents[i], norm)))
  }

  predicate OneDimension(query: Vector, documents: seq<Vector>) {
    forall i | 0 <= i < |documents| :: |documents[i]| == |query|
  }

  function RankDocuments(query: Vector, documents: seq<Vector>, ids: seq<string>, topK: int, norm: Vector -> real)
    : Result<seq<Scored>, RankError>
  {
    if |documents| != |ids| then Err(LengthMismatch)
    else if topK < 1 then Err(BadTopK)
    else if !OneDimension(query, documents) then Err(WrongDimension)
    else
      var scored := Sort(ScoreAll(query, documents, ids, norm), Better);
      Ok(scored[..Min(topK, |scored|)])
  }

  // ----- the order

  lemma {:induction false} IdLeTotal(a: string, b: string)
    ensures IdLe(a, b) || IdLe(b, a)
    ensures IdLe(a, b) && IdLe(b, a) ==> a == b
  {
    if a != [] && b != [] && a[0] == b[0] {
      IdLeTotal(a[1..], b[1..]);
      assert a == [a[0]] + a[1..] && b == [b[0]] + b[1..];
    }
  }

  lemma {:induction false} IdLeTransitive(a: string, b: string, c: string)
    requires IdLe(a, b) && IdLe(b, c)
    ensures IdLe(a, c)
  {
    if a != [] && a[0] == b[0] && b[0] == c[0] { IdLeTransitive(a[1..], b[1..], c[1..]); }
  }

  lemma BetterIsTotalOrder()
    ensures TotalOrder(Better)
  {
    forall x, y ensures (Better(x, y) || Better(y, x)) && (Better(x, y) && Better(y, x) ==> x == y) { IdLeTotal(x.0, y.0); }
    forall x, y, z | Better(x, y) && Better(y, z) ensures Better(x, z) {
      if x.1 == y.1 && y.1 == z.1 { IdLeTransitive(x.0, y.0, z.0); }
    }
  }

  // ----- what a ranking is

  /** `r` are the `k` best of `scored`, in order: followed by the others they form its sorted arrangement. */
  ghost predicate IsTopK(r: seq<Scored>, scored: seq<Scored>, k: nat) {
    |r| == Min(k, |scored|) && exists rest :: Arranges(r, rest, scored)
  }

  ghost predicate Arranges(r: seq<Scored>, rest: seq<Scored>, scored: seq<Scored>) {
    Sorted(r + rest, Better) && multiset(r + rest) == multiset(scored)
  }

  lemma TopKIsUnique(r: seq<Scored>, r': seq<Scored>, scored: seq<Scored>, k: nat)
    requires IsTopK(r, scored, k) && IsTopK(r', scored, k)
    ensures r == r'
  {
    var rest :| Arranges(r, rest, scored);
    var rest' :| Arranges(r', rest', scored);
    BetterIsTotalOrder();
    SortedUnique(r + rest, r' + rest', Better);
    assert r == (r + rest)[..|r|] && r' == (r' + rest')[..|r'|];
  }

  /** A ranking fails exactly on bad arguments, and otherwise returns the top k of the scored documents. */
  lemma RankingIsTopK(query: Vector, documents: seq<Vector>, ids: seq<string>, topK: int, norm: Vector -> real)
    ensures var r := RankDocuments(query, documents, ids, topK, norm);
            && (r.Ok? <==> |documents| == |ids| && topK >= 1 && OneDimension(query, documents))
            && (r.Ok? ==> IsTopK(r.value, ScoreAll(query, documents, ids, norm), topK))
  {
    var r := RankDocuments(query, documents, ids, topK, norm);
    if r.Ok? {
      var scored := ScoreAll(query, documents, ids, norm);
      var sorted := Sort(scored, Better);
      BetterIsTotalOrder();
      SortProperties(scored, Better);
      assert sorted == r.value + sorted[|r.value|..];
      assert Arranges(r.value, sorted[|r.value|..], scored);
    }
  }

  /** Every returned document beats every document left out, whatever its place in the input. */
  lemma ReturnedBeatOmitted(r: seq<Scored>, scored: seq<Scored>, k: nat, i: nat, x: Scored)
    requires IsTopK(r, scored, k) && i < |r| && x in scored && x !in r
    ensures Better(r[i], x)
  {
    var rest :| Arranges(r, rest, scored);
    assert x in multiset(r + rest);
    var j :| 0 <= j < |r + rest| && (r + rest)[j] == x;
    assert j >= |r|;
    assert (r + rest)[i] == r[i];
  }

  /** Comparison by code points: a prefix comes first, and otherwise the first difference decides. */
  lemma {:induction false} IdLeIsLexicographic(a: string, b: string)
    ensures IdLe(a, b) <==> a <= b || exists i: nat :: DiffersFirstAt(a, b, i) && a[i] < b[i]
  {
    if a != [] && b != [] {
      assert a == [a[0]] + a[1..] && b == [b[0]] + b[1..];
      if a[0] == b[0] {
        assert a <= b <==> a[1..] <= b[1..];
        IdLeIsLexicographic(a[1..], b[1..]);
        if i: nat :| DiffersFirstAt(a[1..], b[1..], i) && a[1..][i] < b[1..][i] {
          assert a[..i + 1] == [a[0]] + a[1..][..i] && b[..i + 1] == [b[0]] + b[1..][..i];
          assert DiffersFirstAt(a, b, i + 1);
        }
        if i: nat :| DiffersFirstAt(a, b, i) && a[i] < b[i] {
          assert a[1..][..i - 1] == a[..i][1..] && b[1..][..i - 1] == b[..i][1..];
          assert DiffersFirstAt(a[1..], b[1..], i - 1);
        }
      } else {
        assert DiffersFirstAt(a, b, 0);
        if i: nat :| DiffersFirstAt(a, b, i) && a[i] < b[i] {
          if i > 0 { assert a[..i][0] == b[..i][0]; }
        }
      }
    }
  }

  predicate DiffersFirstAt(a: string, b: string, i: nat) {
    i < |a| && i < |b| && a[..i] == b[..i] && a[i] != b[i]
  }

  /** `x` is the id of document `j` with its cosine to the query. */
  ghost predicate IsScoreOf(x: Scored, query: Vector, documents: seq<Vector>, ids: seq<string>, norm: Vector -> real, j: nat) {
    j < |ids| && j < |documents| && x.0 == ids[j] && CosineSimilarity(query, documents[j], norm) == Ok(x.1)
  }

  ghost predicate IsScored(x: Scored, query: Vector, documents: seq<Vector>, ids: seq<string>, norm: Vector -> real) {
    exists j: nat :: IsScoreOf(x, query, documents, ids, norm, j)
  }

  /** A higher score, or the same score and the smaller id. */
  ghost predicate ComesBefore(x: Scored, y: Scored) { x.1 > y.1 || (x.1 == y.1 && IdLe(x.0, y.0)) }

  /**
   What a ranking means: every entry is a document's id with its own cosine, entries come by falling
   score and then by id, and a document that is left out comes after all that are returned.
   */
  lemma RankingMeaning(query: Vector, documents: seq<Vector>, ids: seq<string>, topK: int, norm: Vector -> real)
    requires RankDocuments(query, documents, ids, topK, norm).Ok?
    ensures var r := RankDocuments(query, documents, ids, topK, norm).value;
            && topK >= 1 && |r| == Min(topK, |ids|)
            && (forall i | 0 <= i < |r| :: IsScored(r[i], query, documents, ids, norm))
            && (forall i, j | 0 <= i < j < |r| :: ComesBefore(r[i], r[j]))
            && (forall x: Scored, j: nat, i | IsScoreOf(x, query, documents, ids, norm, j) && x !in r && 0 <= i < |r| :: ComesBefore(r[i], x))
  {
    var r := RankDocuments(query, documents, ids, topK, norm).value;
    var scored := ScoreAll(query, documents, ids, norm);
    RankingIsTopK(query, documents, ids, topK, norm);
    forall i | 0 <= i < |r| ensures IsScored(r[i], query, documents, ids, norm) {
      TopKMember(r, scored, topK, r[i]);
      var j: nat :| j < |scored| && scored[j] == r[i];
      assert IsScoreOf(r[i], query, documents, ids, norm, j);
    }
    forall i, j | 0 <= i < j < |r| ensures ComesBefore(r[i], r[j]) { TopKInOrder(r, scored, topK, i, j); }
    forall x: Scored, j: nat, i | IsScoreOf(x, query, documents, ids, norm, j) && x !in r && 0 <= i < |r| ensures ComesBefore(r[i], x) {
      assert scored[j] == x;
      ReturnedBeatOmitted(r, scored, topK, i, x);
    }
  }

  lemma TopKMember(r: seq<Scored>, scored: seq<Scored>, k: nat, x: Scored)
    requires IsTopK(r, scored, k) && x in r
    ensures x in scored
  {
    var rest :| Arranges(r, rest, scored);
    assert x in r + rest && x in multiset(r + rest);
  }

  lemma TopKInOrder(r: seq<Scored>, scored: seq<Scored>, k: nat, i: nat, j: nat)
    requires IsTopK(r, scored, k) && i < j < |r|
    ensures Better(r[i], r[j])
  {
    var rest :| Arranges(r, rest, scored);
    assert (r + rest)[i] == r[i] && (r + rest)[j] == r[j];
  }

  /** The order in which documents are listed does not matter. */
  lemma ListingOrderIsIrrelevant(
    query: Vector, documents: seq<Vector>, ids: seq<string>, documents': seq<Vector>, ids': seq<string>, topK: int, norm: Vector -> real)
    requires |documents| == |ids| && |documents'| == |ids'| && topK >= 1
    requires OneDimension(query, documents) && OneDimension(query, documents')
    requires multiset(ScoreAll(query, documents, ids, norm)) == multiset(ScoreAll(query, documents', ids', norm))
    ensures RankDocuments(query, documents, ids, topK, norm) == RankDocuments(query, documents', ids', topK, norm)
  {
    BetterIsTotalOrder();
    SortIgnoresInputOrder(ScoreAll(query, documents, ids, norm), ScoreAll(query, documents', ids', norm), Better);
  }

  // ----- normalisation

  /** Each document replaced by its normalisation. */
  ghost predicate AreNormalized(documents: seq<Vector>, normalized: seq<Vector>, norm: Vector -> real) {
    |normalized| == |documents| && forall i | 0 <= i < |documents| :: NormalizeVector(documents[i], norm) == Ok(normalized[i])
  }

  /**
   Ranking normalised vectors, as the evaluation does, gives the same result as ranking the vectors
   themselves: the same documents, the same order, the same scores and the same errors.
   */
  lemma RankingIgnoresNormalization(
    query: Vector, unit: Vector, documents: seq<Vector>, normalized: seq<Vector>, ids: seq<string>, topK: int, norm: Vector -> real)
    requires Exact(norm) && NormalizeVector(query, norm) == Ok(unit) && AreNormalized(documents, normalized, norm)
    ensures RankDocuments(unit, normalized, ids, topK, norm) == RankDocuments(query, documents, ids, topK, norm)
  {
    forall i | 0 <= i < |documents| ensures Score(unit, normalized[i], norm) == Score(query, documents[i], norm) {
      CosineOfNormalized(query, documents[i], norm);
    }
    if |documents| == |ids| {
      assert ScoreAll(unit, normalized, ids, norm) == ScoreAll(query, documents, ids, norm);
    }
  }

  /** Scores reported by a ranking are cosines: between -1 and 1. */
  lemma ScoresInRange(query: Vector, documents: seq<Vector>, ids: seq<string>, topK: int, norm: Vector -> real, i: nat)
    requires Exact(norm)
    requires var r := RankDocuments(query, documents, ids, topK, norm); r.Ok? && i < |r.value|
    ensures -1.0 <= RankDocuments(query, documents, ids, topK, norm).value[i].1 <= 1.0
  {
    var r := RankDocuments(query, documents, ids, topK, norm).value;
    var scored := ScoreAll(query, documents, ids, norm);
    BetterIsTotalOrder();
    SortProperties(scored, Better);
    assert r[i] in multiset(Sort(scored, Better));
    var j :| 0 <= j < |scored| && scored[j] == r[i];
    CosineInRange(query, documents[j], norm);
  }
}
