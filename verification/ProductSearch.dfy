/**
 Product search: the window query over the catalog, and the reading of its rows.  The distance of a
 product's embedding to the query vector is an argument, and so is the database's case folding.
 */
module ProductSearch {
  import opened Common
  import opened Sorting

  datatype Product = Product(name: string, category: string, active: bool)

  datatype Variant = Variant(product: nat, sku: string, priceKzt: int, active: bool)

  datatype EmbeddingKey = EmbeddingKey(provider: string, model: string, dimensions: nat)

  /** Keyed by id; stock by variant and embeddings by product, one each. */
  datatype Tables = Tables(
    products: map<nat, Product>, variants: map<nat, Variant>, stock: map<nat, int>, embeddings: map<nat, EmbeddingKey>)

  datatype Request = Request(isProductSearch: bool, budgetMaxKzt: Option<int>, quantity: Option<int>, category: Option<string>)

  /** A joined row: a product with one of its variants. */
  datatype Row = Row(product: nat, variant: nat)

  /** The join conditions and the WHERE clause. */
  predicate Qualifies(t: Tables, request: Request, settings: EmbeddingKey, lower: string -> string, r: Row) {
    && r.product in t.products && r.variant in t.variants && t.variants[r.variant].product == r.product
    && r.variant in t.stock && r.product in t.embeddings
    && t.products[r.product].active && t.variants[r.variant].active
    && t.stock[r.variant] > 0
    && t.embeddings[r.product] == settings
    && (request.budgetMaxKzt.Some? ==> t.variants[r.variant].priceKzt <= request.budgetMaxKzt.value)
    && (request.quantity.Some? ==> t.stock[r.variant] >= request.quantity.value)
    && (request.category.Some? ==> lower(t.products[r.product].category) == lower(request.category.value))
  }

  /** Earlier in its partition: by distance, then variant id. */
  predicate Precedes(a: Row, b: Row, distance: nat -> real) {
    || distance(a.product) < distance(b.product)
    || (distance(a.product) == distance(b.product) && a.variant < b.variant)
  }

  /** The place of a row among the rows of its product, counted from one. */
  function RowNumber(rows: seq<Row>, r: Row, distance: nat -> real): nat {
    1 + |set x | x in rows && x.product == r.product && Precedes(x, r, distance)|
  }

  /** The rows of a part that come first in their partition. */
  function FirstRanked(part: seq<Row>, rows: seq<Row>, distance: nat -> real): seq<Row> {
    if part == [] then []
    else if RowNumber(rows, part[0], distance) == 1 then [part[0]] + FirstRanked(part[1..], rows, distance)
    else FirstRanked(part[1..], rows, distance)
  }

  /** In order of distance, then product id. */
  function Nearer(distance: nat -> real): (Row, Row) -> bool {
    (a: Row, b: Row) =>
      || distance(a.product) < distance(b.product)
      || (distance(a.product) == distance(b.product) && a.product <= b.product)
  }

  /** The outer statement, for the joined rows in whatever order the join delivers them. */
  function SearchRows(rows: seq<Row>, distance: nat -> real, limit: nat): seq<Row> {
    var ranked := Sort(FirstRanked(rows, rows, distance), Nearer(distance));
    ranked[..Min(limit, |ranked|)]
  }

  // ----- the query against its meaning

  /** `r` is the joined row of its product with the smallest variant id. */
  ghost predicate SmallestVariant(rows: seq<Row>, r: Row) {
    r in rows && forall x | x in rows && x.product == r.product :: r.variant <= x.variant
  }

  function ProductsOf(rows: seq<Row>): set<nat> { set r | r in rows :: r.product }

  /** What a search should return: the nearest products, each once, through its smallest qualifying variant. */
  ghost predicate BestProducts(result: seq<Row>, rows: seq<Row>, distance: nat -> real, limit: nat) {
    && |result| == Min(limit, |ProductsOf(rows)|)
    && (forall i | 0 <= i < |result| :: SmallestVariant(rows, result[i]))
    && (forall i, j | 0 <= i < j < |result| :: result[i].product != result[j].product && Nearer(distance)(result[i], result[j]))
    && (forall i, r | 0 <= i < |result| && r in rows && r.product !in ProductsOf(result) :: Nearer(distance)(result[i], r))
  }

  lemma NearerIsPreorder(distance: nat -> real)
    ensures TotalPreorder(Nearer(distance))
  {
  }

  /** Within a partition the distance is the same, so the first row is the one with the smallest variant. */
  lemma FirstIsSmallest(rows: seq<Row>, r: Row, distance: nat -> real)
    requires r in rows
    ensures RowNumber(rows, r, distance) == 1 <==> SmallestVariant(rows, r)
  {
    var before := set x | x in rows && x.product == r.product && Precedes(x, r, distance);
    if RowNumber(rows, r, distance) == 1 {
      assert before == {};
      forall x | x in rows && x.product == r.product ensures r.variant <= x.variant { assert x !in before; }
    }
    if SmallestVariant(rows, r) { assert before == {}; }
  }

  lemma {:induction false} FirstRankedMembers(part: seq<Row>, rows: seq<Row>, distance: nat -> real, r: Row)
    requires forall x | x in part :: x in rows
    ensures r in FirstRanked(part, rows, distance) <==> r in part && SmallestVariant(rows, r)
  {
    if part != [] {
      assert part[0] in part && forall x | x in part[1..] :: x in part;
      FirstRankedMembers(part[1..], rows, distance, r);
      FirstIsSmallest(rows, part[0], distance);
      assert r in part <==> r == part[0] || r in part[1..];
    }
  }

  lemma {:induction false} FirstRankedDistinct(part: seq<Row>, rows: seq<Row>, distance: nat -> real)
    requires Distinct(part) && forall x | x in part :: x in rows
    ensures Distinct(FirstRanked(part, rows, distance))
  {
    if part != [] {
      assert part[0] in part && forall x | x in part[1..] :: x in part;
      FirstRankedDistinct(part[1..], rows, distance);
      FirstRankedMembers(part[1..], rows, distance, part[0]);
    }
  }

  lemma {:induction false} SmallestVariantExists(rows: seq<Row>, p: nat)
    requires p in ProductsOf(rows)
    ensures exists r: Row :: r.product == p && SmallestVariant(rows, r)
  {
    var front, last := rows[..|rows| - 1], rows[|rows| - 1];
    assert forall x | x in rows :: x in front || x == last;
    if p in ProductsOf(front) {
      SmallestVariantExists(front, p);
      var r: Row :| r.product == p && SmallestVariant(front, r);
      var best := if last.product == p && last.variant < r.variant then last else r;
      assert SmallestVariant(rows, best);
    } else {
      assert SmallestVariant(rows, last);
    }
  }

  /** The sorted first-ranked rows: one per product, each through its smallest variant. */
  ghost predicate OnePerProduct(ranked: seq<Row>, rows: seq<Row>) {
    && (forall i | 0 <= i < |ranked| :: SmallestVariant(rows, ranked[i]))
    && (forall i, j | 0 <= i < j < |ranked| :: ranked[i].product != ranked[j].product)
    && ProductsOf(ranked) == ProductsOf(rows)
  }

  lemma RankedOnePerProduct(rows: seq<Row>, distance: nat -> real)
    requires Distinct(rows)
    ensures OnePerProduct(Sort(FirstRanked(rows, rows, distance), Nearer(distance)), rows)
    ensures Sorted(Sort(FirstRanked(rows, rows, distance), Nearer(distance)), Nearer(distance))
  {
    var first, le := FirstRanked(rows, rows, distance), Nearer(distance);
    var ranked := Sort(first, le);
    NearerIsPreorder(distance);
    SortProperties(first, le);
    FirstRankedDistinct(rows, rows, distance);
    SortKeepsDistinct(first, le);
    forall r ensures r in ranked <==> SmallestVariant(rows, r) {
      SortMembers(first, le, r);
      FirstRankedMembers(rows, rows, distance, r);
    }
    forall i, j | 0 <= i < j < |ranked| ensures ranked[i].product != ranked[j].product {
      assert ranked[i] in ranked && ranked[j] in ranked;
    }
    forall p | p in ProductsOf(rows) ensures p in ProductsOf(ranked) {
      SmallestVariantExists(rows, p);
      var r: Row :| r.product == p && SmallestVariant(rows, r);
      assert r in ranked;
    }
  }

  lemma {:induction false} OneRowPerProductCount(ranked: seq<Row>)
    requires forall i, j | 0 <= i < j < |ranked| :: ranked[i].product != ranked[j].product
    ensures |ProductsOf(ranked)| == |ranked|
  {
    if ranked != [] {
      var front, last := ranked[..|ranked| - 1], ranked[|ranked| - 1];
      OneRowPerProductCount(front);
      assert last.product !in ProductsOf(front);
      assert ProductsOf(ranked) == ProductsOf(front) + {last.product};
    }
  }

  /** The window query returns exactly the best products. */
  lemma SearchReturnsBestProducts(rows: seq<Row>, distance: nat -> real, limit: nat)
    requires Distinct(rows)
    ensures BestProducts(SearchRows(rows, distance, limit), rows, distance, limit)
  {
    var ranked := Sort(FirstRanked(rows, rows, distance), Nearer(distance));
    var result := SearchRows(rows, distance, limit);
    RankedOnePerProduct(rows, distance);
    OneRowPerProductCount(ranked);
    assert forall i | 0 <= i < |result| :: ranked[i] in result;
    forall i, r | 0 <= i < |result| && r in rows && r.product !in ProductsOf(result) ensures Nearer(distance)(result[i], r) {
      assert r.product in ProductsOf(ranked);
      var k :| 0 <= k < |ranked| && ranked[k].product == r.product;
      assert Nearer(distance)(ranked[i], ranked[k]);
    }
  }

  /** There is only one such answer: the meaning determines the rows and their order. */
  lemma BestProductsAreUnique(a: seq<Row>, b: seq<Row>, rows: seq<Row>, distance: nat -> real, limit: nat)
    requires BestProducts(a, rows, distance, limit) && BestProducts(b, rows, distance, limit)
    ensures a == b
  {
    forall k: nat ensures ForcedAt(a, b, k) {
      if k < |a| && a[..k] == b[..k] {
        assert forall i | 0 <= i < k :: a[i] == a[..k][i] == b[..k][i] == b[i];
        NextBestIsForced(a, b, rows, distance, limit, k);
      }
    }
    AgreeUpTo(a, b, |a|);
  }

  /** Agreement before `k` forces agreement at `k`. */
  ghost predicate ForcedAt(a: seq<Row>, b: seq<Row>, k: nat)
    requires |a| == |b|
  {
    k < |a| && a[..k] == b[..k] ==> a[k] == b[k]
  }

  lemma {:induction false} AgreeUpTo(a: seq<Row>, b: seq<Row>, k: nat)
    requires |a| == |b| && k <= |a| && forall i: nat :: ForcedAt(a, b, i)
    ensures a[..k] == b[..k]
  {
    if k > 0 {
      AgreeUpTo(a, b, k - 1);
      assert ForcedAt(a, b, k - 1);
    }
  }

  lemma NextBestIsForced(a: seq<Row>, b: seq<Row>, rows: seq<Row>, distance: nat -> real, limit: nat, k: nat)
    requires BestProducts(a, rows, distance, limit) && BestProducts(b, rows, distance, limit)
    requires k < |a| && forall i | 0 <= i < k :: a[i] == b[i]
    ensures a[k] == b[k]
  {
    assert SmallestVariant(rows, a[k]) && SmallestVariant(rows, b[k]);
    assert forall i | 0 <= i < k :: a[i].product != b[k].product && b[i].product != a[k].product;
    NotLater(a, b[k], rows, distance, k);
    NotLater(b, a[k], rows, distance, k);
  }

  /** A product not among the first `k` of a best list is no nearer than the next of that list. */
  lemma NotLater(a: seq<Row>, r: Row, rows: seq<Row>, distance: nat -> real, k: nat)
    requires k < |a| && forall j | k < j < |a| :: Nearer(distance)(a[k], a[j])
    requires forall x | x in rows && x.product !in ProductsOf(a) :: Nearer(distance)(a[k], x)
    requires r in rows && forall i | 0 <= i < k :: a[i].product != r.product
    ensures Nearer(distance)(a[k], r)
  {
    if r.product in ProductsOf(a) {
      var x :| x in a && x.product == r.product;
      var j :| 0 <= j < |a| && a[j] == x;
      assert j >= k;
    }
  }

  // ----- reading the rows

  const SIMILARITY_EPSILON := 0.000001

  datatype SearchError = ValidationFailed | ExecutionFailed

  function ClampSimilarity(distance: real): Result<real, SearchError> {
    var similarity := 1.0 - distance;
    if 1.0 < similarity <= 1.0 + SIMILARITY_EPSILON then Ok(1.0)
    else if -1.0 - SIMILARITY_EPSILON <= similarity < -1.0 then Ok(-1.0)
    else if similarity < -1.0 || similarity > 1.0 then Err(ExecutionFailed)
    else Ok(similarity)
  }

  /** Clamping fails exactly beyond the tolerance, lands in [-1, 1], moves a value by at most the tolerance and keeps order. */
  lemma ClampLaws(d: real, e: real)
    requires d <= e
    ensures ClampSimilarity(d).Ok? <==> -0.000001 <= d <= 2.000001
    ensures ClampSimilarity(d).Ok? ==>
              var s := ClampSimilarity(d).value;
              && -1.0 <= s <= 1.0
              && -0.000001 <= s - (1.0 - d) <= 0.000001
              && (0.0 <= d <= 2.0 ==> s == 1.0 - d)
    ensures ClampSimilarity(d).Ok? && ClampSimilarity(e).Ok? ==> ClampSimilarity(e).value <= ClampSimilarity(d).value
  {
  }

  datatype Found = Found(row: Row, similarity: real)

  const MAX_LIMIT := 10

  /** What makes a search succeed with `found`. */
  ghost predicate Answers(found: seq<Found>, rows: seq<Row>, distance: nat -> real, limit: nat) {
    && |found| == |SearchRows(rows, distance, limit)|
    && forall i | 0 <= i < |found| ::
         && found[i].row == SearchRows(rows, distance, limit)[i]
         && ClampSimilarity(distance(found[i].row.product)) == Ok(found[i].similarity)
  }

  /** What makes a search fail: no usable query embedding, a failing database, or an impossible similarity. */
  ghost predicate Fails(embedded: Option<nat>, settings: EmbeddingKey, rows: Option<seq<Row>>, distance: nat -> real, limit: nat) {
    || embedded != Some(settings.dimensions)
    || rows.None?
    || exists x :: x in SearchRows(rows.value, distance, limit) && ClampSimilarity(distance(x.product)).Err?
  }

  /**
   search_products.  `embedded` is the dimension of the query embedding, if there is one, and
   `rows` are the joined rows, or nothing if the database fails.
   */
  method SearchProducts(
    request: Request, limit: int, embedded: Option<nat>, settings: EmbeddingKey, rows: Option<seq<Row>>, distance: nat -> real)
    returns (r: Result<seq<Found>, SearchError>)
    ensures !request.isProductSearch ==> r == Ok([])
    ensures request.isProductSearch && !(1 <= limit <= 10) ==> r == Err(ValidationFailed)
    ensures request.isProductSearch && 1 <= limit <= 10 ==>
              && (r.Ok? ==> embedded == Some(settings.dimensions) && rows.Some? && Answers(r.value, rows.value, distance, limit))
              && (r.Err? ==> r.error == ExecutionFailed && Fails(embedded, settings, rows, distance, limit))
  {
    if !request.isProductSearch {
      return Ok([]);
    }
    if !(1 <= limit <= MAX_LIMIT) {
      return Err(ValidationFailed);
    }
    if embedded != Some(settings.dimensions) || rows.None? {
      return Err(ExecutionFailed);
    }
    var selected := SearchRows(rows.value, distance, limit);
    var found: seq<Found> := [];
    for i := 0 to |selected|
      invariant |found| == i
      invariant forall j | 0 <= j < i ::
        found[j].row == selected[j] && ClampSimilarity(distance(found[j].row.product)) == Ok(found[j].similarity)
    {
      var similarity := ClampSimilarity(distance(selected[i].product));
      if similarity.Err? {
        assert selected[i] in SearchRows(rows.value, distance, limit);
        return Err(ExecutionFailed);
      }
      found := found + [Found(selected[i], similarity.value)];
    }
    r := Ok(found);
  }

  /** Joined rows, in any order: exactly the qualifying pairs of product and variant. */
  ghost predicate Joins(rows: seq<Row>, t: Tables, request: Request, settings: EmbeddingKey, lower: string -> string) {
    Distinct(rows) && forall r :: r in rows <==> Qualifies(t, request, settings, lower, r)
  }

  /** What a customer can be offered for a request, column by column: in stock, active, indexed, and as asked for. */
  ghost predicate IsOffered(t: Tables, request: Request, settings: EmbeddingKey, lower: string -> string, p: nat, v: nat)
  {
    && p in t.products && v in t.variants && v in t.stock && p in t.embeddings
    && t.variants[v].product == p && t.products[p].active && t.variants[v].active && t.stock[v] > 0
    && t.embeddings[p].provider == settings.provider && t.embeddings[p].model == settings.model
    && t.embeddings[p].dimensions == settings.dimensions
    && (match request.budgetMaxKzt case Some(budget) => t.variants[v].priceKzt <= budget case None => true)
    && (match request.quantity case Some(quantity) => quantity <= t.stock[v] case None => true)
    && (match request.category case Some(category) => lower(t.products[p].category) == lower(category) case None => true)
  }

  /** The nearer product, or of two equally near ones the one with the smaller id. */
  ghost predicate ComesFirst(distance: nat -> real, p: nat, q: nat) {
    distance(p) < distance(q) || (distance(p) == distance(q) && p < q)
  }

  ghost predicate IsFound(found: seq<Found>, p: nat) { exists i :: 0 <= i < |found| && found[i].row.product == p }

  /**
   The search against the catalog's columns: what is found is on offer, comes in order of distance and
   id, and a product on offer is left out only when `limit` products that come before it are found.
   */
  lemma SearchFindsTheOffered(
    found: seq<Found>, rows: seq<Row>, t: Tables, request: Request, settings: EmbeddingKey, lower: string -> string,
    distance: nat -> real, limit: nat)
    requires Joins(rows, t, request, settings, lower) && Answers(found, rows, distance, limit)
    ensures forall i | 0 <= i < |found| :: IsOffered(t, request, settings, lower, found[i].row.product, found[i].row.variant)
    ensures forall i, v | 0 <= i < |found| && IsOffered(t, request, settings, lower, found[i].row.product, v) :: found[i].row.variant <= v
    ensures forall i, j | 0 <= i < j < |found| :: ComesFirst(distance, found[i].row.product, found[j].row.product)
    ensures forall p, v | IsOffered(t, request, settings, lower, p, v) && !IsFound(found, p) ::
              |found| == limit && forall i | 0 <= i < |found| :: ComesFirst(distance, found[i].row.product, p)
  {
    var result := SearchRows(rows, distance, limit);
    SearchReturnsBestProducts(rows, distance, limit);
    OfferedQualifies(t, request, settings, lower);
    forall i | 0 <= i < |found|
      ensures IsOffered(t, request, settings, lower, found[i].row.product, found[i].row.variant)
      ensures forall v | IsOffered(t, request, settings, lower, found[i].row.product, v) :: found[i].row.variant <= v
    {
      assert SmallestVariant(rows, result[i]) && found[i].row == result[i];
      forall v | IsOffered(t, request, settings, lower, found[i].row.product, v) ensures found[i].row.variant <= v {
        assert Row(found[i].row.product, v) in rows;
      }
    }
    forall i, j | 0 <= i < j < |found| ensures ComesFirst(distance, found[i].row.product, found[j].row.product) {
      assert Nearer(distance)(result[i], result[j]);
    }
    forall p, v | IsOffered(t, request, settings, lower, p, v) && !IsFound(found, p)
      ensures |found| == limit && forall i | 0 <= i < |found| :: ComesFirst(distance, found[i].row.product, p)
    {
      OmittedComeLater(found, rows, distance, limit, p, v);
    }
  }

  lemma OfferedQualifies(t: Tables, request: Request, settings: EmbeddingKey, lower: string -> string)
    ensures forall p, v :: IsOffered(t, request, settings, lower, p, v) <==> Qualifies(t, request, settings, lower, Row(p, v))
  {
  }

  lemma OmittedComeLater(found: seq<Found>, rows: seq<Row>, distance: nat -> real, limit: nat, p: nat, v: nat)
    requires Distinct(rows) && Answers(found, rows, distance, limit) && Row(p, v) in rows && !IsFound(found, p)
    ensures |found| == limit && forall i | 0 <= i < |found| :: ComesFirst(distance, found[i].row.product, p)
  {
    var result := SearchRows(rows, distance, limit);
    SearchReturnsBestProducts(rows, distance, limit);
    forall i | 0 <= i < |result| ensures result[i].product != p { assert found[i].row == result[i]; }
    forall i | 0 <= i < |found| ensures ComesFirst(distance, found[i].row.product, p) {
      assert Nearer(distance)(result[i], Row(p, v)) && found[i].row.product != p;
    }
    assert ProductsOf(result) <= ProductsOf(rows);
    OneRowPerProductCount(result);
    if |result| == |ProductsOf(rows)| {
      SubsetSize(ProductsOf(result), ProductsOf(rows) - {p});
    }
  }

  /**
   A successful search returns at most `limit` distinct products, the best ones with a qualifying
   variant, each through the smallest such variant and with non-increasing similarity in [-1, 1].
   */
  lemma SearchMeaning(
    found: seq<Found>, rows: seq<Row>, t: Tables, request: Request, settings: EmbeddingKey, lower: string -> string,
    distance: nat -> real, limit: nat)
    requires Joins(rows, t, request, settings, lower) && Answers(found, rows, distance, limit)
    ensures |found| <= limit && BestProducts(SearchRows(rows, distance, limit), rows, distance, limit)
    ensures forall i | 0 <= i < |found| ::
              && found[i].row in SearchRows(rows, distance, limit)
              && Qualifies(t, request, settings, lower, found[i].row)
              && (forall v | Qualifies(t, request, settings, lower, Row(found[i].row.product, v)) :: found[i].row.variant <= v)
              && -1.0 <= found[i].similarity <= 1.0
    ensures forall i, j | 0 <= i < j < |found| ::
              found[i].row.product != found[j].row.product && found[i].similarity >= found[j].similarity
  {
    var result := SearchRows(rows, distance, limit);
    SearchReturnsBestProducts(rows, distance, limit);
    forall i | 0 <= i < |found|
      ensures found[i].row in result && Qualifies(t, request, settings, lower, found[i].row)
      ensures forall v | Qualifies(t, request, settings, lower, Row(found[i].row.product, v)) :: found[i].row.variant <= v
      ensures -1.0 <= found[i].similarity <= 1.0
    {
      assert SmallestVariant(rows, result[i]);
      ClampLaws(distance(found[i].row.product), distance(found[i].row.product));
      forall v | Qualifies(t, request, settings, lower, Row(found[i].row.product, v)) ensures found[i].row.variant <= v {
        assert Row(found[i].row.product, v) in rows;
      }
    }
    forall i, j | 0 <= i < j < |found|
      ensures found[i].row.product != found[j].row.product && found[i].similarity >= found[j].similarity
    {
      assert Nearer(distance)(result[i], result[j]);
      ClampLaws(distance(result[i].product), distance(result[j].product));
    }
  }
}
