/** The catalog writers as the program runs them: statements and loops on a session's tables. */
module CatalogSession {
  import opened Common
  import opened Upserts
  import opened Catalog
  import opened CatalogWriters

  // ----- validating a file

  datatype RowError = SlugMismatch(rowNumber: nat) | DuplicateSku(rowNumber: nat)

  predicate SkuSeen(rows: seq<CatalogRow>, i: nat)
    requires i < |rows|
  {
    exists j | 0 <= j < i :: rows[j].sku == rows[i].sku
  }

  predicate RowRejected(rows: seq<CatalogRow>, slug: string, i: nat)
    requires i < |rows|
  {
    rows[i].slug != slug || SkuSeen(rows, i)
  }

  /** The file's row numbers of the rejected rows among the first n. */
  function RejectedRows(rows: seq<CatalogRow>, slug: string, n: nat): set<nat>
    requires n <= |rows|
  {
    if n == 0 then {} else RejectedRows(rows, slug, n - 1) + (if RowRejected(rows, slug, n - 1) then {n + 1} else {})
  }

  /** A row number is affected exactly when its row is rejected. */
  lemma {:induction false} RejectedRowsAre(rows: seq<CatalogRow>, slug: string, n: nat, i: nat)
    requires n <= |rows| && i < |rows|
    ensures i + 2 in RejectedRows(rows, slug, n) <==>
              i < n && (rows[i].slug != slug || exists j | 0 <= j < i :: rows[j].sku == rows[i].sku)
  {
    if n != 0 { RejectedRowsAre(rows, slug, n - 1, i); }
  }

  /** The rejected rows by their position in the file. */
  function RejectedPositions(rows: seq<CatalogRow>, slug: string, n: nat): set<nat>
    requires n <= |rows|
  {
    set i: nat | i < n && RowRejected(rows, slug, i)
  }

  lemma {:induction false} RejectedNumbers(rows: seq<CatalogRow>, slug: string, n: nat)
    requires n <= |rows|
    ensures forall x | x in RejectedRows(rows, slug, n) :: 2 <= x < n + 2
  {
    if n != 0 { RejectedNumbers(rows, slug, n - 1); }
  }

  lemma SameGrowth(a: set<nat>, b: set<nat>, x: nat, y: nat, grow: bool)
    requires |a| == |b| && x !in a && y !in b
    ensures |a + (if grow then {x} else {})| == |b + (if grow then {y} else {})|
  {
    if !grow { assert a + {} == a && b + {} == b; }
  }

  lemma NoPosition(rows: seq<CatalogRow>, slug: string)
    ensures RejectedPositions(rows, slug, 0) == {}
  {
  }

  /** There are as many affected row numbers as rejected rows. */
  lemma {:induction false} RejectedRowsAreCounted(rows: seq<CatalogRow>, slug: string, n: nat)
    requires n <= |rows|
    ensures |RejectedRows(rows, slug, n)| == |RejectedPositions(rows, slug, n)|
  {
    if n == 0 {
      NoPosition(rows, slug);
    } else {
      RejectedRowsAreCounted(rows, slug, n - 1);
      NextPosition(rows, slug, n - 1);
      RejectedNumbers(rows, slug, n - 1);
      SameGrowth(RejectedRows(rows, slug, n - 1), RejectedPositions(rows, slug, n - 1), n + 1, n - 1, RowRejected(rows, slug, n - 1));
    }
  }

  lemma NextPosition(rows: seq<CatalogRow>, slug: string, n: nat)
    requires n < |rows|
    ensures n !in RejectedPositions(rows, slug, n)
    ensures RejectedPositions(rows, slug, n + 1) == RejectedPositions(rows, slug, n) + (if RowRejected(rows, slug, n) then {n} else {})
  {
    var all, before := RejectedPositions(rows, slug, n + 1), RejectedPositions(rows, slug, n);
    forall i: nat ensures i in all <==> i in before || (i == n && RowRejected(rows, slug, n)) {}
  }

  /** At most all rows are rejected, so valid_rows is never negative. */
  lemma {:induction false} RejectedAtMostAll(rows: seq<CatalogRow>, slug: string, n: nat)
    requires n <= |rows|
    ensures |RejectedRows(rows, slug, n)| <= n
  {
    if n != 0 { RejectedAtMostAll(rows, slug, n - 1); }
  }

  /** The errors of the first n rows, numbered from 2 as in the file. */
  function RowErrors(rows: seq<CatalogRow>, slug: string, n: nat): seq<RowError>
    requires n <= |rows|
  {
    if n == 0 then [] else
      RowErrors(rows, slug, n - 1)
      + (if rows[n - 1].slug != slug then [SlugMismatch(n + 1)] else [])
      + (if SkuSeen(rows, n - 1) then [DuplicateSku(n + 1)] else [])
  }

  lemma {:induction false} RowErrorsFollowChecks(rows: seq<CatalogRow>, slug: string, n: nat, i: nat)
    requires n <= |rows| && i < |rows|
    ensures SlugMismatch(i + 2) in RowErrors(rows, slug, n) <==> i < n && rows[i].slug != slug
    ensures DuplicateSku(i + 2) in RowErrors(rows, slug, n) <==> i < n && SkuSeen(rows, i)
  {
    if n != 0 { RowErrorsFollowChecks(rows, slug, n - 1, i); }
  }

  /** Both errors of a row are reported, each exactly when it applies. */
  lemma RowErrorsAre(rows: seq<CatalogRow>, slug: string, n: nat, i: nat)
    requires n <= |rows| && i < |rows|
    ensures SlugMismatch(i + 2) in RowErrors(rows, slug, n) <==> i < n && rows[i].slug != slug
    ensures DuplicateSku(i + 2) in RowErrors(rows, slug, n) <==> i < n && exists j | 0 <= j < i :: rows[j].sku == rows[i].sku
  {
    RowErrorsFollowChecks(rows, slug, n, i);
  }

  ghost predicate InFileOrder(errors: seq<RowError>, n: nat) {
    && (forall a | 0 <= a < |errors| :: 2 <= errors[a].rowNumber < n + 2)
    && (forall a, b | 0 <= a < b < |errors| :: errors[a].rowNumber <= errors[b].rowNumber)
  }

  lemma InOrderAppend(errors: seq<RowError>, more: seq<RowError>, n: nat)
    requires InFileOrder(errors, n) && |more| <= 2 && forall a | 0 <= a < |more| :: more[a].rowNumber == n + 2
    ensures InFileOrder(errors + more, n + 1)
  {
  }

  /** Errors are reported in file order. */
  lemma {:induction false} RowErrorsInOrder(rows: seq<CatalogRow>, slug: string, n: nat)
    requires n <= |rows|
    ensures InFileOrder(RowErrors(rows, slug, n), n)
  {
    if n != 0 {
      RowErrorsInOrder(rows, slug, n - 1);
      var more := (if rows[n - 1].slug != slug then [SlugMismatch(n + 1)] else []) + (if SkuSeen(rows, n - 1) then [DuplicateSku(n + 1)] else []);
      InOrderAppend(RowErrors(rows, slug, n - 1), more, n - 1);
      assert RowErrors(rows, slug, n) == RowErrors(rows, slug, n - 1) + more;
    }
  }

  predicate ValidFile(rows: seq<CatalogRow>, slug: string) { RowErrors(rows, slug, |rows|) == [] }

  lemma {:induction false} NoErrorsPrefix(rows: seq<CatalogRow>, slug: string, n: nat)
    requires n <= |rows|
    ensures RowErrors(rows, slug, n) == [] <==> forall i | 0 <= i < n :: !RowRejected(rows, slug, i)
  {
    if n != 0 {
      NoErrorsPrefix(rows, slug, n - 1);
      assert |RowErrors(rows, slug, n)| == 0 <==> |RowErrors(rows, slug, n - 1)| == 0 && !RowRejected(rows, slug, n - 1);
    }
  }

  /** A file passes validation exactly when all rows name the merchant and no SKU repeats. */
  lemma ValidFileMeans(rows: seq<CatalogRow>, slug: string)
    ensures ValidFile(rows, slug) <==> (forall i | 0 <= i < |rows| :: rows[i].slug == slug) && DistinctSkus(rows)
  {
    NoErrorsPrefix(rows, slug, |rows|);
    if ValidFile(rows, slug) {
      forall i, j | 0 <= i < j < |rows| ensures rows[i].sku != rows[j].sku {
        assert !RowRejected(rows, slug, j);
      }
      forall i | 0 <= i < |rows| ensures rows[i].slug == slug {
        assert !RowRejected(rows, slug, i);
      }
    } else {
      var i :| 0 <= i < |rows| && RowRejected(rows, slug, i);
    }
  }

  /** _validate_rows */
  method ValidateRows(rows: seq<CatalogRow>, slug: string) returns (errors: seq<RowError>, affected: set<nat>)
    ensures errors == RowErrors(rows, slug, |rows|)
    ensures affected == RejectedRows(rows, slug, |rows|)
  {
    errors, affected := [], {};
    var seen: set<string> := {};
    for i := 0 to |rows|
      invariant errors == RowErrors(rows, slug, i)
      invariant seen == set j | 0 <= j < i :: rows[j].sku
      invariant affected == RejectedRows(rows, slug, i)
    {
      var row := rows[i];
      assert row.sku in seen <==> SkuSeen(rows, i);
      if row.slug != slug {
        errors := errors + [SlugMismatch(i + 2)];
        affected := affected + {i + 2};
      }
      if row.sku in seen {
        errors := errors + [DuplicateSku(i + 2)];
        affected := affected + {i + 2};
      }
      seen := seen + {row.sku};
    }
  }

  // ----- sessions

  function VariantsOf(variants: map<Key, Variant>, productId: nat): set<Key> {
    set j | j in variants && variants[j].productId == productId
  }

  lemma Singleton<T>(s: set<T>, x: T)
    requires |s| == 1 && x in s
    ensures s == {x}
  {
    assert |s - {x}| == 0;
  }

  method ApplyProductChanges(p: Product, patch: Patch) returns (product: Product)
    ensures product == PatchedProduct(p, patch)
  {
    product := p;
    if patch.name.Some? { product := product.(name := patch.name.value); }
    if patch.category.Some? { product := product.(category := patch.category.value); }
    if patch.description.Some? { product := product.(description := patch.description.value); }
    if patch.active.Some? { product := product.(active := patch.active.value); }
  }

  method ApplyVariantChanges(v: Variant, patch: Patch) returns (variant: Variant)
    ensures variant == PatchedVariant(v, patch)
  {
    variant := v;
    if patch.size.Some? { variant := variant.(size := patch.size.value); }
    if patch.color.Some? { variant := variant.(color := patch.color.value); }
    if patch.material.Some? { variant := variant.(material := patch.material.value); }
    if patch.priceKzt.Some? { variant := variant.(priceKzt := patch.priceKzt.value); }
    if patch.imageUrl.Some? { variant := variant.(imageUrl := patch.imageUrl.value); }
    if patch.active.Some? { variant := variant.(active := patch.active.value); }
  }

  /** Product row k and variant row j are those of one product id, as patch_product locks them. */
  ghost predicate Located(t: Tables, productId: nat, k: Key, j: Key) {
    && k in t.products && t.products[k].id == productId
    && VariantsOf(t.variants, productId) == {j} && j in t.variants
    && t.variants[j].id in t.inventory
  }

  class Session {
    var products: map<Key, Product>
    var variants: map<Key, Variant>
    var inventory: map<nat, Stock>
    var tasks: map<nat, NewTask>
    var nextId: nat

    function View(): Tables
      reads this
    {
      Tables(products, variants, inventory, tasks, nextId)
    }

    constructor (t: Tables)
      ensures View() == t
    {
      products, variants, inventory, tasks, nextId := t.products, t.variants, t.inventory, t.tasks, t.nextId;
    }

    /** create_product; `merchant` is the merchant's active flag, if it exists. */
    method CreateProduct(merchantActive: Option<bool>, merchant: nat, payload: CatalogRow)
      returns (r: Option<WriteError>)
      modifies this
      ensures r == if merchantActive.None? then Some(MerchantNotFound)
                   else if !merchantActive.value then Some(MerchantInactive)
                   else if SkuKey(merchant, payload) in old(products) || SkuKey(merchant, payload) in old(variants) then Some(AlreadyExists)
                   else None
      ensures View() == if r.None? then Created(old(View()), merchant, payload) else old(View())
    {
      if merchantActive.None? {
        return Some(MerchantNotFound);
      }
      if !merchantActive.value {
        return Some(MerchantInactive);
      }
      var k := SkuKey(merchant, payload);
      if k in products || k in variants {
        return Some(AlreadyExists);
      }
      var id := nextId;
      nextId := nextId + 1;
      products := products[k := Product(id, payload.name, payload.category, payload.description, payload.active)];
      variants := variants[k := Variant(id, id, payload.size, payload.color, payload.material,
                                        payload.priceKzt, payload.imageUrl, payload.active)];
      inventory := inventory[id := Stock(id, payload.stock)];
      tasks := Schedule(tasks, id, NewTask(merchant, id, SEMANTIC_FIELDS));
      r := None;
    }

    /** patch_product */
    method PatchProduct(productId: nat, patch: Patch) returns (r: Result<(Key, Key), WriteError>)
      modifies this
      ensures patch == NO_CHANGES ==> r == Err(EmptyPatch)
      ensures patch != NO_CHANGES && (forall k | k in old(products) :: old(products)[k].id != productId) ==>
        r == Err(ProductNotFound)
      ensures patch != NO_CHANGES && (exists k :: k in old(products) && old(products)[k].id == productId) ==>
        && (r.Ok? || r == Err(InconsistentState))
        && (r == Err(InconsistentState) <==>
              forall j | VariantsOf(old(variants), productId) == {j} && j in old(variants) :: old(variants)[j].id !in old(inventory))
      ensures r.Err? ==> View() == old(View())
      ensures r.Ok? ==> Located(old(View()), productId, r.value.0, r.value.1)
                        && View() == Patched(old(View()), r.value.0, r.value.1, patch)
    {
      if patch == NO_CHANGES {
        return Err(EmptyPatch);
      }
      if k :| k in products && products[k].id == productId {
        var owned := VariantsOf(variants, productId);
        if |owned| != 1 {
          return Err(InconsistentState);
        }
        var j :| j in owned;
        Singleton(owned, j);
        if variants[j].id !in inventory {
          return Err(InconsistentState);
        }
        WritePatch(k, j, patch);
        return Ok((k, j));
      } else {
        return Err(ProductNotFound);
      }
    }

    method WritePatch(k: Key, j: Key, patch: Patch)
      requires k in products && j in variants && variants[j].id in inventory
      modifies this
      ensures View() == Patched(old(View()), k, j, patch)
    {
      var before := SemanticsOf(products[k], variants[j]);
      var stockId := variants[j].id;
      var product := ApplyProductChanges(products[k], patch);
      products := products[k := product];
      var variant := ApplyVariantChanges(variants[j], patch);
      variants := variants[j := variant];
      if patch.stock.Some? {
        inventory := inventory[stockId := inventory[stockId].(quantity := patch.stock.value)];
      }
      var changed := CompareSemantics(before, SemanticsOf(product, variant));
      tasks := Schedule(tasks, nextId, NewTask(k.0, product.id, changed));
      nextId := nextId + 1;
    }

    method UpsertProducts(merchant: nat, rows: seq<CatalogRow>)
      modifies this`products
      ensures View() == ImportProducts(old(View()), merchant, rows)
    {
      ghost var values := ProductValues(merchant, rows, nextId);
      for i := 0 to |rows|
        invariant products == Upsert(old(products), values[..i], UpdateProduct)
      {
        var r, k := rows[i], SkuKey(merchant, rows[i]);
        var excluded := Product(nextId + i, r.name, r.category, r.description, r.active);
        assert values[..i + 1][..i] == values[..i] && values[i] == (k, excluded);
        products := products[k := if k in products then excluded.(id := products[k].id) else excluded];
      }
      assert values[..|rows|] == values;
    }

    method UpsertVariants(merchant: nat, rows: seq<CatalogRow>)
      modifies this`variants
      ensures View() == ImportVariants(old(View()), merchant, rows)
    {
      ghost var values := VariantValues(merchant, rows, ProductIds(products), nextId);
      for i := 0 to |rows|
        invariant variants == Upsert(old(variants), values[..i], UpdateVariant)
      {
        var r, k := rows[i], SkuKey(merchant, rows[i]);
        var productId := if k in products then products[k].id else 0;
        var excluded := Variant(nextId + i, productId, r.size, r.color, r.material, r.priceKzt, r.imageUrl, r.active);
        assert values[..i + 1][..i] == values[..i] && values[i] == (k, excluded);
        variants := variants[k := if k in variants then excluded.(id := variants[k].id) else excluded];
      }
      assert values[..|rows|] == values;
    }

    method UpsertInventory(merchant: nat, rows: seq<CatalogRow>)
      modifies this`inventory
      ensures View() == ImportInventory(old(View()), merchant, rows)
    {
      ghost var values := StockValues(merchant, rows, VariantIds(variants), nextId);
      for i := 0 to |rows|
        invariant inventory == Upsert(old(inventory), values[..i], UpdateStock)
      {
        var k := SkuKey(merchant, rows[i]);
        var v := if k in variants then variants[k].id else 0;
        var excluded := Stock(nextId + i, rows[i].stock);
        assert values[..i + 1][..i] == values[..i] && values[i] == (v, excluded);
        inventory := inventory[v := if v in inventory then excluded.(id := inventory[v].id) else excluded];
      }
      assert values[..|rows|] == values;
    }

    /** _schedule_indexing_tasks; `before` is the catalog as read at the start of the transaction. */
    method ScheduleIndexingTasks(before: Tables, merchant: nat, rows: seq<CatalogRow>)
      requires tasks == before.tasks
      modifies this`tasks, this`nextId
      ensures View() == ImportTasks(before, old(View()), merchant, rows)
    {
      for i := 0 to |rows|
        invariant tasks == ScheduleRows(before, ProductIds(products), merchant, rows[..i], nextId)
        invariant nextId == old(nextId)
      {
        var r, k := rows[i], SkuKey(merchant, rows[i]);
        var changed := SEMANTIC_FIELDS;
        if k in before.products {
          changed := CompareSemantics(SemanticsAt(before, k), RowSemantics(r));
        }
        var productId := if k in products then products[k].id else 0;
        assert rows[..i + 1][..i] == rows[..i];
        tasks := Schedule(tasks, nextId + i, NewTask(merchant, productId, changed));
      }
      assert rows[..|rows|] == rows;
      nextId := nextId + |rows|;
    }

    /**
     _run_catalog_mutation on the catalog tables.  Statement number `failAt` fails, if there is one
     with that number, and so does the first upsert of a file that repeats a SKU; the session then
     rolls back.
     */
    method RunMutation(merchant: nat, rows: seq<CatalogRow>, failAt: nat) returns (committed: bool)
      modifies this
      ensures committed <==> failAt >= 5 && DistinctSkus(rows)
      ensures View() == if committed then Import(old(View()), merchant, rows) else old(View())
    {
      var saved := View();
      var distinct := forall i, j | 0 <= i < j < |rows| :: rows[i].sku != rows[j].sku;
      if failAt == 0 || !distinct { return false; }
      UpsertProducts(merchant, rows);
      if failAt == 1 { Rollback(saved); return false; }
      UpsertVariants(merchant, rows);
      if failAt == 2 { Rollback(saved); return false; }
      UpsertInventory(merchant, rows);
      if failAt == 3 { Rollback(saved); return false; }
      ScheduleIndexingTasks(saved, merchant, rows);
      if failAt == 4 { Rollback(saved); return false; }
      committed := true;
    }

    method Rollback(saved: Tables)
      modifies this
      ensures View() == saved
    {
      products, variants, inventory, tasks, nextId := saved.products, saved.variants, saved.inventory, saved.tasks, saved.nextId;
    }
  }
}
