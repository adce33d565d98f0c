/** What every catalog writer keeps, and the exact effect of an import. */
module CatalogLaws {
  import opened Common
  import opened Upserts
  import opened Catalog

  // ----- exact scheduling

  /** The semantic fields in which a product differs between two catalogs; all of them if it is new. */
  function KeyChanges(t: Tables, t': Tables, k: Key): set<Field>
    requires k in t'.products
  {
    if k in t.products then ChangedFields(SemanticsAt(t, k), SemanticsAt(t', k)) else SEMANTIC_FIELDS
  }

  function TaskFor(t: Tables, t': Tables, k: Key): NewTask
    requires k in t'.products
  {
    NewTask(k.0, t'.products[k].id, KeyChanges(t, t', k))
  }

  predicate IsNew(t: Tables, t': Tables, id: nat) { id in t'.tasks && id !in t.tasks }

  /** Product `k` keeps its id, and gets a task with exactly its changed fields if there are any. */
  ghost predicate ScheduledAt(t: Tables, t': Tables, k: Key) {
    && (k in t.products ==> k in t'.products && t'.products[k].id == t.products[k].id)
    && (k in t'.products && KeyChanges(t, t', k) != {} ==>
          exists id :: IsNew(t, t', id) && t'.tasks[id] == TaskFor(t, t', k))
  }

  /** A new task is the task of some changed product; old tasks stay. */
  ghost predicate CausedAt(t: Tables, t': Tables, id: nat) {
    && (id in t.tasks ==> id in t'.tasks && t'.tasks[id] == t.tasks[id])
    && (IsNew(t, t', id) ==>
          exists k :: k in t'.products && KeyChanges(t, t', k) != {} && t'.tasks[id] == TaskFor(t, t', k))
  }

  ghost predicate TasksApart(t: Tables, t': Tables, i: nat, j: nat) {
    IsNew(t, t', i) && IsNew(t, t', j) && t'.tasks[i].productId == t'.tasks[j].productId ==> i == j
  }

  /**
   The new tasks of a catalog transaction are one for each product that is new or changed in a
   semantic field, listing exactly those fields; no product disappears or changes its id.
   */
  ghost predicate ExactlyScheduled(t: Tables, t': Tables) {
    && (forall k :: ScheduledAt(t, t', k))
    && (forall id :: CausedAt(t, t', id))
    && (forall i, j :: TasksApart(t, t', i, j))
  }

  /** Product `k` is new, or a stored value of a semantic field differs. */
  ghost predicate DiffersAt(t: Tables, t': Tables, k: Key)
    requires k in t'.products && k in t'.variants && (k in t.products ==> k in t.variants)
  {
    || k !in t.products
    || t.products[k].name != t'.products[k].name || t.products[k].description != t'.products[k].description
    || t.products[k].category != t'.products[k].category || t.variants[k].material != t'.variants[k].material
  }

  /** The task is that of product `k`, and lists a field exactly when its stored value differs. */
  ghost predicate ListsDifferences(t: Tables, t': Tables, k: Key, task: NewTask)
    requires k in t'.products && k in t'.variants && (k in t.products ==> k in t.variants)
  {
    && task.merchantId == k.0 && task.productId == t'.products[k].id
    && (Name in task.changed <==> k !in t.products || t.products[k].name != t'.products[k].name)
    && (Description in task.changed <==> k !in t.products || t.products[k].description != t'.products[k].description)
    && (Category in task.changed <==> k !in t.products || t.products[k].category != t'.products[k].category)
    && (Material in task.changed <==> k !in t.products || t.variants[k].material != t'.variants[k].material)
  }

  ghost predicate IsListed(t: Tables, t': Tables, k: Key, id: nat) {
    && k in t'.products && k in t'.variants && (k in t.products ==> k in t.variants)
    && IsNew(t, t', id) && ListsDifferences(t, t', k, t'.tasks[id])
  }

  /** Exact scheduling, read from the stored values: who gets a task, and which fields it lists. */
  ghost predicate TasksListDifferences(t: Tables, t': Tables) {
    && (forall k | k in t'.products :: k in t'.variants && (k in t.products ==> k in t.variants))
    && (forall k | k in t'.products && DiffersAt(t, t', k) :: exists id :: IsListed(t, t', k, id))
    && (forall id | IsNew(t, t', id) :: exists k :: IsListed(t, t', k, id) && DiffersAt(t, t', k))
  }

  lemma ExactTasksListDifferences(t: Tables, t': Tables)
    requires Shape(t) && Shape(t') && ExactlyScheduled(t, t')
    ensures TasksListDifferences(t, t')
  {
    forall k | k in t'.products ensures k in t'.variants && (k in t.products ==> k in t.variants) {
      assert PairedAt(t, k) && PairedAt(t', k);
    }
    forall k | k in t'.products && DiffersAt(t, t', k) ensures exists id :: IsListed(t, t', k, id) {
      assert ScheduledAt(t, t', k);
      var id :| IsNew(t, t', id) && t'.tasks[id] == TaskFor(t, t', k);
      assert IsListed(t, t', k, id);
    }
    forall id | IsNew(t, t', id) ensures exists k :: IsListed(t, t', k, id) && DiffersAt(t, t', k) {
      assert CausedAt(t, t', id);
      var k :| k in t'.products && KeyChanges(t, t', k) != {} && t'.tasks[id] == TaskFor(t, t', k);
      assert IsListed(t, t', k, id) && DiffersAt(t, t', k);
    }
  }

  // ----- imports

  /** Row `r` as the product and variant statements leave it. */
  ghost predicate RowWritten(t: Tables, t': Tables, k: Key, r: CatalogRow, freshId: nat) {
    && k in t'.products && k in t'.variants
    && t'.products[k] ==
         Product(if k in t.products then t.products[k].id else freshId, r.name, r.category, r.description, r.active)
    && t'.variants[k] ==
         Variant(if k in t.variants then t.variants[k].id else freshId, t'.products[k].id,
                 r.size, r.color, r.material, r.priceKzt, r.imageUrl, r.active)
  }

  ghost predicate WrittenAt(t: Tables, t': Tables, merchant: nat, rows: seq<CatalogRow>, k: Key) {
    var i := RowAt(merchant, rows, k);
    if i < 0 then Get(t'.products, k) == Get(t.products, k) && Get(t'.variants, k) == Get(t.variants, k)
    else RowWritten(t, t', k, rows[i], t.nextId + i)
  }

  /** `t'` is what the statements of an import make of `t`. */
  ghost predicate Imported(t: Tables, t': Tables, merchant: nat, rows: seq<CatalogRow>) {
    && t'.nextId == t.nextId + |rows|
    && (forall k :: WrittenAt(t, t', merchant, rows, k))
    && t'.inventory == Upsert(t.inventory, StockValues(merchant, rows, VariantIds(t'.variants), t.nextId), UpdateStock)
    && t'.tasks == ScheduleRows(t, ProductIds(t'.products), merchant, rows, t.nextId)
  }

  /** The tables of an import, one by one. */
  lemma ImportTables(t: Tables, merchant: nat, rows: seq<CatalogRow>)
    ensures var t' := Import(t, merchant, rows);
            && t'.products == Upsert(t.products, ProductValues(merchant, rows, t.nextId), UpdateProduct)
            && t'.variants == Upsert(t.variants, VariantValues(merchant, rows, ProductIds(t'.products), t.nextId), UpdateVariant)
            && t'.inventory == Upsert(t.inventory, StockValues(merchant, rows, VariantIds(t'.variants), t.nextId), UpdateStock)
            && t'.tasks == ScheduleRows(t, ProductIds(t'.products), merchant, rows, t.nextId)
            && t'.nextId == t.nextId + |rows|
  {
  }

  lemma UpsertsWrite(t: Tables, t': Tables, merchant: nat, rows: seq<CatalogRow>, k: Key)
    requires DistinctSkus(rows)
    requires t'.products == Upsert(t.products, ProductValues(merchant, rows, t.nextId), UpdateProduct)
    requires t'.variants == Upsert(t.variants, VariantValues(merchant, rows, ProductIds(t'.products), t.nextId), UpdateVariant)
    ensures WrittenAt(t, t', merchant, rows, k)
  {
    ProductAfter(t.products, merchant, rows, t.nextId, k);
    VariantAfter(t.variants, ProductIds(t'.products), merchant, rows, t.nextId, k);
  }

  lemma ImportIsImported(t: Tables, merchant: nat, rows: seq<CatalogRow>)
    requires DistinctSkus(rows)
    ensures Imported(t, Import(t, merchant, rows), merchant, rows)
  {
    var t' := Import(t, merchant, rows);
    ImportTables(t, merchant, rows);
    forall k ensures WrittenAt(t, t', merchant, rows, k) { UpsertsWrite(t, t', merchant, rows, k); }
  }

  lemma ImportIds(t: Tables, t': Tables, merchant: nat, rows: seq<CatalogRow>, k: Key)
    requires Shape(t) && Imported(t, t', merchant, rows)
    ensures k in t'.products <==> k in t'.variants
    ensures k in t.products ==>
      && k in t'.products && t'.products[k].id == t.products[k].id
      && k in t.variants && k in t'.variants && t'.variants[k].id == t.variants[k].id
    ensures k in t'.products ==>
      t'.variants[k].productId == t'.products[k].id && t'.products[k].id < t'.nextId && t'.variants[k].id < t'.nextId
    ensures k in t'.products && k !in t.products ==>
      && RowAt(merchant, rows, k) >= 0
      && t'.products[k].id == t'.variants[k].id == t.nextId + RowAt(merchant, rows, k)
  {
    assert PairedAt(t, k) && WrittenAt(t, t', merchant, rows, k);
  }

  lemma ImportIdsApart(t: Tables, t': Tables, merchant: nat, rows: seq<CatalogRow>, j: Key, k: Key)
    requires Shape(t) && Imported(t, t', merchant, rows)
    ensures IdsApart(t', j, k)
  {
    ImportIds(t, t', merchant, rows, j);
    ImportIds(t, t', merchant, rows, k);
    assert PairedAt(t, j) && PairedAt(t, k) && IdsApart(t, j, k);
  }

  lemma ImportStockKeysApart(t: Tables, t': Tables, merchant: nat, rows: seq<CatalogRow>)
    requires Shape(t) && DistinctSkus(rows) && Imported(t, t', merchant, rows)
    ensures forall i | 0 <= i < |rows| ::
      var k := SkuKey(merchant, rows[i]);
      RowAt(merchant, rows, k) == i && k in t'.variants && Returned(VariantIds(t'.variants), k) == t'.variants[k].id
    ensures StockKeysApart(merchant, rows, VariantIds(t'.variants))
  {
    forall i | 0 <= i < |rows|
      ensures var k := SkuKey(merchant, rows[i]);
              RowAt(merchant, rows, k) == i && k in t'.variants
    {
      RowIndex(merchant, rows, i);
      assert WrittenAt(t, t', merchant, rows, SkuKey(merchant, rows[i]));
    }
    forall i, j | 0 <= i < j < |rows|
      ensures Returned(VariantIds(t'.variants), SkuKey(merchant, rows[i])) != Returned(VariantIds(t'.variants), SkuKey(merchant, rows[j]))
    {
      ImportIdsApart(t, t', merchant, rows, SkuKey(merchant, rows[i]), SkuKey(merchant, rows[j]));
    }
  }

  lemma ImportStock(t: Tables, t': Tables, merchant: nat, rows: seq<CatalogRow>, k: Key)
    requires Shape(t) && DistinctSkus(rows) && Imported(t, t', merchant, rows) && k in t'.variants
    ensures var i, v := RowAt(merchant, rows, k), t'.variants[k].id;
            Get(t'.inventory, v) ==
              if i < 0 then Get(t.inventory, v)
              else Some(Merged(Get(t.inventory, v), Stock(t.nextId + i, rows[i].stock), UpdateStock))
  {
    var ids := VariantIds(t'.variants);
    ImportStockKeysApart(t, t', merchant, rows);
    var i := RowAt(merchant, rows, k);
    if i < 0 {
      forall j | 0 <= j < |rows| ensures Returned(ids, SkuKey(merchant, rows[j])) != t'.variants[k].id {
        ImportIdsApart(t, t', merchant, rows, SkuKey(merchant, rows[j]), k);
      }
      StockElsewhere(t.inventory, ids, merchant, rows, t.nextId, t'.variants[k].id);
    } else {
      StockAfter(t.inventory, ids, merchant, rows, t.nextId, i);
    }
  }

  lemma ImportStockOwned(t: Tables, t': Tables, merchant: nat, rows: seq<CatalogRow>, v: nat)
    requires Shape(t) && DistinctSkus(rows) && Imported(t, t', merchant, rows) && v in t'.inventory
    ensures StockOwned(t', v)
  {
    ImportStockKeysApart(t, t', merchant, rows);
    if i :| 0 <= i < |rows| && Returned(VariantIds(t'.variants), SkuKey(merchant, rows[i])) == v {
      assert SkuKey(merchant, rows[i]) in t'.variants;
    } else {
      StockElsewhere(t.inventory, VariantIds(t'.variants), merchant, rows, t.nextId, v);
      assert StockOwned(t, v);
      var k :| k in t.variants && t.variants[k].id == v;
      assert PairedAt(t, k);
      ImportIds(t, t', merchant, rows, k);
    }
  }

  lemma TaskIds(t: Tables)
    requires Shape(t)
    ensures forall id | id in t.tasks :: id < t.nextId
  {
    assert forall id | id in t.tasks :: TaskIdUsed(t, id);
  }

  /** Imports keep the shape: one variant per product under the same key, one inventory row per variant. */
  lemma ImportedKeepsShape(t: Tables, t': Tables, merchant: nat, rows: seq<CatalogRow>)
    requires Shape(t) && DistinctSkus(rows) && Imported(t, t', merchant, rows)
    ensures Shape(t')
  {
    forall k ensures PairedAt(t', k) {
      ImportIds(t, t', merchant, rows, k);
      if k in t'.variants {
        ImportStock(t, t', merchant, rows, k);
        assert PairedAt(t, k);
      }
    }
    forall j, k ensures IdsApart(t', j, k) { ImportIdsApart(t, t', merchant, rows, j, k); }
    forall v | v in t'.inventory ensures StockOwned(t', v) { ImportStockOwned(t, t', merchant, rows, v); }
    forall id ensures TaskIdUsed(t', id) {
      TaskIds(t);
      TaskAfter(t, ProductIds(t'.products), merchant, rows, t.nextId, id);
    }
  }

  /** What a customer is offered under one SKU: every stored value of product, variant and stock. */
  datatype Offer = Offer(
    name: string, category: string, description: string, size: Option<string>, color: Option<string>,
    material: Option<string>, priceKzt: int, stock: int, imageUrl: Option<string>,
    productActive: bool, variantActive: bool)

  function RowOffer(r: CatalogRow): Offer {
    Offer(r.name, r.category, r.description, r.size, r.color, r.material, r.priceKzt, r.stock, r.imageUrl, r.active, r.active)
  }

  function OfferAt(t: Tables, k: Key): Option<Offer> {
    if k in t.products && k in t.variants && t.variants[k].id in t.inventory then
      var p, v := t.products[k], t.variants[k];
      Some(Offer(p.name, p.category, p.description, v.size, v.color, v.material, v.priceKzt,
                 t.inventory[v.id].quantity, v.imageUrl, p.active, v.active))
    else None
  }

  /** The ids behind a key: product, variant and inventory row. */
  function IdsAt(t: Tables, k: Key): Option<(nat, nat, nat)> {
    if k in t.products && k in t.variants && t.variants[k].id in t.inventory then
      Some((t.products[k].id, t.variants[k].id, t.inventory[t.variants[k].id].id))
    else None
  }

  lemma ImportedContents(t: Tables, t': Tables, merchant: nat, rows: seq<CatalogRow>, k: Key)
    requires Shape(t) && DistinctSkus(rows) && Imported(t, t', merchant, rows)
    ensures var i := RowAt(merchant, rows, k);
            OfferAt(t', k) == if i < 0 then OfferAt(t, k) else Some(RowOffer(rows[i]))
    ensures k in t.products ==> IdsAt(t', k) == IdsAt(t, k) != None
  {
    assert PairedAt(t, k) && WrittenAt(t, t', merchant, rows, k);
    if k in t'.variants {
      ImportStock(t, t', merchant, rows, k);
    }
  }

  /**
   After an import each row of the file is on offer exactly as written, every other SKU, of this and
   of all other merchants, is as before, and no existing row changed its ids.
   */
  lemma ImportContents(t: Tables, merchant: nat, rows: seq<CatalogRow>)
    requires Shape(t) && DistinctSkus(rows)
    ensures var t' := Import(t, merchant, rows);
            && Shape(t')
            && (forall k :: OfferAt(t', k) ==
                  var i := RowAt(merchant, rows, k); if i < 0 then OfferAt(t, k) else Some(RowOffer(rows[i])))
            && (forall k | k in t.products :: IdsAt(t', k) == IdsAt(t, k))
  {
    var t' := Import(t, merchant, rows);
    ImportIsImported(t, merchant, rows);
    ImportedKeepsShape(t, t', merchant, rows);
    forall k
      ensures OfferAt(t', k) ==
        var i := RowAt(merchant, rows, k); if i < 0 then OfferAt(t, k) else Some(RowOffer(rows[i]))
      ensures k in t.products ==> IdsAt(t', k) == IdsAt(t, k)
    {
      ImportedContents(t, t', merchant, rows, k);
    }
  }

  // ----- growth

  function RowKeys(merchant: nat, rows: seq<CatalogRow>): seq<Key> {
    seq(|rows|, i requires 0 <= i < |rows| => SkuKey(merchant, rows[i]))
  }

  lemma ImportedKeys(t: Tables, t': Tables, merchant: nat, rows: seq<CatalogRow>)
    requires Shape(t) && Imported(t, t', merchant, rows)
    ensures t'.products.Keys == t.products.Keys + SeqSet(RowKeys(merchant, rows))
  {
    var keys := RowKeys(merchant, rows);
    forall k ensures k in t'.products <==> k in t.products || k in keys {
      assert WrittenAt(t, t', merchant, rows, k);
      var i := RowAt(merchant, rows, k);
      assert i >= 0 ==> keys[i] == k;
      assert forall j | 0 <= j < |keys| :: keys[j] == SkuKey(merchant, rows[j]);
    }
  }

  lemma RowKeysDistinct(merchant: nat, rows: seq<CatalogRow>)
    requires DistinctSkus(rows)
    ensures Distinct(RowKeys(merchant, rows))
  {
  }

  lemma GrowthOfImported(t: Tables, t': Tables, merchant: nat, rows: seq<CatalogRow>)
    requires Shape(t) && Shape(t') && DistinctSkus(rows) && Imported(t, t', merchant, rows)
    ensures |t'.products.Keys| - |t.products.Keys| == CountNew(t.products.Keys, RowKeys(merchant, rows)) <= |rows|
  {
    ImportedKeys(t, t', merchant, rows);
    RowKeysDistinct(merchant, rows);
    GrowthIsCountNew(t.products.Keys, RowKeys(merchant, rows));
    CountNewBound(t.products.Keys, RowKeys(merchant, rows));
  }

  /**
   created_products and created_variants count the growth of the tables, so with the updates they
   make up all rows; the inventory grows in step.
   */
  lemma ImportGrowth(t: Tables, merchant: nat, rows: seq<CatalogRow>)
    requires Shape(t) && DistinctSkus(rows)
    ensures var t' := Import(t, merchant, rows);
            var created := CountNew(t.products.Keys, RowKeys(merchant, rows));
            && |t'.products| - |t.products| == created
            && |t'.variants| - |t.variants| == created
            && |t'.inventory| - |t.inventory| == created
            && created <= |rows|
  {
    var t' := Import(t, merchant, rows);
    ImportIsImported(t, merchant, rows);
    ImportedKeepsShape(t, t', merchant, rows);
    GrowthOfImported(t, t', merchant, rows);
    TableSizes(t);
    TableSizes(t');
  }

  lemma {:induction false} CountNewBound<K>(existing: set<K>, keys: seq<K>)
    ensures CountNew(existing, keys) <= |keys|
  {
    if keys != [] { CountNewBound(existing, keys[1..]); }
  }

  /** In a well-shaped catalog the three tables have the same size. */
  lemma TableSizes(t: Tables)
    requires Shape(t)
    ensures |t.products| == |t.products.Keys| == |t.variants| == |t.inventory|
  {
    forall k ensures k in t.products <==> k in t.variants { assert PairedAt(t, k); }
    assert t.products.Keys == t.variants.Keys;
    assert |t.products.Keys| == |t.products| && |t.variants.Keys| == |t.variants| && |t.inventory.Keys| == |t.inventory|;
    var ids := set k | k in t.variants.Keys :: t.variants[k].id;
    forall v ensures v in ids <==> v in t.inventory {
      if v in t.inventory { assert StockOwned(t, v); }
      if v in ids {
        var k :| k in t.variants && t.variants[k].id == v;
        assert PairedAt(t, k);
      }
    }
    assert ids == t.inventory.Keys;
    forall j, k | j in t.variants && k in t.variants && t.variants[j].id == t.variants[k].id ensures j == k {
      assert IdsApart(t, j, k);
    }
    InjectiveImage(t.variants, t.variants.Keys);
  }

  lemma {:induction false} InjectiveImage(variants: map<Key, Variant>, ks: set<Key>)
    requires ks <= variants.Keys
    requires forall j, k | j in variants && k in variants && variants[j].id == variants[k].id :: j == k
    ensures |set k | k in ks :: variants[k].id| == |ks|
  {
    if ks != {} {
      var k :| k in ks;
      InjectiveImage(variants, ks - {k});
      var rest := set j | j in ks - {k} :: variants[j].id;
      assert (set j | j in ks :: variants[j].id) == rest + {variants[k].id};
      assert variants[k].id !in rest;
    }
  }

  // ----- scheduling by imports

  /** Task number i of an import, if there is one, is the task of row i. */
  lemma ImportedTask(t: Tables, t': Tables, merchant: nat, rows: seq<CatalogRow>, i: nat)
    requires Shape(t) && DistinctSkus(rows) && Imported(t, t', merchant, rows) && i < |rows|
    ensures var k := SkuKey(merchant, rows[i]);
            && k in t'.products
            && (IsNew(t, t', t.nextId + i) <==> KeyChanges(t, t', k) != {})
            && (IsNew(t, t', t.nextId + i) ==> t'.tasks[t.nextId + i] == TaskFor(t, t', k))
  {
    var k := SkuKey(merchant, rows[i]);
    RowIndex(merchant, rows, i);
    assert WrittenAt(t, t', merchant, rows, k) && PairedAt(t, k);
    TaskIds(t);
    TaskAfter(t, ProductIds(t'.products), merchant, rows, t.nextId, t.nextId + i);
    assert RowTask(t, ProductIds(t'.products), merchant, rows[i]) == TaskFor(t, t', k);
  }

  lemma ImportedNewTask(t: Tables, t': Tables, merchant: nat, rows: seq<CatalogRow>, id: nat)
    requires Shape(t) && DistinctSkus(rows) && Imported(t, t', merchant, rows) && IsNew(t, t', id)
    ensures t.nextId <= id < t.nextId + |rows|
    ensures var k := SkuKey(merchant, rows[id - t.nextId]);
            k in t'.products && KeyChanges(t, t', k) != {} && t'.tasks[id] == TaskFor(t, t', k)
  {
    TaskIds(t);
    TaskAfter(t, ProductIds(t'.products), merchant, rows, t.nextId, id);
    ImportedTask(t, t', merchant, rows, id - t.nextId);
  }

  lemma ImportedSchedulesExactly(t: Tables, t': Tables, merchant: nat, rows: seq<CatalogRow>)
    requires Shape(t) && DistinctSkus(rows) && Imported(t, t', merchant, rows)
    ensures ExactlyScheduled(t, t')
  {
    forall k ensures ScheduledAt(t, t', k) {
      assert WrittenAt(t, t', merchant, rows, k) && PairedAt(t, k);
      var i := RowAt(merchant, rows, k);
      if i >= 0 {
        ImportedTask(t, t', merchant, rows, i);
      }
    }
    forall id ensures CausedAt(t, t', id) {
      TaskIds(t);
      TaskAfter(t, ProductIds(t'.products), merchant, rows, t.nextId, id);
      if IsNew(t, t', id) { ImportedNewTask(t, t', merchant, rows, id); }
    }
    forall i: nat, j: nat ensures TasksApart(t, t', i, j) {
      if IsNew(t, t', i) && IsNew(t, t', j) && t'.tasks[i].productId == t'.tasks[j].productId {
        ImportedNewTask(t, t', merchant, rows, i);
        ImportedNewTask(t, t', merchant, rows, j);
        ImportIdsApart(t, t', merchant, rows, SkuKey(merchant, rows[i - t.nextId]), SkuKey(merchant, rows[j - t.nextId]));
      }
    }
  }

  /** Imports schedule exactly: one task for each new or semantically changed product, listing what differs. */
  lemma ImportSchedulesExactly(t: Tables, merchant: nat, rows: seq<CatalogRow>)
    requires Shape(t) && DistinctSkus(rows)
    ensures Shape(Import(t, merchant, rows)) && ExactlyScheduled(t, Import(t, merchant, rows))
    ensures TasksListDifferences(t, Import(t, merchant, rows))
  {
    ImportIsImported(t, merchant, rows);
    ImportedKeepsShape(t, Import(t, merchant, rows), merchant, rows);
    ImportedSchedulesExactly(t, Import(t, merchant, rows), merchant, rows);
    ExactTasksListDifferences(t, Import(t, merchant, rows));
  }

  // ----- importing twice

  lemma SecondImportAt(t: Tables, t1: Tables, t2: Tables, merchant: nat, rows: seq<CatalogRow>, k: Key)
    requires Shape(t) && Shape(t1) && DistinctSkus(rows)
    requires Imported(t, t1, merchant, rows) && Imported(t1, t2, merchant, rows)
    ensures Get(t2.products, k) == Get(t1.products, k) && Get(t2.variants, k) == Get(t1.variants, k)
    ensures k in t1.variants ==> Get(t2.inventory, t1.variants[k].id) == Get(t1.inventory, t1.variants[k].id)
  {
    assert WrittenAt(t, t1, merchant, rows, k) && WrittenAt(t1, t2, merchant, rows, k) && PairedAt(t1, k);
    if k in t1.variants {
      ImportStock(t, t1, merchant, rows, k);
      ImportStock(t1, t2, merchant, rows, k);
    }
  }

  lemma GetEqual<K, V>(a: map<K, V>, b: map<K, V>)
    requires forall k :: Get(a, k) == Get(b, k)
    ensures a == b
  {
    assert forall k :: k in a <==> Get(a, k).Some?;
    assert forall k :: k in b <==> Get(b, k).Some?;
    assert forall k | k in a :: Get(a, k) == Some(a[k]) && Get(b, k) == Some(b[k]);
  }

  lemma SecondImport(t: Tables, t1: Tables, t2: Tables, merchant: nat, rows: seq<CatalogRow>)
    requires Shape(t) && Shape(t1) && Shape(t2) && DistinctSkus(rows)
    requires Imported(t, t1, merchant, rows) && Imported(t1, t2, merchant, rows)
    ensures t2 == t1.(nextId := t1.nextId + |rows|)
  {
    forall k ensures Get(t2.products, k) == Get(t1.products, k) && Get(t2.variants, k) == Get(t1.variants, k) {
      SecondImportAt(t, t1, t2, merchant, rows, k);
    }
    GetEqual(t2.products, t1.products);
    GetEqual(t2.variants, t1.variants);
    forall v ensures Get(t2.inventory, v) == Get(t1.inventory, v) {
      if v in t1.inventory || v in t2.inventory {
        assert v in t1.inventory ==> StockOwned(t1, v);
        assert v in t2.inventory ==> StockOwned(t2, v);
        var k :| k in t1.variants && t1.variants[k].id == v;
        SecondImportAt(t, t1, t2, merchant, rows, k);
      }
    }
    GetEqual(t2.inventory, t1.inventory);
    forall id ensures Get(t2.tasks, id) == Get(t1.tasks, id) {
      TaskIds(t1);
      TaskAfter(t1, ProductIds(t2.products), merchant, rows, t1.nextId, id);
      if IsNew(t1, t2, id) {
        ImportedNewTask(t1, t2, merchant, rows, id);
      }
    }
    GetEqual(t2.tasks, t1.tasks);
  }

  /** Importing the same file twice in a row: the second time changes no value, no id, and schedules nothing. */
  lemma ReimportChangesNothing(t: Tables, merchant: nat, rows: seq<CatalogRow>)
    requires Shape(t) && DistinctSkus(rows)
    ensures var t1 := Import(t, merchant, rows);
            Import(t1, merchant, rows) == t1.(nextId := t1.nextId + |rows|)
  {
    var t1 := Import(t, merchant, rows);
    ImportIsImported(t, merchant, rows);
    ImportedKeepsShape(t, t1, merchant, rows);
    ImportIsImported(t1, merchant, rows);
    ImportedKeepsShape(t1, Import(t1, merchant, rows), merchant, rows);
    SecondImport(t, t1, Import(t1, merchant, rows), merchant, rows);
  }
}
