/**
 The catalog tables and their writers: creating a product, patching one, and the statements of a
 CSV import.  Products and variants are keyed by (merchant, SKU), the pair their unique constraints
 are on, and carry their ids; inventory is keyed by the variant it belongs to.
 */
module Catalog {
  import opened Common
  import opened Upserts

  type Key = (nat, string)

  datatype Product = Product(id: nat, name: string, category: string, description: string, active: bool)

  datatype Variant = Variant(
    id: nat, productId: nat, size: Option<string>, color: Option<string>, material: Option<string>,
    priceKzt: int, imageUrl: Option<string>, active: bool)

  datatype Stock = Stock(id: nat, quantity: int)

  /** `nextId` stands for the UUID generator: every id handed out so far is below it. */
  datatype Tables = Tables(
    products: map<Key, Product>, variants: map<Key, Variant>, inventory: map<nat, Stock>,
    tasks: map<nat, NewTask>, nextId: nat)

  const EMPTY := Tables(map[], map[], map[], map[], 0)

  /** One validated row of a catalog file; also the payload that creates a product. */
  datatype CatalogRow = CatalogRow(
    slug: string, sku: string, name: string, category: string, description: string,
    priceKzt: int, size: Option<string>, color: Option<string>, material: Option<string>,
    stock: int, imageUrl: Option<string>, active: bool)

  // ----- semantic fields and scheduling

  datatype Field = Name | Description | Category | Material

  const SEMANTIC_FIELDS: set<Field> := {Name, Description, Category, Material}

  datatype Semantics = Semantics(name: string, description: string, category: string, material: Option<string>) {
    function Get(f: Field): Option<string> {
      match f
      case Name => Some(name)
      case Description => Some(description)
      case Category => Some(category)
      case Material => material
    }
  }

  datatype NewTask = NewTask(merchantId: nat, productId: nat, changed: set<Field>)

  function ChangedFields(before: Semantics, after: Semantics): (changed: set<Field>)
    ensures changed == {} <==> before == after
    ensures Name in changed <==> before.name != after.name
    ensures Description in changed <==> before.description != after.description
    ensures Category in changed <==> before.category != after.category
    ensures Material in changed <==> before.material != after.material
  {
    var changed := set f | f in SEMANTIC_FIELDS && before.Get(f) != after.Get(f);
    assert changed == {} ==> Name !in changed && Description !in changed && Category !in changed && Material !in changed;
    changed
  }

  /** The comparison loop of semantic_changed_fields. */
  method CompareSemantics(before: Semantics, after: Semantics) returns (changed: set<Field>)
    ensures changed == ChangedFields(before, after)
  {
    changed := {};
    var left := SEMANTIC_FIELDS;
    while left != {}
      invariant left <= SEMANTIC_FIELDS
      invariant changed == set f | f in SEMANTIC_FIELDS - left && before.Get(f) != after.Get(f)
      decreases |left|
    {
      var f :| f in left;
      if before.Get(f) != after.Get(f) {
        changed := changed + {f};
      }
      left := left - {f};
    }
  }

  /** schedule_product_indexing: a task is added exactly when some semantic field changed. */
  function Schedule(tasks: map<nat, NewTask>, id: nat, task: NewTask): map<nat, NewTask> {
    if task.changed == {} then tasks else tasks[id := task]
  }

  // ----- the shape of a catalog

  /** Product and variant come in pairs under one key, linked by id, and the variant has a stock row. */
  ghost predicate PairedAt(t: Tables, k: Key) {
    && (k in t.products <==> k in t.variants)
    && (k in t.products ==>
          && t.variants[k].productId == t.products[k].id
          && t.variants[k].id in t.inventory
          && t.products[k].id < t.nextId && t.variants[k].id < t.nextId)
  }

  ghost predicate IdsApart(t: Tables, j: Key, k: Key) {
    && (j in t.products && k in t.products && t.products[j].id == t.products[k].id ==> j == k)
    && (j in t.variants && k in t.variants && t.variants[j].id == t.variants[k].id ==> j == k)
  }

  ghost predicate StockOwned(t: Tables, v: nat) {
    exists k :: k in t.variants && t.variants[k].id == v
  }

  ghost predicate TaskIdUsed(t: Tables, id: nat) { id in t.tasks ==> id < t.nextId }

  /** Exactly one variant per product, with the same key, and exactly one inventory row per variant. */
  ghost predicate Shape(t: Tables) {
    && (forall k :: PairedAt(t, k))
    && (forall j, k :: IdsApart(t, j, k))
    && (forall v | v in t.inventory :: StockOwned(t, v))
    && (forall id :: TaskIdUsed(t, id))
  }

  function SemanticsAt(t: Tables, k: Key): Semantics
    requires k in t.products
  {
    var p := t.products[k];
    Semantics(p.name, p.description, p.category, if k in t.variants then t.variants[k].material else None)
  }

  // ----- import statements

  function SkuKey(merchant: nat, r: CatalogRow): Key { (merchant, r.sku) }

  ghost predicate DistinctSkus(rows: seq<CatalogRow>) {
    forall i, j | 0 <= i < j < |rows| :: rows[i].sku != rows[j].sku
  }

  /** The last row of the file for a key, or -1. */
  function RowAt(merchant: nat, rows: seq<CatalogRow>, k: Key): (i: int)
    ensures -1 <= i < |rows|
    ensures i >= 0 ==> SkuKey(merchant, rows[i]) == k
    ensures forall j | i < j < |rows| :: SkuKey(merchant, rows[j]) != k
  {
    if rows == [] then -1
    else if SkuKey(merchant, rows[|rows| - 1]) == k then |rows| - 1
    else RowAt(merchant, rows[..|rows| - 1], k)
  }

  /** The proposed product rows; row i brings the fresh id base + i. */
  function ProductValues(merchant: nat, rows: seq<CatalogRow>, base: nat): seq<(Key, Product)> {
    seq(|rows|, i requires 0 <= i < |rows| =>
      var r := rows[i];
      (SkuKey(merchant, r), Product(base + i, r.name, r.category, r.description, r.active)))
  }

  function UpdateProduct(current: Product, excluded: Product): Product { excluded.(id := current.id) }

  /** The id an earlier statement of the import returned for a key; the key is always there. */
  function Returned(ids: map<Key, nat>, k: Key): nat { if k in ids then ids[k] else 0 }

  function ProductIds(products: map<Key, Product>): map<Key, nat> { map k | k in products :: products[k].id }

  function VariantIds(variants: map<Key, Variant>): map<Key, nat> { map k | k in variants :: variants[k].id }

  function VariantValues(merchant: nat, rows: seq<CatalogRow>, productIds: map<Key, nat>, base: nat): seq<(Key, Variant)> {
    seq(|rows|, i requires 0 <= i < |rows| =>
      var r := rows[i];
      (SkuKey(merchant, r),
       Variant(base + i, Returned(productIds, SkuKey(merchant, r)), r.size, r.color, r.material, r.priceKzt, r.imageUrl, r.active)))
  }

  function UpdateVariant(current: Variant, excluded: Variant): Variant { excluded.(id := current.id) }

  function StockValues(merchant: nat, rows: seq<CatalogRow>, variantIds: map<Key, nat>, base: nat): seq<(nat, Stock)> {
    seq(|rows|, i requires 0 <= i < |rows| =>
      (Returned(variantIds, SkuKey(merchant, rows[i])), Stock(base + i, rows[i].stock)))
  }

  function UpdateStock(current: Stock, excluded: Stock): Stock { excluded.(id := current.id) }

  function RowSemantics(r: CatalogRow): Semantics { Semantics(r.name, r.description, r.category, r.material) }

  /** The fields a row changes: all of them for a new product. */
  function RowChanges(before: Tables, k: Key, r: CatalogRow): set<Field> {
    if k in before.products then ChangedFields(SemanticsAt(before, k), RowSemantics(r)) else SEMANTIC_FIELDS
  }

  function RowTask(before: Tables, productIds: map<Key, nat>, merchant: nat, r: CatalogRow): NewTask {
    var k := SkuKey(merchant, r);
    NewTask(merchant, Returned(productIds, k), RowChanges(before, k, r))
  }

  function ScheduleRows(before: Tables, productIds: map<Key, nat>, merchant: nat, rows: seq<CatalogRow>, base: nat): map<nat, NewTask> {
    if rows == [] then before.tasks else
      var n := |rows| - 1;
      Schedule(ScheduleRows(before, productIds, merchant, rows[..n], base), base + n,
               RowTask(before, productIds, merchant, rows[n]))
  }

  function ImportProducts(t: Tables, merchant: nat, rows: seq<CatalogRow>): Tables {
    t.(products := Upsert(t.products, ProductValues(merchant, rows, t.nextId), UpdateProduct))
  }

  function ImportVariants(t: Tables, merchant: nat, rows: seq<CatalogRow>): Tables {
    t.(variants := Upsert(t.variants, VariantValues(merchant, rows, ProductIds(t.products), t.nextId), UpdateVariant))
  }

  function ImportInventory(t: Tables, merchant: nat, rows: seq<CatalogRow>): Tables {
    t.(inventory := Upsert(t.inventory, StockValues(merchant, rows, VariantIds(t.variants), t.nextId), UpdateStock))
  }

  function ImportTasks(before: Tables, t: Tables, merchant: nat, rows: seq<CatalogRow>): Tables {
    t.(tasks := ScheduleRows(before, ProductIds(t.products), merchant, rows, t.nextId), nextId := t.nextId + |rows|)
  }

  /** The catalog an import of `rows` leaves behind when none of its statements fails. */
  function Import(t: Tables, merchant: nat, rows: seq<CatalogRow>): Tables {
    ImportTasks(t, ImportInventory(ImportVariants(ImportProducts(t, merchant, rows), merchant, rows), merchant, rows), merchant, rows)
  }

  // ----- the statements, key by key

  lemma RowIndex(merchant: nat, rows: seq<CatalogRow>, i: nat)
    requires DistinctSkus(rows) && i < |rows|
    ensures RowAt(merchant, rows, SkuKey(merchant, rows[i])) == i
  {
  }

  lemma ProductAfter(products: map<Key, Product>, merchant: nat, rows: seq<CatalogRow>, base: nat, k: Key)
    requires DistinctSkus(rows)
    ensures var i := RowAt(merchant, rows, k);
            Get(Upsert(products, ProductValues(merchant, rows, base), UpdateProduct), k) ==
              if i < 0 then Get(products, k)
              else Some(Merged(Get(products, k), ProductValues(merchant, rows, base)[i].1, UpdateProduct))
  {
    var values := ProductValues(merchant, rows, base);
    var i := RowAt(merchant, rows, k);
    if i < 0 {
      UpsertElsewhere(products, values, UpdateProduct, k);
    } else {
      UpsertRow(products, values, UpdateProduct, i);
    }
  }

  lemma VariantAfter(variants: map<Key, Variant>, productIds: map<Key, nat>, merchant: nat, rows: seq<CatalogRow>, base: nat, k: Key)
    requires DistinctSkus(rows)
    ensures var i := RowAt(merchant, rows, k);
            Get(Upsert(variants, VariantValues(merchant, rows, productIds, base), UpdateVariant), k) ==
              if i < 0 then Get(variants, k)
              else Some(Merged(Get(variants, k), VariantValues(merchant, rows, productIds, base)[i].1, UpdateVariant))
  {
    var values := VariantValues(merchant, rows, productIds, base);
    var i := RowAt(merchant, rows, k);
    if i < 0 {
      UpsertElsewhere(variants, values, UpdateVariant, k);
    } else {
      UpsertRow(variants, values, UpdateVariant, i);
    }
  }

  /** The rows of a file resolve to different variants. */
  ghost predicate StockKeysApart(merchant: nat, rows: seq<CatalogRow>, variantIds: map<Key, nat>) {
    forall i, j | 0 <= i < j < |rows| ::
      Returned(variantIds, SkuKey(merchant, rows[i])) != Returned(variantIds, SkuKey(merchant, rows[j]))
  }

  lemma StockAfter(inventory: map<nat, Stock>, variantIds: map<Key, nat>, merchant: nat, rows: seq<CatalogRow>, base: nat, i: nat)
    requires StockKeysApart(merchant, rows, variantIds) && i < |rows|
    ensures var v := Returned(variantIds, SkuKey(merchant, rows[i]));
            Get(Upsert(inventory, StockValues(merchant, rows, variantIds, base), UpdateStock), v) ==
              Some(Merged(Get(inventory, v), Stock(base + i, rows[i].stock), UpdateStock))
  {
    UpsertRow(inventory, StockValues(merchant, rows, variantIds, base), UpdateStock, i);
  }

  lemma StockElsewhere(inventory: map<nat, Stock>, variantIds: map<Key, nat>, merchant: nat, rows: seq<CatalogRow>, base: nat, v: nat)
    requires forall i | 0 <= i < |rows| :: Returned(variantIds, SkuKey(merchant, rows[i])) != v
    ensures Get(Upsert(inventory, StockValues(merchant, rows, variantIds, base), UpdateStock), v) == Get(inventory, v)
  {
    UpsertElsewhere(inventory, StockValues(merchant, rows, variantIds, base), UpdateStock, v);
  }

  lemma {:induction false} TaskAfter(
    before: Tables, productIds: map<Key, nat>, merchant: nat, rows: seq<CatalogRow>, base: nat, id: nat)
    requires forall id | id in before.tasks :: id < base
    ensures Get(ScheduleRows(before, productIds, merchant, rows, base), id) ==
      if base <= id < base + |rows| && RowTask(before, productIds, merchant, rows[id - base]).changed != {}
      then Some(RowTask(before, productIds, merchant, rows[id - base]))
      else Get(before.tasks, id)
  {
    if rows != [] {
      TaskAfter(before, productIds, merchant, rows[..|rows| - 1], base, id);
    }
  }
}
