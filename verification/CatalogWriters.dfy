/** Creating and patching a product, and the laws both keep. */
module CatalogWriters {
  import opened Common
  import opened Catalog
  import opened CatalogLaws

  datatype WriteError =
    | MerchantNotFound | MerchantInactive | AlreadyExists
    | EmptyPatch | ProductNotFound | InconsistentState

  /** A patch: a field that is None is not touched; optional columns can be set to null. */
  datatype Patch = Patch(
    name: Option<string>, category: Option<string>, description: Option<string>,
    size: Option<Option<string>>, color: Option<Option<string>>, material: Option<Option<string>>,
    priceKzt: Option<int>, imageUrl: Option<Option<string>>, stock: Option<int>, active: Option<bool>)

  const NO_CHANGES := Patch(None, None, None, None, None, None, None, None, None, None)

  function Or<T>(change: Option<T>, current: T): T { if change.Some? then change.value else current }

  // ----- what the writers store

  function Created(t: Tables, merchant: nat, r: CatalogRow): Tables {
    var k, id := SkuKey(merchant, r), t.nextId;
    Tables(t.products[k := Product(id, r.name, r.category, r.description, r.active)],
           t.variants[k := Variant(id, id, r.size, r.color, r.material, r.priceKzt, r.imageUrl, r.active)],
           t.inventory[id := Stock(id, r.stock)],
           Schedule(t.tasks, id, NewTask(merchant, id, SEMANTIC_FIELDS)),
           id + 1)
  }

  function PatchedProduct(p: Product, patch: Patch): Product {
    p.(name := Or(patch.name, p.name), category := Or(patch.category, p.category),
       description := Or(patch.description, p.description), active := Or(patch.active, p.active))
  }

  function PatchedVariant(v: Variant, patch: Patch): Variant {
    v.(size := Or(patch.size, v.size), color := Or(patch.color, v.color), material := Or(patch.material, v.material),
       priceKzt := Or(patch.priceKzt, v.priceKzt), imageUrl := Or(patch.imageUrl, v.imageUrl), active := Or(patch.active, v.active))
  }

  function SemanticsOf(p: Product, v: Variant): Semantics {
    Semantics(p.name, p.description, p.category, v.material)
  }

  /** Product row k and variant row j patched, with a task for the semantic fields that changed. */
  function Patched(t: Tables, k: Key, j: Key, patch: Patch): Tables
    requires k in t.products && j in t.variants && t.variants[j].id in t.inventory
  {
    var p, v := t.products[k], t.variants[j];
    var changed := ChangedFields(SemanticsOf(p, v), SemanticsOf(PatchedProduct(p, patch), PatchedVariant(v, patch)));
    Tables(t.products[k := PatchedProduct(p, patch)],
           t.variants[j := PatchedVariant(v, patch)],
           t.inventory[v.id := t.inventory[v.id].(quantity := Or(patch.stock, t.inventory[v.id].quantity))],
           Schedule(t.tasks, t.nextId, NewTask(k.0, p.id, changed)),
           t.nextId + 1)
  }

  function PatchedOffer(o: Offer, patch: Patch): Offer {
    Offer(Or(patch.name, o.name), Or(patch.category, o.category), Or(patch.description, o.description),
          Or(patch.size, o.size), Or(patch.color, o.color), Or(patch.material, o.material),
          Or(patch.priceKzt, o.priceKzt), Or(patch.stock, o.stock), Or(patch.imageUrl, o.imageUrl),
          Or(patch.active, o.productActive), Or(patch.active, o.variantActive))
  }

  /** The new value of a field that a patch may give. */
  ghost predicate Takes<T>(change: Option<T>, before: T, after: T) {
    match change
    case Some(value) => after == value
    case None => after == before
  }

  /** What a patch asks of an offer, field by field. */
  ghost predicate PatchMeans(o: Offer, o': Offer, patch: Patch) {
    && Takes(patch.name, o.name, o'.name) && Takes(patch.category, o.category, o'.category)
    && Takes(patch.description, o.description, o'.description)
    && Takes(patch.size, o.size, o'.size) && Takes(patch.color, o.color, o'.color) && Takes(patch.material, o.material, o'.material)
    && Takes(patch.priceKzt, o.priceKzt, o'.priceKzt) && Takes(patch.stock, o.stock, o'.stock)
    && Takes(patch.imageUrl, o.imageUrl, o'.imageUrl)
    && Takes(patch.active, o.productActive, o'.productActive) && Takes(patch.active, o.variantActive, o'.variantActive)
  }

  // ----- laws

  lemma CreateShapeAt(t: Tables, merchant: nat, r: CatalogRow, k: Key)
    requires Shape(t) && SkuKey(merchant, r) !in t.products
    ensures var t' := Created(t, merchant, r);
            PairedAt(t', k) && OfferAt(t', k) == (if k == SkuKey(merchant, r) then Some(RowOffer(r)) else OfferAt(t, k))
  {
    assert PairedAt(t, k);
  }

  lemma CreateIdsApart(t: Tables, merchant: nat, r: CatalogRow, j: Key, k: Key)
    requires Shape(t) && SkuKey(merchant, r) !in t.products
    ensures IdsApart(Created(t, merchant, r), j, k)
  {
    assert PairedAt(t, j) && PairedAt(t, k) && IdsApart(t, j, k);
  }

  lemma CreateStockOwned(t: Tables, merchant: nat, r: CatalogRow, v: nat)
    requires Shape(t) && SkuKey(merchant, r) !in t.products && v in Created(t, merchant, r).inventory
    ensures StockOwned(Created(t, merchant, r), v)
  {
    var t' := Created(t, merchant, r);
    if v == t.nextId {
      assert SkuKey(merchant, r) in t'.variants;
    } else {
      assert StockOwned(t, v);
      var k :| k in t.variants && t.variants[k].id == v;
      assert PairedAt(t, k);
      assert k in t'.variants && t'.variants[k].id == v;
    }
  }

  /** Creating keeps the shape, adds exactly that offer, and schedules exactly. */
  lemma CreateLaws(t: Tables, merchant: nat, r: CatalogRow)
    requires Shape(t) && SkuKey(merchant, r) !in t.products
    ensures var t' := Created(t, merchant, r);
            && Shape(t') && ExactlyScheduled(t, t') && TasksListDifferences(t, t')
            && (forall k :: OfferAt(t', k) == if k == SkuKey(merchant, r) then Some(RowOffer(r)) else OfferAt(t, k))
  {
    var t', key := Created(t, merchant, r), SkuKey(merchant, r);
    TaskIds(t);
    forall k
      ensures PairedAt(t', k)
      ensures OfferAt(t', k) == if k == key then Some(RowOffer(r)) else OfferAt(t, k)
    {
      CreateShapeAt(t, merchant, r, k);
    }
    forall j, k ensures IdsApart(t', j, k) { CreateIdsApart(t, merchant, r, j, k); }
    forall v | v in t'.inventory ensures StockOwned(t', v) { CreateStockOwned(t, merchant, r, v); }
    forall k ensures ScheduledAt(t, t', k) {
      if k == key {
        assert IsNew(t, t', t.nextId) && t'.tasks[t.nextId] == TaskFor(t, t', k);
      } else {
        assert PairedAt(t, k);
      }
    }
    forall id ensures CausedAt(t, t', id) {
      if IsNew(t, t', id) { assert t'.tasks[id] == TaskFor(t, t', key); }
    }
    ExactTasksListDifferences(t, t');
  }

  /** In a well-shaped catalog the variant found by product id is the one under the product's key. */
  lemma VariantOfProduct(t: Tables, k: Key, j: Key)
    requires Shape(t) && k in t.products && j in t.variants
    ensures t.variants[j].productId == t.products[k].id <==> j == k
  {
    assert PairedAt(t, k) && PairedAt(t, j) && IdsApart(t, j, k);
  }

  lemma PatchShapeAt(t: Tables, key: Key, patch: Patch, k: Key)
    requires Shape(t) && key in t.products && key in t.variants && t.variants[key].id in t.inventory
    ensures var t' := Patched(t, key, key, patch);
            && PairedAt(t', k) && IdsAt(t', k) == IdsAt(t, k)
            && OfferAt(t', k) == (if k == key then Some(PatchedOffer(OfferAt(t, key).value, patch)) else OfferAt(t, k))
  {
    assert PairedAt(t, k) && IdsApart(t, k, key);
  }

  /** Patching keeps the shape and all ids, changes exactly that offer, and schedules exactly. */
  lemma PatchLaws(t: Tables, key: Key, patch: Patch)
    requires Shape(t) && key in t.products
    ensures key in t.variants && t.variants[key].id in t.inventory
    ensures var t' := Patched(t, key, key, patch);
            && Shape(t') && ExactlyScheduled(t, t') && TasksListDifferences(t, t')
            && (forall k :: IdsAt(t', k) == IdsAt(t, k))
            && (forall k :: OfferAt(t', k) ==
                  if k == key then Some(PatchedOffer(OfferAt(t, key).value, patch)) else OfferAt(t, k))
            && PatchMeans(OfferAt(t, key).value, OfferAt(t', key).value, patch)
  {
    assert PairedAt(t, key);
    var t' := Patched(t, key, key, patch);
    TaskIds(t);
    forall k
      ensures PairedAt(t', k) && IdsAt(t', k) == IdsAt(t, k)
      ensures OfferAt(t', k) == if k == key then Some(PatchedOffer(OfferAt(t, key).value, patch)) else OfferAt(t, k)
    {
      PatchShapeAt(t, key, patch, k);
    }
    forall j, k ensures IdsApart(t', j, k) { assert IdsApart(t, j, k); }
    forall v | v in t'.inventory ensures StockOwned(t', v) {
      assert StockOwned(t, v);
      var k :| k in t.variants && t.variants[k].id == v;
      assert k in t'.variants && t'.variants[k].id == v;
    }
    PatchSchedules(t, key, patch);
    ExactTasksListDifferences(t, t');
  }

  lemma PatchSchedules(t: Tables, key: Key, patch: Patch)
    requires Shape(t) && key in t.products && key in t.variants && t.variants[key].id in t.inventory
    ensures ExactlyScheduled(t, Patched(t, key, key, patch))
  {
    var t' := Patched(t, key, key, patch);
    TaskIds(t);
    assert SemanticsAt(t, key) == SemanticsOf(t.products[key], t.variants[key]);
    assert SemanticsAt(t', key) == SemanticsOf(t'.products[key], t'.variants[key]);
    forall k ensures ScheduledAt(t, t', k) {
      if k == key && KeyChanges(t, t', k) != {} {
        assert IsNew(t, t', t.nextId) && t'.tasks[t.nextId] == TaskFor(t, t', k);
      } else {
        assert k in t.products && k != key ==> SemanticsAt(t', k) == SemanticsAt(t, k);
      }
    }
    forall id ensures CausedAt(t, t', id) {
      if IsNew(t, t', id) { assert t'.tasks[id] == TaskFor(t, t', key); }
    }
  }
}
