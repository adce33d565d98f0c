/**
 The whole system: the catalog writers of the program feeding the indexing protocol.  It shows that
 every one of them schedules as the protocol needs, so that index coverage holds for the real catalog.
 */
module IndexedCatalog {
  import FencedQueue
  import opened Documents
  import opened Catalog
  import opened CatalogLaws
  import opened CatalogWriters
  import opened CatalogSession
  import opened IndexingProtocol
  import opened IndexingInvariant

  // ----- the catalog as the indexer sees it

  function ProductIdSet(t: Tables): set<nat> { set k | k in t.products :: t.products[k].id }

  ghost function KeyOf(t: Tables, p: nat): (k: Key)
    requires p in ProductIdSet(t)
    ensures k in t.products && t.products[k].id == p
  {
    var k :| k in t.products && t.products[k].id == p;
    k
  }

  function ListingOf(t: Tables, k: Key): Listing
    requires k in t.products
  {
    Listing(k.0, SemanticsAt(t, k), k in t.variants)
  }

  ghost function Listings(t: Tables): map<nat, Listing> {
    map p | p in ProductIdSet(t) :: ListingOf(t, KeyOf(t, p))
  }

  ghost predicate IsTaskOf(t: Tables, t': Tables, p: nat, id: nat) { IsNew(t, t', id) && t'.tasks[id].productId == p }

  /** The new task of each product that has one. */
  ghost function Scheduled(t: Tables, t': Tables): map<nat, nat> {
    map p | p in ProductIdSet(t') && (exists id :: IsTaskOf(t, t', p, id)) :: var id :| IsTaskOf(t, t', p, id); id
  }

  lemma ListingAtKey(t: Tables, k: Key)
    requires Shape(t) && k in t.products
    ensures t.products[k].id in Listings(t) && KeyOf(t, t.products[k].id) == k
    ensures Listings(t)[t.products[k].id] == Listing(k.0, SemanticsAt(t, k), true)
  {
    assert IdsApart(t, KeyOf(t, t.products[k].id), k) && PairedAt(t, k);
  }

  lemma ChangedIsKeyChanges(t: Tables, t': Tables, k: Key)
    requires Shape(t) && Shape(t') && ExactlyScheduled(t, t') && k in t'.products
    ensures var p := t'.products[k].id;
            && p in Listings(t')
            && (Changed(Listings(t), Listings(t'), p) <==> KeyChanges(t, t', k) != {})
            && Differing(Listings(t), Listings(t'), p) == KeyChanges(t, t', k)
            && (p in Listings(t) ==> k in t.products)
  {
    var p := t'.products[k].id;
    ListingAtKey(t', k);
    assert ScheduledAt(t, t', k);
    if k in t.products {
      ListingAtKey(t, k);
    }
    if p in Listings(t) {
      var j := KeyOf(t, p);
      assert ScheduledAt(t, t', j) && IdsApart(t', j, k);
    }
  }

  lemma ScheduledAtProduct(t: Tables, t': Tables, p: nat)
    requires Shape(t) && Shape(t') && ExactlyScheduled(t, t')
    ensures p in Listings(t) ==> p in Listings(t')
    ensures p in Scheduled(t, t') <==> Changed(Listings(t), Listings(t'), p)
    ensures p in Scheduled(t, t') ==>
      && IsTaskOf(t, t', p, Scheduled(t, t')[p])
      && t'.tasks[Scheduled(t, t')[p]] == NewTask(Listings(t')[p].merchantId, p, Differing(Listings(t), Listings(t'), p))
  {
    if p in Listings(t) {
      assert ScheduledAt(t, t', KeyOf(t, p));
    }
    if p in Listings(t') {
      var k := KeyOf(t', p);
      assert ScheduledAt(t, t', k);
      ChangedIsKeyChanges(t, t', k);
      ListingAtKey(t', k);
      if KeyChanges(t, t', k) != {} {
        var id :| IsNew(t, t', id) && t'.tasks[id] == TaskFor(t, t', k);
        assert IsTaskOf(t, t', p, id);
        assert TasksApart(t, t', id, Scheduled(t, t')[p]);
      }
      if p in Scheduled(t, t') {
        var id := Scheduled(t, t')[p];
        assert CausedAt(t, t', id);
        var j :| j in t'.products && KeyChanges(t, t', j) != {} && t'.tasks[id] == TaskFor(t, t', j);
        assert IdsApart(t', j, k);
      }
    }
  }

  /** The tasks the protocol adds are the rows the transaction inserted. */
  lemma SameNewTasks(t: Tables, t': Tables, tasks: map<nat, FencedQueue.Row<NewTask>>, added: map<nat, FencedQueue.Row<NewTask>>)
    requires ExactlyScheduled(t, t') && tasks.Keys == t.tasks.Keys
    requires forall p | p in Scheduled(t, t') :: IsTaskOf(t, t', p, Scheduled(t, t')[p])
    requires forall p, id | IsTaskOf(t, t', p, id) :: p in Scheduled(t, t')
    requires forall id :: id in added <==> id in Scheduled(t, t').Values
    ensures forall id :: id in t'.tasks <==> id in tasks || id in added
  {
    var scheduled := Scheduled(t, t');
    forall id ensures id in t'.tasks <==> id in tasks || id in added {
      assert CausedAt(t, t', id);
      if IsNew(t, t', id) {
        var p := t'.tasks[id].productId;
        assert IsTaskOf(t, t', p, id) && IsTaskOf(t, t', p, scheduled[p]);
        assert TasksApart(t, t', id, scheduled[p]);
      }
    }
  }

  /** An exactly scheduled catalog transaction is one the protocol allows, with the same tasks. */
  lemma ExactSchedulingIsAllowed(t: Tables, t': Tables, tasks: map<nat, FencedQueue.Row<NewTask>>, at: int)
    requires Shape(t) && Shape(t') && ExactlyScheduled(t, t') && tasks.Keys == t.tasks.Keys
    ensures WriteAllowed(Listings(t), tasks, Listings(t'), Scheduled(t, t'))
    ensures forall id :: id in t'.tasks <==>
      id in tasks || id in ScheduledTasks(Listings(t), Listings(t'), Scheduled(t, t'), at)
  {
    forall p
      ensures p in Listings(t) ==> p in Listings(t')
      ensures p in Scheduled(t, t') <==> Changed(Listings(t), Listings(t'), p)
      ensures p in Scheduled(t, t') ==> IsTaskOf(t, t', p, Scheduled(t, t')[p])
    {
      ScheduledAtProduct(t, t', p);
    }
    NewTasksAreScheduled(t, t');
    SameNewTasks(t, t', tasks, ScheduledTasks(Listings(t), Listings(t'), Scheduled(t, t'), at));
  }

  lemma NewTasksAreScheduled(t: Tables, t': Tables)
    requires ExactlyScheduled(t, t')
    ensures forall p, id | IsTaskOf(t, t', p, id) :: p in Scheduled(t, t')
  {
    forall p, id | IsTaskOf(t, t', p, id) ensures p in Scheduled(t, t') {
      assert CausedAt(t, t', id);
    }
  }

  // ----- the system

  datatype System = System(tables: Tables, index: State)

  /** `fails` marks a transaction that raises somewhere and is rolled back. */
  datatype Action =
    | CreateProduct(merchant: nat, row: CatalogRow, fails: bool, at: int)
    | PatchProduct(productId: nat, patch: Patch, fails: bool, at: int)
    | ImportFile(merchant: nat, slug: string, rows: seq<CatalogRow>, fails: bool, at: int)
    | Index(event: Event)

  ghost function TablesAfter(t: Tables, a: Action): Tables {
    match a
    case CreateProduct(merchant, row, fails, _) =>
      if fails || SkuKey(merchant, row) in t.products || SkuKey(merchant, row) in t.variants then t else Created(t, merchant, row)
    case PatchProduct(p, patch, fails, _) =>
      if fails || p !in ProductIdSet(t) then t
      else
        var k := KeyOf(t, p);
        if k in t.variants && t.variants[k].id in t.inventory then Patched(t, k, k, patch) else t
    case ImportFile(merchant, slug, rows, fails, _) =>
      if fails || !ValidFile(rows, slug) then t else Import(t, merchant, rows)
    case Index(_) => t
  }

  ghost function Next(s: System, a: Action): System {
    if a.Index? then
      if a.event.Write? then s else s.(index := Step(s.index, a.event))
    else
      var t' := TablesAfter(s.tables, a);
      System(t', Step(s.index, Write(Listings(t'), Scheduled(s.tables, t'), a.at)))
  }

  ghost function Execute(s: System, actions: seq<Action>): System
    decreases |actions|
  {
    if actions == [] then s else Execute(Next(s, actions[0]), actions[1..])
  }

  ghost predicate InStep(s: System) {
    && Shape(s.tables)
    && s.index.listings == Listings(s.tables)
    && s.index.tasks.Keys == s.tables.tasks.Keys
    && s.index.render == CanonicalText
    && Inv(s.index)
  }

  /** Every catalog transaction of the program, failed or not, keeps the shape and schedules exactly. */
  lemma WritersScheduleExactly(t: Tables, a: Action)
    requires Shape(t) && !a.Index?
    ensures Shape(TablesAfter(t, a)) && ExactlyScheduled(t, TablesAfter(t, a)) && TasksListDifferences(t, TablesAfter(t, a))
  {
    match a {
      case CreateProduct(merchant, row, fails, _) =>
        if TablesAfter(t, a) == t { UnchangedSchedules(t); } else { CreateLaws(t, merchant, row); }
      case PatchProduct(p, patch, fails, _) =>
        if fails || p !in ProductIdSet(t) { UnchangedSchedules(t); } else { PatchLaws(t, KeyOf(t, p), patch); }
      case ImportFile(merchant, slug, rows, fails, _) =>
        if fails || !ValidFile(rows, slug) {
          UnchangedSchedules(t);
        } else {
          ValidFileMeans(rows, slug);
          ImportSchedulesExactly(t, merchant, rows);
        }
    }
    ExactTasksListDifferences(t, TablesAfter(t, a));
  }

  /** A product for which a writer scheduled nothing keeps its canonical document. */
  lemma UnscheduledKeepsDocument(t: Tables, a: Action, k: Key)
    requires Shape(t) && !a.Index? && k in t.products
    requires forall id :: !IsTaskOf(t, TablesAfter(t, a), t.products[k].id, id)
    ensures k in TablesAfter(t, a).products
    ensures CanonicalText(SemanticsAt(TablesAfter(t, a), k)) == CanonicalText(SemanticsAt(t, k))
  {
    var t' := TablesAfter(t, a);
    WritersScheduleExactly(t, a);
    assert ScheduledAt(t, t', k);
    if KeyChanges(t, t', k) != {} {
      var id :| IsNew(t, t', id) && t'.tasks[id] == TaskFor(t, t', k);
      assert IsTaskOf(t, t', t.products[k].id, id);
    }
  }

  lemma UnchangedSchedules(t: Tables)
    requires Shape(t)
    ensures ExactlyScheduled(t, t)
  {
  }

  lemma IndexStepKeepsTasks(s: State, e: Event)
    requires !e.Write?
    ensures Step(s, e).tasks.Keys == s.tasks.Keys && Step(s, e).listings == s.listings && Step(s, e).render == s.render
  {
  }

  lemma IndexKeepsInStep(s: System, e: Event)
    requires InStep(s) && !e.Write?
    ensures InStep(s.(index := Step(s.index, e)))
  {
    StepKeepsInv(s.index, e);
    IndexStepKeepsTasks(s.index, e);
  }

  lemma WriteTakesEffect(s: State, after: map<nat, Listing>, scheduled: map<nat, nat>, at: int, ids: set<nat>)
    requires WriteAllowed(s.listings, s.tasks, after, scheduled)
    requires forall id :: id in ids <==> id in s.tasks || id in ScheduledTasks(s.listings, after, scheduled, at)
    ensures var s' := Step(s, Write(after, scheduled, at)); s'.listings == after && s'.tasks.Keys == ids && s'.render == s.render
  {
  }

  lemma {:induction false} ExecuteKeepsInStep(s: System, actions: seq<Action>)
    requires InStep(s)
    ensures InStep(Execute(s, actions))
    decreases |actions|
  {
    if actions != [] {
      var a := actions[0];
      if a.Index? {
        if !a.event.Write? { IndexKeepsInStep(s, a.event); }
      } else {
        var t' := TablesAfter(s.tables, a);
        WritersScheduleExactly(s.tables, a);
        ExactSchedulingIsAllowed(s.tables, t', s.index.tasks, a.at);
        StepKeepsInv(s.index, Write(Listings(t'), Scheduled(s.tables, t'), a.at));
        WriteTakesEffect(s.index, Listings(t'), Scheduled(s.tables, t'), a.at, t'.tasks.Keys);
      }
      ExecuteKeepsInStep(Next(s, actions[0]), actions[1..]);
    }
  }

  ghost function Launch(client: Client): System { System(EMPTY, Initial(client, CanonicalText)) }

  /** The stored embedding is the client's, of the canonical text of the product as it stands. */
  ghost predicate Indexed(s: System, k: Key)
    requires k in s.tables.products
  {
    var p := s.tables.products[k].id;
    && p in s.index.embeddings
    && var e := s.index.embeddings[p];
    && e.provider == s.index.client.provider && e.model == s.index.client.model && e.dimensions == s.index.client.dimensions
    && e.digest == Sha256(CanonicalText(SemanticsAt(s.tables, k)))
  }

  /** The task scheduled by the last change of product `k` has not completed. */
  ghost predicate NewestIsOpenAt(s: System, k: Key)
    requires k in s.tables.products
  {
    var p := s.tables.products[k].id;
    && p in s.index.newest && s.index.newest[p] in s.index.tasks
    && s.index.tasks[s.index.newest[p]].payload.productId == p && !s.index.tasks[s.index.newest[p]].status.Completed?
  }

  /** Product `k` is indexed as it stands, or its newest task has not completed. */
  ghost predicate CoveredAt(s: System, k: Key) {
    k in s.tables.products ==> Indexed(s, k) || NewestIsOpenAt(s, k)
  }

  ghost predicate Reachable(s: System, client: Client) { exists actions :: Execute(Launch(client), actions) == s }

  /**
   Index coverage of the real catalog.  Whatever products are created, patched and imported, with
   transactions failing anywhere and any number of indexing workers interleaved, crashed or late:
   every product is indexed as it stands, or the task of its last change has not completed.
   */
  lemma CatalogIsCovered(s: System, client: Client)
    requires Reachable(s, client)
    ensures forall k :: CoveredAt(s, k)
  {
    ReachableInStep(s, client);
    forall k ensures CoveredAt(s, k) {
      if k in s.tables.products {
        ListingAtKey(s.tables, k);
        assert ProductAt(s.index, s.tables.products[k].id);
      }
    }
  }

  lemma ReachableInStep(s: System, client: Client)
    requires Reachable(s, client)
    ensures InStep(s)
  {
    var actions :| Execute(Launch(client), actions) == s;
    LaunchInStep(client);
    ExecuteKeepsInStep(Launch(client), actions);
  }

  /** The row patch_product locates by product id is the one the catalog transaction patches. */
  lemma LocatedIsKey(t: Tables, productId: nat, k: Key, j: Key, patch: Patch, at: int)
    requires Shape(t) && Located(t, productId, k, j)
    ensures productId in ProductIdSet(t) && k == j == KeyOf(t, productId)
    ensures Patched(t, k, j, patch) == TablesAfter(t, PatchProduct(productId, patch, false, at))
  {
    assert j in VariantsOf(t.variants, productId);
    VariantOfProduct(t, k, j);
    assert IdsApart(t, k, KeyOf(t, productId));
  }

  lemma LaunchInStep(client: Client)
    ensures InStep(Launch(client))
  {
    assert Listings(EMPTY) == map[];
  }

  /** In every reachable state of the whole system the catalog is well shaped. */
  lemma CatalogIsShaped(s: System, client: Client)
    requires Reachable(s, client)
    ensures Shape(s.tables)
  {
    ReachableInStep(s, client);
  }
}
