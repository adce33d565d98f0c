/**
 CSV imports over time: a state machine whose steps are the committed transactions of
 import_catalog_csv, so that any number of imports interleave and any of them may stop or fail
 between or inside its transactions.
 */
module ImportHistory {
  import opened Common
  import opened Upserts
  import opened Catalog
  import opened CatalogLaws
  import opened CatalogSession

  datatype Merchant = Merchant(slug: string, active: bool)

  /** The outcome of parsing the file: typed rows, rows with errors, or an unexpected exception. */
  datatype Parsed = Rows(rows: seq<CatalogRow>) | Malformed(totalRows: nat, invalidRows: nat) | ParserRaised

  datatype ImportStatus = PendingImport | Validating | Importing | CompletedImport | FailedImport

  datatype Summary = Summary(
    totalRows: nat, validRows: int, invalidRows: nat,
    createdProducts: nat, updatedProducts: int, createdVariants: nat, updatedVariants: int, updatedInventoryRows: nat)

  const NOTHING := Summary(0, 0, 0, 0, 0, 0, 0, 0)

  datatype Record = Record(merchantId: nat, slug: string, parsed: Parsed, status: ImportStatus, summary: Summary)

  datatype Entry = Entry(id: nat, merchantId: nat, rows: seq<CatalogRow>)

  /**
   `raised` are the imports whose mutation transaction raised, a fact only their processes know;
   `log` records the completed imports in commit order.
   */
  datatype World = World(
    merchants: map<nat, Merchant>, tables: Tables, imports: map<nat, Record>, raised: set<nat>, log: seq<Entry>)

  datatype Event =
    | Register(id: nat, merchantId: nat, parsed: Parsed)
    | BeginValidation(id: nat)
    | Reject(id: nat)
    | Mutate(id: nat, failAt: nat)
    | Recover(id: nat)

  function Start(merchants: map<nat, Merchant>): World { World(merchants, EMPTY, map[], {}, []) }

  predicate IsValidating(w: World, id: nat) {
    id in w.imports && w.imports[id].status == Validating && id !in w.raised
  }

  predicate Accepted(r: Record) { r.parsed.Rows? && ValidFile(r.parsed.rows, r.slug) }

  /** The summary of a completed import, counted against the catalog it found. */
  function CompletedSummary(before: Tables, merchant: nat, rows: seq<CatalogRow>): Summary {
    var createdProducts := CountNew(before.products.Keys, RowKeys(merchant, rows));
    var createdVariants := CountNew(before.variants.Keys, RowKeys(merchant, rows));
    Summary(|rows|, |rows|, 0, createdProducts, |rows| - createdProducts, createdVariants, |rows| - createdVariants, |rows|)
  }

  function RejectedSummary(r: Record): Summary {
    match r.parsed
    case Malformed(total, invalid) => NOTHING.(totalRows := total, validRows := total - invalid, invalidRows := invalid)
    case Rows(rows) =>
      var invalid := |RejectedRows(rows, r.slug, |rows|)|;
      NOTHING.(totalRows := |rows|, validRows := |rows| - invalid, invalidRows := invalid)
    case ParserRaised => NOTHING
  }

  function SetStatus(w: World, id: nat, status: ImportStatus, summary: Summary): World
    requires id in w.imports
  {
    w.(imports := w.imports[id := w.imports[id].(status := status, summary := summary)])
  }

  /** The tables in the session's private view after n statements of the mutation transaction. */
  function TablesAfter(t: Tables, merchant: nat, rows: seq<CatalogRow>, n: nat): Tables {
    match n
    case 0 => t
    case 1 => t
    case 2 => ImportProducts(t, merchant, rows)
    case 3 => ImportVariants(ImportProducts(t, merchant, rows), merchant, rows)
    case 4 => ImportInventory(ImportVariants(ImportProducts(t, merchant, rows), merchant, rows), merchant, rows)
    case _ => Import(t, merchant, rows)
  }

  /** The private view: the status is written first and last, the tables in between. */
  function PrivateView(w: World, id: nat, n: nat): World
    requires id in w.imports && w.imports[id].parsed.Rows?
  {
    var r, rows := w.imports[id], w.imports[id].parsed.rows;
    var status := if n == 0 then r.status else if n <= 5 then Importing else CompletedImport;
    var summary := if n <= 5 then r.summary else CompletedSummary(w.tables, r.merchantId, rows);
    SetStatus(w, id, status, summary).(tables := TablesAfter(w.tables, r.merchantId, rows, n))
  }

  /** One committed transaction; an event that the import's program does not reach changes nothing. */
  function Step(w: World, e: Event): World {
    match e
    case Register(id, m, parsed) =>
      if id in w.imports || m !in w.merchants || !w.merchants[m].active then w
      else w.(imports := w.imports[id := Record(m, w.merchants[m].slug, parsed, PendingImport, NOTHING)])
    case BeginValidation(id) =>
      if id in w.imports && w.imports[id].status == PendingImport then SetStatus(w, id, Validating, NOTHING) else w
    case Reject(id) =>
      if IsValidating(w, id) && !w.imports[id].parsed.ParserRaised? && !Accepted(w.imports[id]) then
        SetStatus(w, id, FailedImport, RejectedSummary(w.imports[id]))
      else w
    case Mutate(id, failAt) =>
      if !IsValidating(w, id) || !Accepted(w.imports[id]) then w
      else if failAt <= 6 then w.(raised := w.raised + {id})
      else
        var r := w.imports[id];
        PrivateView(w, id, 6).(log := w.log + [Entry(id, r.merchantId, r.parsed.rows)])
    case Recover(id) =>
      if id in w.imports && w.imports[id].status == Validating && (id in w.raised || w.imports[id].parsed.ParserRaised?) then
        SetStatus(w, id, FailedImport, NOTHING)
      else w
  }

  function Run(w: World, es: seq<Event>): World
    decreases |es|
  {
    if es == [] then w else Run(Step(w, es[0]), es[1..])
  }

  // ----- what a history means

  /** The completed imports applied one after the other to an empty catalog. */
  function Replay(log: seq<Entry>): Tables {
    if log == [] then EMPTY
    else var e := log[|log| - 1]; Import(Replay(log[..|log| - 1]), e.merchantId, e.rows)
  }

  /** The last row for a SKU among the completed imports of its merchant. */
  function LastCompletedRow(log: seq<Entry>, k: Key): Option<CatalogRow> {
    if log == [] then None else
      var e := log[|log| - 1];
      var i := RowAt(e.merchantId, e.rows, k);
      if i >= 0 then Some(e.rows[i]) else LastCompletedRow(log[..|log| - 1], k)
  }

  ghost predicate ImportAt(w: World, id: nat) {
    id in w.imports ==>
      && w.imports[id].status != Importing
      && (w.imports[id].status == CompletedImport ==>
            Accepted(w.imports[id]) && Entry(id, w.imports[id].merchantId, w.imports[id].parsed.rows) in w.log)
  }

  ghost predicate LoggedAt(w: World, e: Entry) {
    e in w.log ==> e.id in w.imports && w.imports[e.id].status == CompletedImport && DistinctSkus(e.rows)
                   && w.imports[e.id].merchantId == e.merchantId && w.imports[e.id].parsed == Rows(e.rows)
  }

  ghost predicate Inv(w: World) {
    && w.tables == Replay(w.log)
    && (forall id :: ImportAt(w, id))
    && (forall e :: LoggedAt(w, e))
    && Distinct(w.log)
  }

  lemma CommitKeepsInv(w: World, w': World, id: nat, entry: Entry)
    requires Inv(w) && id in w.imports && w.imports[id].status == Validating && Accepted(w.imports[id])
    requires entry == Entry(id, w.imports[id].merchantId, w.imports[id].parsed.rows)
    requires w'.tables == Import(w.tables, entry.merchantId, entry.rows)
    requires id in w'.imports && w'.imports == w.imports[id := w.imports[id].(status := CompletedImport, summary := w'.imports[id].summary)]
    requires w'.log == w.log + [entry]
    ensures Inv(w')
  {
    assert DistinctSkus(entry.rows) by { ValidFileMeans(entry.rows, w.imports[id].slug); }
    assert w'.tables == Replay(w'.log) by { assert w'.log[..|w.log|] == w.log; }
    assert entry !in w.log by { assert LoggedAt(w, entry); }
    assert Distinct(w'.log) by { AppendDistinct(w.log, entry); }
    forall x ensures ImportAt(w', x) { assert ImportAt(w, x); }
    forall x ensures LoggedAt(w', x) { assert LoggedAt(w, x); }
  }

  predicate Commits(w: World, e: Event) {
    e.Mutate? && IsValidating(w, e.id) && Accepted(w.imports[e.id]) && e.failAt > 6
  }

  /** Record `id` is as before, or new, or moved between statuses other than IMPORTING and COMPLETED. */
  ghost predicate MovedAt(w: World, w': World, id: nat) {
    && (id in w.imports ==>
          && id in w'.imports
          && w'.imports[id].merchantId == w.imports[id].merchantId && w'.imports[id].slug == w.imports[id].slug
          && w'.imports[id].parsed == w.imports[id].parsed
          && (w'.imports[id].status == w.imports[id].status ||
              (w.imports[id].status != CompletedImport && w'.imports[id].status !in {Importing, CompletedImport})))
    && (id in w'.imports && id !in w.imports ==> w'.imports[id].status == PendingImport)
  }

  lemma OtherStepMoves(w: World, e: Event, id: nat)
    requires !Commits(w, e)
    ensures MovedAt(w, Step(w, e), id) && Step(w, e).tables == w.tables && Step(w, e).log == w.log
  {
  }

  lemma OtherStepKeepsInv(w: World, w': World)
    requires Inv(w) && w'.tables == w.tables && w'.log == w.log && forall id :: MovedAt(w, w', id)
    ensures Inv(w')
  {
    forall id ensures ImportAt(w', id) { assert ImportAt(w, id) && MovedAt(w, w', id); }
    forall x ensures LoggedAt(w', x) { assert LoggedAt(w, x) && MovedAt(w, w', x.id); }
  }

  lemma CommitStepKeepsInv(w: World, e: Event)
    requires Inv(w) && Commits(w, e)
    ensures Inv(Step(w, e))
  {
    var r := w.imports[e.id];
    CommitKeepsInv(w, Step(w, e), e.id, Entry(e.id, r.merchantId, r.parsed.rows));
  }

  lemma AppendDistinct<T(!new)>(s: seq<T>, x: T)
    requires Distinct(s) && x !in s
    ensures Distinct(s + [x])
  {
  }

  lemma {:induction false} RunKeepsInv(w: World, es: seq<Event>)
    requires Inv(w)
    ensures Inv(Run(w, es))
    decreases |es|
  {
    if es != [] {
      var e := es[0];
      if Commits(w, e) {
        CommitStepKeepsInv(w, e);
      } else {
        forall id ensures MovedAt(w, Step(w, e), id) { OtherStepMoves(w, e, id); }
        OtherStepMoves(w, e, 0);
        OtherStepKeepsInv(w, Step(w, e));
      }
      RunKeepsInv(Step(w, es[0]), es[1..]);
    }
  }

  lemma StartInv(merchants: map<nat, Merchant>)
    ensures Inv(Start(merchants))
  {
  }

  lemma EmptyShape()
    ensures Shape(EMPTY)
  {
  }

  lemma {:induction false} ReplayShape(log: seq<Entry>)
    requires forall e | e in log :: DistinctSkus(e.rows)
    ensures Shape(Replay(log))
  {
    if log == [] {
      EmptyShape();
    } else {
      var n := |log| - 1;
      assert log[n] in log && forall e | e in log[..n] :: e in log;
      ReplayShape(log[..n]);
      ImportContents(Replay(log[..n]), log[n].merchantId, log[n].rows);
    }
  }

  lemma {:induction false} ReplayMeans(log: seq<Entry>, k: Key)
    requires forall e | e in log :: DistinctSkus(e.rows)
    ensures OfferAt(Replay(log), k) == match LastCompletedRow(log, k) case None => None case Some(r) => Some(RowOffer(r))
  {
    if log != [] {
      var n := |log| - 1;
      assert log[n] in log && forall e | e in log[..n] :: e in log;
      ReplayShape(log[..n]);
      ReplayMeans(log[..n], k);
      OfferAfterImport(Replay(log[..n]), Replay(log), log[n].merchantId, log[n].rows, k);
    }
  }

  lemma OfferAfterImport(t: Tables, t': Tables, merchant: nat, rows: seq<CatalogRow>, k: Key)
    requires Shape(t) && DistinctSkus(rows) && t' == Import(t, merchant, rows)
    ensures OfferAt(t', k) ==
      var i := RowAt(merchant, rows, k); if i < 0 then OfferAt(t, k) else Some(RowOffer(rows[i]))
  {
    ImportContents(t, merchant, rows);
  }

  ghost predicate CatalogIsReplay(w: World) { w.tables == Replay(w.log) && Shape(w.tables) }

  /** Under key `k` stands the last row completed for it, or nothing if there is none. */
  ghost predicate HoldsLastRow(w: World, k: Key) {
    OfferAt(w.tables, k) == match LastCompletedRow(w.log, k) case None => None case Some(r) => Some(RowOffer(r))
  }

  /** The log lists each completed import once, with its own merchant and rows, and no other import. */
  ghost predicate LogIsCompleted(w: World) {
    && Distinct(w.log)
    && (forall e | e in w.log :: e.id in w.imports && w.imports[e.id].status == CompletedImport
                                 && w.imports[e.id].merchantId == e.merchantId && w.imports[e.id].parsed == Rows(e.rows))
    && (forall id | id in w.imports && w.imports[id].status == CompletedImport ::
          w.imports[id].parsed.Rows? && Entry(id, w.imports[id].merchantId, w.imports[id].parsed.rows) in w.log)
  }

  /** `w` is reached by some interleaving of imports. */
  ghost predicate Reachable(w: World, merchants: map<nat, Merchant>) { exists es :: Run(Start(merchants), es) == w }

  lemma ReachableInv(w: World, merchants: map<nat, Merchant>)
    requires Reachable(w, merchants)
    ensures Inv(w)
  {
    var es :| Run(Start(merchants), es) == w;
    StartInv(merchants);
    RunKeepsInv(Start(merchants), es);
  }

  /**
   Import history.  In every reachable state the catalog is the completed imports applied in commit
   order: under every SKU of every merchant stands the last row completed for it, and nothing else.
   Exactly the COMPLETED imports are in the log, so FAILED and unfinished imports contribute nothing.
   */
  lemma HistoryIsCompletedImports(w: World, merchants: map<nat, Merchant>)
    requires Reachable(w, merchants)
    ensures CatalogIsReplay(w) && LogIsCompleted(w) && forall k: Key :: HoldsLastRow(w, k)
  {
    ReachableInv(w, merchants);
    assert forall e | e in w.log :: LoggedAt(w, e);
    assert forall id | id in w.imports :: ImportAt(w, id);
    forall k: Key ensures HoldsLastRow(w, k) { ReplayMeans(w.log, k); }
    ReplayShape(w.log);
  }

  /** IMPORTING is only ever seen inside the mutation transaction; no committed import has it. */
  lemma ImportingIsNeverCommitted(w: World, merchants: map<nat, Merchant>, id: nat)
    requires Reachable(w, merchants) && id in w.imports
    ensures w.imports[id].status != Importing
  {
    ReachableInv(w, merchants);
    assert ImportAt(w, id);
  }

  /** Inside the transaction the status is IMPORTING from its first statement to its last but one. */
  lemma MutationSeesImporting(w: World, id: nat, n: nat)
    requires id in w.imports && w.imports[id].parsed.Rows? && w.imports[id].status != Importing
    ensures PrivateView(w, id, n).imports[id].status == Importing <==> 1 <= n <= 5
  {
  }

  /** A mutation that fails anywhere leaves catalog and import record as they were, VALIDATING. */
  lemma FailedMutationLeavesNoTrace(w: World, id: nat, failAt: nat)
    requires IsValidating(w, id) && Accepted(w.imports[id]) && failAt <= 6
    ensures var w' := Step(w, Mutate(id, failAt));
            && w'.tables == w.tables && w'.imports == w.imports && w'.imports[id].status == Validating
            && Step(w', Recover(id)).imports[id].status == FailedImport
            && Step(w', Recover(id)).tables == w.tables
  {
  }

  /**
   A file is rejected exactly when some row names another merchant or repeats a SKU; its import then
   FAILS with every row counted once, as valid or as rejected, and the catalog as it was.
   */
  lemma RejectionIsCounted(w: World, id: nat)
    requires IsValidating(w, id) && w.imports[id].parsed.Rows?
    ensures var w', rows, slug := Step(w, Reject(id)), w.imports[id].parsed.rows, w.imports[id].slug;
            && id in w'.imports && w'.tables == w.tables
            && (w'.imports[id].status == FailedImport <==> exists i :: i in RejectedPositions(rows, slug, |rows|))
            && (w'.imports[id].status == FailedImport ==>
                  var s := w'.imports[id].summary;
                  && s.totalRows == |rows| == s.validRows + s.invalidRows
                  && s.invalidRows == |RejectedPositions(rows, slug, |rows|)|
                  && s.createdProducts == s.updatedProducts == s.createdVariants == s.updatedVariants == s.updatedInventoryRows == 0)
  {
    var rows, slug := w.imports[id].parsed.rows, w.imports[id].slug;
    NoErrorsPrefix(rows, slug, |rows|);
    RejectedRowsAreCounted(rows, slug, |rows|);
    if !Accepted(w.imports[id]) {
      var i: nat :| i < |rows| && RowRejected(rows, slug, i);
      assert i in RejectedPositions(rows, slug, |rows|);
    } else {
      forall i: nat | i < |rows| ensures i !in RejectedPositions(rows, slug, |rows|) { assert !RowRejected(rows, slug, i); }
    }
  }

  /** A file with malformed rows FAILS as well, with the parser's counts, and leaves the catalog as it was. */
  lemma MalformedIsCounted(w: World, id: nat)
    requires IsValidating(w, id) && w.imports[id].parsed.Malformed?
    ensures var w', p := Step(w, Reject(id)), w.imports[id].parsed;
            && id in w'.imports && w'.imports[id].status == FailedImport && w'.tables == w.tables
            && w'.imports[id].summary.totalRows == p.totalRows && w'.imports[id].summary.invalidRows == p.invalidRows
            && w'.imports[id].summary.validRows + p.invalidRows == p.totalRows
  {
  }

  ghost predicate RegisteredAt(w: World, id: nat) {
    id in w.imports ==>
      var r := w.imports[id]; r.merchantId in w.merchants && w.merchants[r.merchantId] == Merchant(r.slug, true)
  }

  lemma {:induction false} RunKeepsRegistration(w: World, es: seq<Event>)
    requires forall id :: RegisteredAt(w, id)
    ensures forall id :: RegisteredAt(Run(w, es), id)
    decreases |es|
  {
    if es != [] {
      var w' := Step(w, es[0]);
      forall id ensures RegisteredAt(w', id) { assert RegisteredAt(w, id); }
      RunKeepsRegistration(w', es[1..]);
    }
  }

  /** In every run each import belongs to a known and active merchant, whose slug its rows are checked against. */
  lemma ImportsAreOfActiveMerchants(merchants: map<nat, Merchant>, es: seq<Event>)
    ensures forall id :: RegisteredAt(Run(Start(merchants), es), id)
  {
    RunKeepsRegistration(Start(merchants), es);
  }

  ghost predicate CountersAreGrowth(w: World, w': World, id: nat) {
    && id in w.imports && id in w'.imports && w.imports[id].parsed.Rows? && w'.imports[id].status == CompletedImport
    && var s := w'.imports[id].summary;
    && s.createdProducts == |w'.tables.products| - |w.tables.products|
    && s.createdVariants == |w'.tables.variants| - |w.tables.variants|
    && s.createdProducts + s.updatedProducts == s.totalRows == |w.imports[id].parsed.rows|
    && s.createdVariants + s.updatedVariants == s.totalRows == s.updatedInventoryRows
    && s.updatedProducts >= 0 && s.updatedVariants >= 0 && s.validRows == s.totalRows && s.invalidRows == 0
  }

  lemma SameKeys(t: Tables)
    requires Shape(t)
    ensures t.products.Keys == t.variants.Keys
  {
    forall k ensures k in t.products <==> k in t.variants { assert PairedAt(t, k); }
  }

  /** The summary of an import, counted against the catalog it finds, is the growth it causes. */
  lemma SummaryIsGrowth(t: Tables, merchant: nat, rows: seq<CatalogRow>)
    requires Shape(t) && DistinctSkus(rows)
    ensures var s, t' := CompletedSummary(t, merchant, rows), Import(t, merchant, rows);
            && s.createdProducts == |t'.products| - |t.products| <= s.totalRows
            && s.createdVariants == |t'.variants| - |t.variants| <= s.totalRows
  {
    SameKeys(t);
    ImportGrowth(t, merchant, rows);
  }

  lemma MutateCommits(w: World, id: nat, failAt: nat)
    requires IsValidating(w, id) && Accepted(w.imports[id]) && failAt > 6
    ensures var r, w' := w.imports[id], Step(w, Mutate(id, failAt));
            && w'.tables == Import(w.tables, r.merchantId, r.parsed.rows) && id in w'.imports
            && w'.imports[id].status == CompletedImport
            && w'.imports[id].summary == CompletedSummary(w.tables, r.merchantId, r.parsed.rows)
  {
  }

  /** The counters of an import that completes are the growth of the tables and make up all its rows. */
  lemma CompletedCountersAreGrowth(w: World, merchants: map<nat, Merchant>, id: nat, failAt: nat)
    requires Reachable(w, merchants) && IsValidating(w, id) && Accepted(w.imports[id]) && failAt > 6
    ensures CountersAreGrowth(w, Step(w, Mutate(id, failAt)), id)
  {
    var r := w.imports[id];
    ReachableShape(w, merchants);
    ValidFileMeans(r.parsed.rows, r.slug);
    SummaryIsGrowth(w.tables, r.merchantId, r.parsed.rows);
    MutateCommits(w, id, failAt);
  }

  lemma ReachableShape(w: World, merchants: map<nat, Merchant>)
    requires Reachable(w, merchants)
    ensures Shape(w.tables)
  {
    HistoryIsCompletedImports(w, merchants);
  }
}
