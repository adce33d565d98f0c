# Talap: a verified model

Talap keeps the product catalogs of small merchants, an embedding index over them, and an inbox of
customer messages that a WhatsApp worker answers with product recommendations. This project models
the parts of it that are hardest to get right and proves, for all inputs and all
interleavings, what they are for.

| part | modules |
|---|---|
| fenced work queues (indexing tasks, message jobs) | `FencedQueue`, `QueueLaws`, `Backlog`, `TaskTable` |
| catalog writers: CSV import, create, patch | `Upserts`, `Catalog`, `CatalogLaws`, `CatalogWriters`, `CatalogSession`, `ImportHistory` |
| indexing protocol | `Documents`, `IndexingProtocol`, `IndexingInvariant`, `IndexingLaws`, `IndexingLife`, `IndexingFailures`, `IndexingScenario`, `IndexedCatalog`, `IndexingStore` |
| webhook ingestion | `Ingestion`, `IngestionRuns`, `InboundStore` |
| WhatsApp worker and recommendation sets | `Recommendations`, `WhatsAppWorker`, `WhatsAppInvariant`, `WhatsAppLaws`, `WhatsAppRaces`, `WhatsAppScenario`, `WhatsAppFacade` |
| product search | `ProductSearch` |
| embedding evaluation | `Vectors`, `Ranking`, `Percentiles`, `Metrics`, `MetricLaws`, `Evaluation`, `EvaluationFailures` |
| shared | `Common`, `Sorting` |

`dafny verify dfyconfig.toml` checks everything.

## How it is modelled

*Protocols are state machines.* A step is one committed transaction or one outside call. Steps of
different workers interleave freely, any worker may stop for good after any of its steps, and an
outside call may end either way. Clock readings are parameters of the steps and nothing relates
them, except in `Backlog`, where the claim is about clocks. A theorem about "runs" quantifies over
every finite sequence of steps.

*Code that updates state stays imperative.* Row objects (`TaskRow`, `EmbeddingRow`), tables
(`TaskTable`, `IndexStore`, `Store`, `Session`, `RecommendationStore`) and the worker (`Worker`) are
classes whose methods and loops are proved against the transition functions of the machines, so the
theorems about the machines speak about the methods. One call of the WhatsApp worker, for instance,
is proved to be a run of its machine made of its own steps only.

*The system is put together.* `IndexedCatalog` runs the catalog writers and the indexing protocol
side by side on one state and shows that the scheduling of every writer is what the protocol needs.

Assumptions. Each transaction is atomic and is definitely committed or not; phase D of the
processor reads the product without locking it (talap/indexing/processor.py:301), so index coverage
rests on that atomicity. SHA-256 is idealised as injective. Real arithmetic is exact, and the square
root is an argument that is required to be exact.

## Where code, comments and expectations differ

- talap/catalog/importer.py:163-165 says that an import may remain IMPORTING when recovery fails.
  The code leaves it VALIDATING: IMPORTING is written inside the mutation transaction, which rolled
  back (`ImportHistory.FailedMutationLeavesNoTrace`, `ImportHistory.ImportingIsNeverCommitted`).
- `max_attempts` does not bound `attempts`: claiming never looks at the cap, so for every cap and
  every stale period a row claimed again each time it is stale reaches any number of attempts
  (`QueueLaws.AttemptsAreUnbounded`). What is bounded is `QueueLaws.AttemptsBound`.
- talap/indexing/processor.py:103-104 says that stale claims are never raised to the caller. An
  overtaken call raises the invalid-transition error exactly when its task is no longer PROCESSING
  (`IndexingLaws.OvertakenCall`); a run from the empty system that ends so is
  `IndexingScenario.RaisedIsReachable`.
- A SUPERSEDED set can become SELECTED, because marking does not look at the old status
  (`WhatsAppLaws.SupersededSetsCanBeSelected`, reachable by
  `WhatsAppScenario.SupersededThenSelectedIsReachable`). The set a run marks is superseded exactly
  when, since its lookup, another run stored a set for the same customer while this one was active
  and no third run has marked it since (`WhatsAppRaces.MarkingSupersededExactlyWhen`).
- A confirmation can name another product than the stored selection: two runs resolve different
  numerals on one active set, both mark it, and the first confirms last
  (`WhatsAppRaces.ConfirmationCanBeOvertaken`, reachable by
  `WhatsAppScenario.OvertakenConfirmationIsReachable`). Confirmed is selected exactly when the last
  marking of the set between a run's own marking and its send, if any, chose the same product
  (`WhatsAppRaces.ConfirmedIsSelectedExactlyWhen`).
- For a replayed webhook the duplicate counters are the numbers of distinct identities, so created +
  duplicate is the number supplied exactly when no identity repeats (`Ingestion.ReplayChangesNothing`;
  a webhook for which it is not: `Ingestion.ReplayedRepetitionIsCountedOnce`). For a new event the
  two always add up (`Ingestion.IngestOnce`).
- Provider failures can only lower the overall scores (`EvaluationFailures.FailuresNeverImprove`),
  but one can raise a successful-only score: exactly when the failed query scored below the average
  of the successful ones and was not the only success
  (`EvaluationFailures.FailureRaisesSuccessfulOnlyExactlyWhen`).
- The search branch of `build_response_text` cannot be reached from the worker
  (`WhatsAppLaws.BuilderNeverSearches`).

## Main results

- Queues: `FencedQueue.SelectionIsExact`, `FencedQueue.CommitClaimsCurrentRows`,
  `QueueLaws.RunFollowsLife`, `QueueLaws.ClaimsWaitTheirTime`, `QueueLaws.SpentClaimIsPowerless`, `QueueLaws.AttemptLedger`,
  `Backlog.BacklogIsServedFairly`.
- Catalog: `CatalogLaws.ImportContents`, `CatalogLaws.ImportSchedulesExactly`,
  `CatalogLaws.ReimportChangesNothing`, `CatalogSession.Session.RunMutation`,
  `ImportHistory.HistoryIsCompletedImports`.
- Index: `IndexingInvariant.StepKeepsInv`, `IndexedCatalog.CatalogIsCovered`,
  `IndexingLaws.DrainedProductIsFresh`, `IndexingLaws.NoStaleVector`,
  `IndexingLaws.FreshnessIsLostExactlyWhen`, `IndexingFailures.TasksFailOnlyAtTheCap`,
  `IndexingFailures.UnusableAnswerIsRetried`, `IndexingLife.TasksFollowLives`,
  `IndexingStore.IndexStore.WriteEmbeddingAtomically`.
- Ingestion: `Ingestion.IngestOnce`, `Ingestion.ReplayChangesNothing`,
  `IngestionRuns.StoredAreTheCarried`, `IngestionRuns.DeliveryOrderIsIrrelevant`.
- WhatsApp worker: `WhatsAppInvariant.StepKeepsInvariant`, `WhatsAppLaws.JobsFollowLives`, `WhatsAppLaws.JobsEndAsTheirChannel`,
  `WhatsAppLaws.NumeralChoosesDisplayedProduct`, `WhatsAppLaws.DuplicateRepliesAreAccountedFor`,
  `WhatsAppRaces.MarkingSupersededExactlyWhen`, `WhatsAppRaces.ConfirmedIsSelectedExactlyWhen`,
  `WhatsAppFacade.Worker.ProcessOne`, `Recommendations.SelectionsAreNumerals`.
- Search and evaluation: `ProductSearch.SearchFindsTheOffered`, `Vectors.CauchySchwarz`,
  `Ranking.RankingMeaning`, `Ranking.RankingIgnoresNormalization`, `Percentiles.PercentileMonotone`,
  `MetricLaws.ReportSlicesAddUp`, `EvaluationFailures.FailuresNeverImprove`.

## Model

| member | source | states |
|---|---|---|
| FencedQueue.SelectIsFirstInOrder | talap/indexing/worker.py:136-153 | the claiming query returns exactly the first min(limit, eligible) rows by (available_at, created_at, id), without repetition |
| FencedQueue.SelectionIsExact | talap/indexing/worker.py:146-156 | with SKIP LOCKED, in any reachable lock state, a claim takes rows that are PENDING and due, or PROCESSING with a claim at least as old as the stale period, in the order of availability, creation and id; one that nobody else has locked is left out only when limit rows before it are taken; disjoint from all other lock sets |
| FencedQueue.StepKeepsLocks | talap/indexing/worker.py:152-164 | selecting, committing, rolling back, inserting and finalising keep lock sets disjoint and locked rows as they were loaded |
| FencedQueue.RunKeepsLocks | talap/indexing/worker.py:152-164 | the same over every run |
| FencedQueue.CommitClaimsCurrentRows | talap/indexing/worker.py:157-164 | no lost update: a claim commit raises attempts by one on its rows as they are at commit time and leaves all others alone, whatever others did since the selection |
| QueueLaws.RunFollowsLife | talap/ingestion/jobs.py:140-245 | in every run each row goes through a legal sequence of claims and endings and is where that sequence leads |
| QueueLaws.TokensAreConsecutive | talap/indexing/worker.py:157-175 | claim tokens of a row are consecutive, so strictly increasing, and attempts counts exactly the claims |
| QueueLaws.OnlyNewestTokenEnds | talap/indexing/worker.py:207-213 | whoever completes, fails or releases a row holds the newest token issued for it |
| QueueLaws.EachTokenEndsOnce | talap/indexing/worker.py:207-218 | each token finalises its row at most once in any run |
| QueueLaws.SpentClaimIsPowerless | talap/indexing/worker.py:259-265 | a superseded or used token changes nothing in any continuation |
| QueueLaws.TerminalRowsNeverChange | talap/ingestion/jobs.py:101-112 | COMPLETED and FAILED are absorbing: no run touches such a row |
| QueueLaws.ClaimsWaitTheirTime | talap/ingestion/jobs.py:101-112 | in every run a reclaim comes at least its stale period after the claim before it, a new claim no earlier than the row was available, which after a failure is the retry delay later, and nothing is claimed after a completion or a failure at the cap |
| QueueLaws.RowShowsLastChange | talap/ingestion/jobs.py:121-245 | in every run a row's status, times and error text are those of its last claim, completion, failure or release, and payload and creation time never change |
| QueueLaws.AttemptLedger | talap/ingestion/jobs.py:208-245 | attempts == retries + releases + stale reclaims + (0 if PENDING else 1) in every reachable state |
| QueueLaws.AttemptsBound | talap/ingestion/jobs.py:229-242 | under a fixed cap at most cap-1 failures reschedule, and attempts never exceed the cap by more than releases and reclaims |
| QueueLaws.AttemptsAreUnbounded | talap/indexing/worker.py:136-164 | for every stale period, advancing clock and cap, a new row claimed again each time its claim is stale reaches any number of attempts, with no failure the cap could count |
| Backlog.TurnServesBacklog | talap/ingestion/jobs.py:113-118 | a worker turn claims a waiting job, and its release, retry or completion leaves the other waiting jobs waiting |
| Backlog.BacklogIsServedFairly | talap/ingestion/jobs.py:113-137 | n turns over n waiting jobs, all due before every later clock reading, serve n distinct jobs: exactly the waiting ones |
| TaskTable.TaskRow.constructor | talap/indexing/scheduler.py:35-43 | a new task row is PENDING with no attempts |
| TaskTable.TaskTable.Insert | talap/indexing/scheduler.py:35-43 | a scheduled task is PENDING, due at once, with no attempts, times or error |
| TaskTable.TaskRow.Claim | talap/indexing/worker.py:157-163 | assigning the fields of a claimed row gives the claimed row value |
| TaskTable.TaskRow.Complete | talap/indexing/worker.py:214-217 | likewise for completion |
| TaskTable.TaskRow.Release | talap/ingestion/jobs.py:200-204 | likewise for release: due now, error text kept |
| TaskTable.TaskRow.Fail | talap/indexing/worker.py:267-283 | likewise for failure: retried below the cap and FAILED from the cap on, and the outcome is the new status |
| TaskTable.TaskTable.ClaimTasks | talap/indexing/worker.py:117-175 | rejects limits outside 1..100 untouched; otherwise the tickets are exactly the first due or stale rows, by their columns; each row is PROCESSING since now under its ticket's token, and no other row is touched |
| TaskTable.TaskTable.StampAll | talap/indexing/worker.py:157-175 | the loop over the locked rows claims all of them and no other |
| TaskTable.TaskTable.Transition | talap/ingestion/jobs.py:140-160 | a guarded transition changes its row iff it exists, is PROCESSING and carries the token, to the columns of that transition; otherwise it reports not found, invalid or stale, each iff that applies first, and changes nothing |
| TaskTable.TaskTable.MarkCompleted | talap/indexing/worker.py:178-218 | arguments are checked first; then completes iff the claim is current |
| TaskTable.TaskTable.MarkFailed | talap/indexing/worker.py:221-283 | arguments are checked first; then fails or reschedules iff the claim is current, and returns the new status |
| Documents.ReplacementsNormalize | talap/indexing/documents.py:48 | the two replacements in sequence are one normalisation: CRLF and lone CR both become LF |
| Documents.StripMeans | talap/indexing/documents.py:37-47 | stripping removes white space at both ends, all of it, and nothing else |
| Documents.DocumentIsFourFields | talap/indexing/documents.py:37-48 | the document is four labelled lines, each field stripped and newline-normalised by itself |
| Documents.DocumentsTellProductsApart | talap/indexing/documents.py:37-48 | with single-line fields two products have the same document iff all four stripped fields agree, a missing material counting as blank |
| Upserts.UpsertRow | talap/catalog/importer.py:452-490 | after ON CONFLICT DO UPDATE a key with one row holds that row merged into what was stored |
| Upserts.GrowthIsCountNew | talap/catalog/importer.py:334-339 | counting rows whose key was absent counts the growth of the table when keys are distinct |
| Catalog.ChangedFields | talap/indexing/decisions.py:15-28 | a field is reported iff its value differs, for each of the four; none iff the semantic values are equal |
| Catalog.CompareSemantics | talap/indexing/decisions.py:23-28 | the comparison loop collects exactly the differing fields |
| CatalogLaws.ImportIsImported | talap/catalog/importer.py:309-332 | the four loops of an import together write each row's values under its key, keep existing ids, and touch no other key |
| CatalogLaws.ImportContents | talap/catalog/importer.py:309-324 | after a valid file every SKU in it holds its row, all others what they held, existing ids survive, and the catalog keeps its shape |
| CatalogLaws.ImportGrowth | talap/catalog/importer.py:334-340 | the created counters are the growth of products, variants and inventory alike |
| CatalogLaws.TableSizes | talap/catalog/importer.py:334-340 | a well-shaped catalog has as many variants and inventory rows as products |
| CatalogLaws.ImportSchedulesExactly | talap/catalog/importer.py:413-440 | an import schedules one task for a product iff it is new or a stored semantic value differs, under its merchant and product id, listing exactly the fields whose stored values differ, and no others |
| CatalogLaws.ReimportChangesNothing | talap/catalog/importer.py:413-440 | importing the same file again leaves all tables and ids as they are and schedules nothing |
| CatalogWriters.CreateLaws | apps/api/services/catalog.py:60-92 | a created product adds exactly its offer, keeps the shape, and gets one task with all four fields |
| CatalogWriters.PatchLaws | apps/api/services/catalog.py:151-181 | a patch gives each named field of one offer its new value and leaves every other field, offer and id, keeps the shape, and schedules iff a stored semantic value differs, listing exactly those |
| CatalogWriters.VariantOfProduct | apps/api/services/catalog.py:130-139 | in a well-shaped catalog the variant found by product id is the one under the product's own key |
| CatalogSession.RejectedRowsAre | talap/catalog/importer.py:187-212 | a row number is affected iff its slug differs or its SKU occurred before |
| CatalogSession.RejectedAtMostAll | talap/catalog/importer.py:125-126 | valid_rows is never negative |
| CatalogSession.RejectedRowsAreCounted | talap/catalog/importer.py:187-212 | there are as many affected row numbers as rejected rows |
| CatalogSession.RowErrorsAre | talap/catalog/importer.py:187-212 | a row gets the slug error iff its slug differs and the duplicate error iff its SKU occurred before, under its file row number |
| CatalogSession.RowErrorsInOrder | talap/catalog/importer.py:187-214 | errors are reported in file order |
| CatalogSession.ValidFileMeans | talap/catalog/importer.py:177-214 | a file passes iff every row names the merchant and no SKU repeats |
| CatalogSession.ValidateRows | talap/catalog/importer.py:177-214 | the validation loop returns exactly these errors, in file order, and the affected row numbers |
| CatalogSession.Session.CreateProduct | apps/api/services/catalog.py:46-108 | unknown or inactive merchants and taken SKUs are refused without a trace; otherwise product, variant, stock and task appear together |
| CatalogSession.Session.PatchProduct | apps/api/services/catalog.py:111-201 | an empty patch, an unknown product and an inconsistent state are refused without a trace; otherwise the located rows are patched |
| CatalogSession.Session.WritePatch | apps/api/services/catalog.py:151-181 | the in-place changes and the comparison give the patched catalog with its scheduling |
| CatalogSession.Session.UpsertProducts | talap/catalog/importer.py:452-488 | the product loop is the conflict-updating insert of all rows |
| CatalogSession.Session.UpsertVariants | talap/catalog/importer.py:491-534 | likewise for variants, linked to the returned product ids |
| CatalogSession.Session.UpsertInventory | talap/catalog/importer.py:537-562 | likewise for inventory |
| CatalogSession.Session.ScheduleIndexingTasks | talap/catalog/importer.py:413-440 | the scheduling loop compares with the values read before the first write |
| CatalogSession.Session.RunMutation | talap/catalog/importer.py:276-358 | a mutation commits the whole import, or fails at some statement and leaves every table as it was |
| ImportHistory.HistoryIsCompletedImports | talap/catalog/importer.py:276-373 | over any run of interleaved and failing imports the catalog is the fold of the COMPLETED ones in commit order, each SKU holds its merchant's last completed row, every product has one variant under the same key and every variant one inventory row, and COMPLETED records and folded imports correspond one to one |
| ImportHistory.ImportingIsNeverCommitted | talap/catalog/importer.py:284-288 | no committed import is ever IMPORTING |
| ImportHistory.CompletedCountersAreGrowth | talap/catalog/importer.py:334-357 | the stored counters are the growth of the tables, and created + updated == total rows for products and variants |
| ImportHistory.RejectionIsCounted | talap/catalog/importer.py:118-143 | a parsed file is rejected iff some row names another merchant or repeats a SKU; the import is FAILED, valid + invalid == total, invalid is the number of rejected rows, and the catalog is untouched |
| ImportHistory.MalformedIsCounted | talap/catalog/importer.py:98-116 | a malformed file is FAILED with the parser's counts and the catalog is untouched |
| ImportHistory.ImportsAreOfActiveMerchants | talap/catalog/importer.py:53-70 | in every run each import belongs to a known, active merchant under its slug |
| IndexingLaws.IndexCoverage | talap/indexing/processor.py:144-156 | in every reachable state each product is fresh (client's provider, model, dimensions, hash of its current document) or the task of its last semantic change has not completed |
| IndexingLaws.NewestFollowsChanges | talap/indexing/scheduler.py:12-44 | that task is replaced, by a new one, exactly when a write adds or changes the product |
| IndexingLaws.WriteSchedulesTasks | talap/indexing/scheduler.py:12-44 | a catalog write adds exactly one task per changed product: PENDING, due at once, no attempts, under the product's merchant, listing exactly its changed fields |
| IndexingLaws.DrainedProductIsFresh | talap/indexing/processor.py:289-400 | a product is fresh once the task of its last change has completed, whatever became of all other tasks |
| IndexingLaws.FreshnessIsLostExactlyWhen | talap/indexing/processor.py:289-400 | no step makes a fresh product stale but a catalog write, and that one exactly when it changes the document or takes the variant away |
| IndexingLaws.DrainedIndexIsFresh | talap/indexing/processor.py:289-400 | when all tasks have completed, every product's embedding is of its current document |
| IndexingLaws.NoStaleVector | talap/indexing/processor.py:289-400 | phase D reports EMBEDDED only for the newest claim and leaves the product fresh, its other embeddings and tasks untouched; in every other outcome no embedding changes; with a lost claim nothing changes at all |
| IndexingLaws.VectorsBelongToTheirTexts | talap/indexing/processor.py:165-198 | every stored vector was the provider's answer for exactly the stored text, has the stored hash and the client's dimension |
| IndexingLaws.OvertakenCall | talap/indexing/processor.py:289-299 | a call whose task was claimed again changes nothing; unless its own arguments are bad it is reported stale while the task is PROCESSING and raises the invalid-transition error iff it is not |
| IndexingFailures.UnusableAnswerIsRetried | talap/indexing/processor.py:168-198 | whatever others do meanwhile, a provider failure or a vector of the wrong dimension under a current claim reschedules the task at now + retry delay while attempts are below the call's cap, and fails it from the cap on; nothing else changes |
| IndexingFailures.MovedProductStopsTheWrite | talap/indexing/processor.py:301-355 | under a current claim phase D embeds iff the product is there with its variant and its document is still the text in hand; otherwise it fails for the first reason that applies, by the call's cap, or for good if the product is gone |
| IndexingFailures.ReadingSkipsExactlyWhenEmbedded | talap/indexing/processor.py:117-163 | the call skips iff the product has an embedding of the client's provider, model and dimensions with the current digest: the task completes, no embedding changes and no answer is taken; otherwise the provider is asked for the current document |
| IndexingFailures.MissingVariantIsRetried | talap/indexing/processor.py:117-143 | a product without its variant is retried like a provider failure |
| IndexingFailures.TasksFailOnlyAtTheCap | talap/indexing/processor.py:92-213 | in every run from the empty system a task is FAILED only because a call ended it when its attempts had reached the cap of that call |
| IndexingScenario.SoloRunFreshens | talap/indexing/processor.py:92-213 | a due or stale task processed undisturbed, with a provider that answers, completes and leaves its product fresh |
| IndexingScenario.OvertakenRunRaises | talap/indexing/processor.py:289-299 | from any state with a claimable task: claim, read, answer, stale reclaim, second call finishes, and the first call then raises the invalid-transition error |
| IndexingScenario.RaisedIsReachable | talap/indexing/processor.py:101-104 | that happens in a run from the empty system, for every client, product and stale period |
| IndexingLife.TasksFollowLives | talap/indexing/worker.py:117-283 | under any writers, processors and crashes each task row lives a life of the fenced queue, so all its laws apply |
| IndexingLife.TasksWaitTheirTime | talap/indexing/worker.py:136-156 | no task is claimed before its time, nor taken from a call whose claim is not stale |
| IndexingLife.TaskLedger | talap/indexing/worker.py:157-283 | attempts of a task == retries + stale reclaims + (0 if PENDING else 1), and each token ends it at most once |
| IndexingInvariant.StepKeepsInv | talap/indexing/processor.py:92-213 | every step of writers, claims, reads, provider answers, endings and crashes keeps the coverage invariant: the newest task of a product completes only when the product is fresh |
| IndexedCatalog.WritersScheduleExactly | talap/indexing/scheduler.py:12-44 | every catalog transaction, failed or not, keeps the shape and schedules exactly |
| IndexedCatalog.ExactSchedulingIsAllowed | talap/indexing/scheduler.py:25-43 | exact scheduling on the tables is what the indexing protocol demands of a catalog write |
| IndexedCatalog.UnscheduledKeepsDocument | talap/catalog/importer.py:429-440 | a product for which a writer scheduled nothing keeps its canonical document |
| IndexedCatalog.CatalogIsCovered | talap/indexing/processor.py:144-156 | with products created, patched and imported, failures anywhere and any workers interleaved, each catalog product is indexed as it stands or the task of its last semantic change has not completed |
| IndexedCatalog.LocatedIsKey | apps/api/services/catalog.py:122-149 | in a well-shaped catalog the product and variant located by product id stand under the product's own key, and patching them is the catalog transaction of the whole system |
| IndexedCatalog.CatalogIsShaped | apps/api/services/catalog.py:130-149 | the state check of patch_product cannot fail: every reachable catalog has exactly one variant and one inventory row per product |
| IndexingStore.EmbeddingRow.constructor | talap/indexing/processor.py:366-377 | an inserted embedding row holds the client's identity, the text, its hash and the vector |
| IndexingStore.EmbeddingRow.Overwrite | talap/indexing/processor.py:380-387 | an overwritten row holds the same, whatever it held before |
| IndexingStore.IndexStore.UpsertEmbedding | talap/indexing/processor.py:357-387 | one embedding per product: overwritten if there, inserted otherwise, all others untouched |
| IndexingStore.IndexStore.ApplyFailure | talap/indexing/processor.py:403-429 | failing inside the session changes only the task row and reports its new status |
| IndexingStore.IndexStore.ApplyCompletion | talap/indexing/processor.py:389-392 | completing inside the session changes only the task row |
| IndexingStore.IndexStore.StoreAndComplete | talap/indexing/processor.py:357-393 | embedding and completed task appear together |
| IndexingStore.IndexStore.WriteEmbeddingAtomically | talap/indexing/processor.py:272-400 | the in-place transaction is phase D of the protocol, in state and in result |
| Ingestion.DedupBy | talap/ingestion/service.py:108-118 | deduplication never adds entries |
| Ingestion.Deduplicate | talap/ingestion/service.py:108-138 | the loop with its seen set keeps the first entry of each key, in order |
| Ingestion.DedupKeys | talap/ingestion/service.py:108-138 | deduplication loses and invents no key |
| Ingestion.DedupApart | talap/ingestion/service.py:108-138 | afterwards keys are pairwise different |
| Ingestion.IngestOnce | talap/ingestion/service.py:322-357 | a new event stores exactly its new messages, each whole as the webhook first carries it and with one job, and exactly its new statuses, told apart by stripped texts, time and codes, all under the new event; created + duplicate is the number supplied for messages and for statuses; jobs created == messages created; all counters are table growth |
| Ingestion.ReplayChangesNothing | talap/ingestion/service.py:299-320 | a seen body changes nothing and reports the original event and no creations; the duplicate counters are the numbers of distinct message ids and fingerprints, so created + duplicate is the number supplied iff no identity repeats, for messages and for statuses |
| Ingestion.DedupKeepsAllExactlyWhen | talap/ingestion/service.py:108-138 | deduplication keeps every entry iff the keys are pairwise different |
| Ingestion.ReplayedRepetitionIsCountedOnce | talap/ingestion/service.py:299-320 | a webhook with one message twice counts two when new and one when replayed |
| IngestionRuns.StoredAreTheCarried | talap/ingestion/service.py:255-357 | after any deliveries, with repeats and rolled-back attempts, the stored messages are exactly those carried by the landed ones, whole and with exactly one job each, and the stored statuses exactly those carried by a delivery that was the first to land with its body |
| IngestionRuns.DeliveryOrderIsIrrelevant | talap/ingestion/service.py:255-357 | the same committed deliveries in any order and multiplicity store the same message keys, and the same statuses if these have timestamps of their own |
| IngestionRuns.RedeliveryChangesNothing | talap/ingestion/service.py:299-320 | redelivering a landed body, at any time and after anything else, changes nothing |
| InboundStore.Store.InsertMessageRows | talap/ingestion/service.py:141-185 | the insert loop returns the ids it created and counts the conflicts |
| InboundStore.Store.InsertJobRows | talap/ingestion/service.py:188-208 | the loop creates one job per new message id |
| InboundStore.Store.InsertStatusRows | talap/ingestion/service.py:211-252 | the loop stores new fingerprints and counts the conflicts |
| InboundStore.Store.IngestNewRows | talap/ingestion/service.py:322-357 | the part after a newly created event |
| InboundStore.Store.IngestInTransaction | talap/ingestion/service.py:280-357 | the transaction is the ingestion function, replay branch included |
| InboundStore.Store.IngestWebhook | talap/ingestion/service.py:360-408 | each refusal is given iff its condition is the first to apply, and changes nothing; every other webhook is ingested |
| Recommendations.ParseOfDecimal | talap/recommendations/service.py:54-56 | parsing the numeral of n gives n |
| Recommendations.DecimalNotation | apps/worker/jobs/whatsapp_echo.py:89-92 | numerals are decimal: the ten digits, and one more digit per power of ten |
| Recommendations.SelectionsAreNumerals | talap/recommendations/service.py:54-56 | a text is a selection iff it is the canonical numeral of a number, and then selects that number |
| Recommendations.ReplyRoundTrip | apps/worker/jobs/whatsapp_echo.py:85-125 | line i of the list starts with numeral i and the name and price of result i, and replying the numeral selects the snapshot of result i: its product, name and price |
| Recommendations.NumeralsDiffer | apps/worker/jobs/whatsapp_echo.py:89-92 | different lines carry different numerals |
| Recommendations.StoreKeepsSets | talap/recommendations/service.py:86-108 | storing supersedes the customer's active set: the new one is the only active one, others keep what they displayed, and consistency is kept |
| Recommendations.MarkKeepsSets | talap/recommendations/service.py:146-157 | marking an index in range keeps all sets consistent |
| Recommendations.SelectionUsesUpTheActiveSet | talap/recommendations/service.py:146-157 | after marking the active set its customer has none |
| Recommendations.RecommendationStore.StoreRecommendationSet | talap/recommendations/service.py:75-108 | the two statements are the store transition and return a fresh id |
| Recommendations.RecommendationStore.LoadActive | talap/recommendations/service.py:111-133 | finds the one active set of the customer iff there is one |
| Recommendations.RecommendationStore.MarkRecommendationSelected | talap/recommendations/service.py:136-157 | the update is the marking transition |
| WhatsAppInvariant.StepKeepsInvariant | apps/worker/jobs/whatsapp_echo.py:301-462 | every step of any run, arrivals, claims and crashes included, keeps claims and acknowledgements apart, replies backed, answered jobs answered and recommendation sets consistent |
| WhatsAppInvariant.RunKeepsInvariant | apps/worker/jobs/whatsapp_echo.py:301-462 | the same over all runs, in which messages, sets, demands and sends only accumulate |
| WhatsAppLaws.CompletedJobsWereAnswered | apps/worker/jobs/whatsapp_echo.py:426-450 | a COMPLETED job of a WhatsApp text message has at least one acknowledged send |
| WhatsAppLaws.AcksWithinAttempts | apps/worker/jobs/whatsapp_echo.py:426-445 | acknowledged sends of a job never exceed its attempts |
| WhatsAppLaws.OtherJobsAreNotAnswered | apps/worker/jobs/whatsapp_echo.py:334-346 | jobs of other channels or without text never get a send |
| WhatsAppLaws.RepliesAreBacked | apps/worker/jobs/whatsapp_echo.py:384-430 | every acknowledged reply went to the message's own customer; a recommendation list is that of a stored set, a confirmation names a product displayed in a selected set of the customer, a nothing-found notice has its recorded demand |
| WhatsAppLaws.JobsFollowLives | talap/ingestion/jobs.py:140-245 | under the workers each job row lives a life of the fenced queue, so all its laws apply |
| WhatsAppLaws.JobsWaitTheirTime | talap/ingestion/jobs.py:101-118 | no job is claimed before its time, nor taken from a run whose claim is not stale |
| WhatsAppLaws.JobsEndAsTheirChannel | apps/worker/jobs/whatsapp_echo.py:322-344 | over any run a job of a WhatsApp message is never released, and a job of another channel never completed |
| WhatsAppLaws.WhatsAppRepliesAreAccountedFor | apps/worker/jobs/whatsapp_echo.py:7-10 | for a WhatsApp message acknowledged sends are at most one plus retries and stale reclaims |
| WhatsAppLaws.DuplicateRepliesAreAccountedFor | apps/worker/jobs/whatsapp_echo.py:7-10 | acknowledged sends are at most one plus retries, releases and stale reclaims |
| WhatsAppLaws.SetsStayConsistent | talap/recommendations/service.py:136-157 | in any interleaving a customer has at most one active set, and a selected set's index is in range with the matching product id |
| WhatsAppLaws.StoringShowsResults | talap/recommendations/service.py:75-108 | storing results adds one active set of the customer that shows each result's product, name and price, supersedes the active one and leaves all others |
| WhatsAppLaws.UnmetDemandIsRemembered | apps/worker/jobs/whatsapp_echo.py:404-415 | an unmet demand is recorded as extracted, once per message |
| WhatsAppLaws.NumeralChoosesDisplayedProduct | apps/worker/jobs/whatsapp_echo.py:249-261 | after results are stored and any interleaving, replying numeral i while that set is active resolves the i-th displayed product |
| WhatsAppLaws.ChoiceIsMarked | apps/worker/jobs/whatsapp_echo.py:253-273 | a resolved choice, marked any time later, selects exactly that set, index and product, and confirms it |
| WhatsAppLaws.ChoiceIsNotResolvedAgain | apps/worker/jobs/whatsapp_echo.py:255-279 | after a committed choice every active set of the customer was stored later, and while none was stored a retry goes to the extractor |
| WhatsAppLaws.SupersededSetsCanBeSelected | talap/recommendations/service.py:147-156 | a choice resolved before a newer set was stored still turns its superseded set into a selected one |
| WhatsAppRaces.SupersededExactlyWhen | talap/recommendations/service.py:75-108 | over any run a set becomes superseded iff some step stored a newer set for its customer while it was active and nobody has marked it since |
| WhatsAppRaces.MarkingSupersededExactlyWhen | apps/worker/jobs/whatsapp_echo.py:247-273 | for every run between a lookup on an active set and its marking: the marked set is superseded iff another run stored a set for the customer meanwhile while this one was active and no third run has marked it since; in no other case does marking turn SUPERSEDED into SELECTED |
| WhatsAppRaces.ProductIsLastMarked | talap/recommendations/service.py:136-157 | the stored product of a set is that of its last marking, over any run |
| WhatsAppRaces.ConfirmedIsSelectedExactlyWhen | apps/worker/jobs/whatsapp_echo.py:264-298 | the product a run confirms is the stored selection at the send iff the last marking of the set in between, if there is any, chose the same product |
| WhatsAppRaces.ConfirmationCanBeOvertaken | apps/worker/jobs/whatsapp_echo.py:264-298 | of two runs marking different products of one set, the first confirms a product that is not the stored selection |
| WhatsAppLaws.BuilderNeverSearches | apps/worker/jobs/whatsapp_echo.py:372-424 | no result of the response builder's own search can influence the worker |
| WhatsAppScenario.SupersededThenSelectedIsReachable | talap/recommendations/service.py:147-156 | from every reachable state with an active set two further messages of its customer can lead through a superseded to a selected status of that set |
| WhatsAppScenario.OvertakenConfirmationIsReachable | apps/worker/jobs/whatsapp_echo.py:247-298 | from every reachable state whose active set shows two different products, two messages of its customer can end in such a confirmation |
| WhatsAppFacade.Worker.FailJob | apps/worker/jobs/whatsapp_echo.py:188-215 | failing closes the claim through the retry lifecycle and reports the resulting status |
| WhatsAppFacade.Worker.HandleSelection | apps/worker/jobs/whatsapp_echo.py:218-298 | a numeric reply is resolved by steps of its run; without a result nothing changed and the message is left to the extractor |
| WhatsAppFacade.Worker.ChooseFromActive | apps/worker/jobs/whatsapp_echo.py:235-252 | a number is a choice iff the customer has an active set; otherwise nothing changed |
| WhatsAppFacade.Worker.AnswerChoice | apps/worker/jobs/whatsapp_echo.py:249-298 | a number in range is marked and confirmed, any other is answered with the number of choices |
| WhatsAppFacade.Worker.ConfirmChoice | apps/worker/jobs/whatsapp_echo.py:253-298 | marking and confirming are steps of the run |
| WhatsAppFacade.Worker.SendAndFinish | apps/worker/jobs/whatsapp_echo.py:426-450 | an acknowledged send is recorded and the job completed; an unacknowledged one fails the attempt |
| WhatsAppFacade.Worker.SendAfter | apps/worker/jobs/whatsapp_echo.py:384-450 | the send after a committed selection, set or demand |
| WhatsAppFacade.Worker.Recommend | apps/worker/jobs/whatsapp_echo.py:372-422 | the search branch is made of steps of the run |
| WhatsAppFacade.Worker.OfferResults | apps/worker/jobs/whatsapp_echo.py:384-422 | results are stored and listed, an empty search is remembered and announced |
| WhatsAppFacade.Worker.StoreAndSend | apps/worker/jobs/whatsapp_echo.py:384-403 | the set is stored before it is announced |
| WhatsAppFacade.Worker.PersistAndSend | apps/worker/jobs/whatsapp_echo.py:404-422 | the unmet demand is recorded, once per message, before the customer is told |
| WhatsAppFacade.Worker.RecordDemand | apps/worker/jobs/whatsapp_echo.py:404-415 | the first demand of a message is kept |
| WhatsAppFacade.Worker.AnswerText | apps/worker/jobs/whatsapp_echo.py:346-450 | a text message is served by steps of the run |
| WhatsAppFacade.Worker.AnswerRequest | apps/worker/jobs/whatsapp_echo.py:360-424 | extraction leads to search, to another reply, or to a failed attempt |
| WhatsAppFacade.Worker.ServeRequest | apps/worker/jobs/whatsapp_echo.py:372-424 | a product search without a missing field is searched for, each other intent gets its own notice or question |
| WhatsAppFacade.Worker.CloseSilently | apps/worker/jobs/whatsapp_echo.py:322-344 | other channels are released, due at once, and other kinds completed, with no send |
| WhatsAppFacade.Worker.ClaimOne | talap/ingestion/jobs.py:85-137 | claims the first due or stale job by its columns, or nothing iff there is none |
| WhatsAppFacade.Worker.ProcessOne | apps/worker/jobs/whatsapp_echo.py:301-462 | one call is a run of the machine made of its own claim and steps; NO_JOB iff nothing is due or stale; RELEASED iff the message is of another channel; NO_RESPONSE iff it is gone or a WhatsApp message without text; a text is answered by the reply its numeral, its extracted intent and the search call for, each spelled out, and SENT means that reply was acknowledged and the job COMPLETED; otherwise the attempt is rescheduled below the cap and FAILED from it on |
| Vectors.CauchySchwarz | talap/evaluation/embeddings/retrieval.py:30-35 | dot(a,b)^2 <= sumsq(a) * sumsq(b) for all vectors of equal length |
| Vectors.DotPicks | talap/evaluation/embeddings/retrieval.py:24-35 | the dot product with a unit vector is the coordinate |
| Vectors.DotAdds | talap/evaluation/embeddings/retrieval.py:24-35 | the dot product is additive |
| Vectors.CosineMeaning | talap/evaluation/embeddings/retrieval.py:24-35 | the cosine times both norms is the dot product; refused iff the lengths differ; zero with a zero vector |
| Vectors.CosineOfSelf | talap/evaluation/embeddings/retrieval.py:24-35 | the cosine of a nonzero vector with itself is one |
| Vectors.CosineInRange | talap/evaluation/embeddings/retrieval.py:24-35 | cosine similarity lies in [-1, 1] |
| Vectors.CosineIgnoresScale | talap/evaluation/embeddings/retrieval.py:24-35 | positive scaling of a vector leaves the cosine unchanged |
| Vectors.CosineSymmetric | talap/evaluation/embeddings/retrieval.py:24-35 | the cosine is symmetric, errors included |
| Vectors.NormalizeIsIdempotent | talap/evaluation/embeddings/retrieval.py:16-21 | a normalised vector has norm one and normalises to itself |
| Vectors.ZeroVectorsFail | talap/evaluation/embeddings/retrieval.py:18-20 | normalising fails iff every component is zero |
| Vectors.CosineOfNormalized | talap/evaluation/embeddings/retrieval.py:16-35 | normalising both vectors leaves the cosine unchanged |
| Ranking.BetterIsTotalOrder | talap/evaluation/embeddings/retrieval.py:66 | the key (-score, id) orders scored documents totally |
| Ranking.RankingIsTopK | talap/evaluation/embeddings/retrieval.py:38-68 | ranking fails iff lengths, top_k or a dimension are wrong, and otherwise returns the first top_k of the sorted arrangement of all scored documents |
| Ranking.RankingMeaning | talap/evaluation/embeddings/retrieval.py:38-68 | min(top_k, n) entries, each a document's id with its own cosine, by falling score and then by id; an omitted document comes after every returned one |
| Ranking.IdLeIsLexicographic | talap/evaluation/embeddings/retrieval.py:66 | ids compare by code points: a prefix first, otherwise by the first difference |
| Ranking.TopKIsUnique | talap/evaluation/embeddings/retrieval.py:61-68 | that description determines the result |
| Ranking.ReturnedBeatOmitted | talap/evaluation/embeddings/retrieval.py:61-68 | every returned document precedes every omitted one |
| Ranking.ListingOrderIsIrrelevant | talap/evaluation/embeddings/retrieval.py:47-68 | the order of the input documents does not matter |
| Ranking.RankingIgnoresNormalization | talap/evaluation/embeddings/retrieval.py:61-68 | ranking normalised vectors gives the ranking of the originals: same ids, order, scores and errors |
| Ranking.ScoresInRange | talap/evaluation/embeddings/retrieval.py:61-68 | every reported score lies in [-1, 1] |
| Percentiles.PercentileIgnoresOrder | talap/evaluation/embeddings/metrics.py:100-110 | a percentile depends only on the multiset of values |
| Percentiles.PercentileWithinValues | talap/evaluation/embeddings/metrics.py:105-110 | it lies between every lower and every upper bound of the values, so between minimum and maximum |
| Percentiles.PercentileAtWholeRank | talap/evaluation/embeddings/metrics.py:105-109 | at a whole rank it is the sorted element there |
| Percentiles.PercentileIsLinear | talap/evaluation/embeddings/metrics.py:100-110 | between whole ranks it divides the gap of the two neighbours as fraction * (n - 1) divides the step |
| Percentiles.PercentileMonotone | talap/evaluation/embeddings/metrics.py:105-110 | it is monotone in the fraction over [0, 1], across segments |
| Metrics.ReciprocalRankIsFirst | talap/evaluation/embeddings/metrics.py:87-97 | reciprocal rank is one over the rank of the first relevant document, or zero iff none is retrieved |
| Metrics.RecallWithinHit | talap/evaluation/embeddings/metrics.py:62-84 | 0 <= recall@k <= hit@k <= 1, and both grow with k |
| Metrics.ScoresCount | talap/evaluation/embeddings/metrics.py:62-84 | recall@k times the relevant documents is how many of them are ranked within k; hit@k is one iff there is one, else zero |
| Metrics.HitsAreCounted | talap/evaluation/embeddings/metrics.py:115-162 | the sum of hit scores is the number of queries hit within k |
| Metrics.ReportedHits | talap/evaluation/embeddings/metrics.py:115-162 | each reported hit rate times the queries is the number of queries hit within 1, 3 and 5 |
| Metrics.ReportFigures | talap/evaluation/embeddings/metrics.py:184-230 | mean latency between fastest and slowest, 95th percentile interpolated at 0.95, price per million tokens, no cost if price or tokens are unknown |
| Metrics.ReciprocalRankSandwich | talap/evaluation/embeddings/metrics.py:87-97 | hit@k / k <= RR <= hit@k + (1 - hit@k) / (k + 1) for every k >= 1 |
| Metrics.WeightedIsSum | talap/evaluation/embeddings/metrics.py:115-169 | each reported score times the query count is the sum of the query scores, also for an empty set |
| MetricLaws.MeanRecallWithinHit | talap/evaluation/embeddings/metrics.py:121-162 | the recall and hit bounds hold for averages over any queries |
| MetricLaws.MrrSandwich | talap/evaluation/embeddings/metrics.py:163-169 | the reciprocal-rank sandwich holds for MRR |
| MetricLaws.OverallWithinSuccessful | talap/evaluation/embeddings/metrics.py:201-202 | with empty rankings for failed queries, overall * count == successful-only * its count for every score, so overall <= successful-only |
| MetricLaws.SlicesPartition | talap/evaluation/embeddings/metrics.py:203-210 | slices over distinct values that cover all queries partition counts and sums |
| MetricLaws.ReportSlicesAddUp | talap/evaluation/embeddings/metrics.py:184-230 | in a report the three language slices, and the three scenario slices, are always present and add up, count-weighted, to the overall score |
| MetricLaws.ReportOverallWithinSuccessful | talap/evaluation/embeddings/metrics.py:184-230 | in a report no overall score exceeds the successful-only one, and all queries are counted |
| Evaluation.RunQueries | talap/evaluation/embeddings/runner.py:157-206 | the loop yields one outcome per query and the accumulated latencies, tokens and requests, or stops at the first query that cannot be processed |
| Evaluation.RunWithProvider | talap/evaluation/embeddings/runner.py:125-215 | an evaluation measures exactly this, or fails with the index's or the first query's error |
| Evaluation.IndexFailsExactlyWhen | talap/evaluation/embeddings/runner.py:125-156 | indexing fails iff there are no documents, a zero vector, or mixed dimensions, in this order |
| Evaluation.QueryFailsExactlyWhen | talap/evaluation/embeddings/runner.py:162-197 | an answered query fails iff it brings other than one vector, a zero one, or one of another dimension; an unanswered one never |
| Evaluation.OneOutcomePerQuery | talap/evaluation/embeddings/runner.py:162-206 | outcomes correspond to queries; exactly the provider failures did not succeed, and their rankings are empty |
| Evaluation.OverallWithinSuccessful | talap/evaluation/embeddings/runner.py:165-177 | in every evaluation overall <= successful-only for every score, and every query stays in the denominator |
| EvaluationFailures.FailuresNeverImprove | talap/evaluation/embeddings/runner.py:162-206 | had any answered requests failed instead, every overall score of the report would be the same or lower |
| EvaluationFailures.FailuresKeepMeasurable | talap/evaluation/embeddings/runner.py:162-206 | with more requests failing the evaluation can still be completed |
| EvaluationFailures.FailureRaisesSuccessfulOnlyExactlyWhen | talap/evaluation/embeddings/metrics.py:201-202 | failing one query raises a successful-only score iff the query scored below the average of the successes and was not the only one |
| EvaluationFailures.SuccessfulOnlyCanRise | talap/evaluation/embeddings/metrics.py:201-202 | of a hit and a miss, failing the miss raises the successful-only hit rate |
| Evaluation.RankingsAreOfRawVectors | talap/evaluation/embeddings/runner.py:148-197 | although normalised vectors are compared, each ranking is that of the provider's own vectors |
| ProductSearch.FirstIsSmallest | talap/search/products.py:113-116 | the first row of a product's partition is its qualifying variant with the smallest id |
| ProductSearch.SearchReturnsBestProducts | talap/search/products.py:104-159 | the window query returns exactly the min(limit, available) best products by (distance, product id), each once, through its smallest qualifying variant |
| ProductSearch.SearchFindsTheOffered | talap/search/products.py:104-223 | by the catalog's columns: every result is active, in stock, indexed under the settings and within budget, quantity and category, in order of distance and id and through its smallest such variant; such a product is left out only when limit products before it are found |
| ProductSearch.BestProductsAreUnique | talap/search/products.py:151-156 | that description determines the rows and their order, whatever order the join delivers |
| ProductSearch.ClampLaws | talap/search/products.py:73-87 | clamping fails exactly beyond the tolerance, lands in [-1, 1], moves a value by at most the tolerance and keeps order |
| ProductSearch.SearchProducts | talap/search/products.py:162-223 | other intents give no results; bad limits, a failed or misshapen embedding, a failing query and impossible similarities are errors; otherwise every selected row is returned with its clamped similarity |
| ProductSearch.SearchMeaning | talap/search/products.py:104-223 | a successful search returns at most limit distinct qualifying products, the best ones, each through its smallest qualifying variant, with non-increasing similarity in [-1, 1] |

## Left out

- HTTP clients, API routes, settings, ORM mapping and migrations: plumbing. The embedder, the extractor, product search (for the worker) and the messaging service are answers given to the steps.
- Interleavings inside one transaction and database isolation levels.
- SHA-256 itself and JSON: hashes and status fingerprints are idealised as injective. UUIDs are numbers handed out by a counter, ordered as numbers.
- CSV tokenising, field validation and the channel normalisers: rows and messages are taken as typed. What happens to a header-only file depends on how the database library treats an INSERT without rows; the catalog is the same either way.
- Unexpected database errors other than a rollback; rows are changed only by the modelled transactions, so products and messages are never deleted.
- Stripping, defaulting and truncating of last_error, the updated_at columns, and message fields no decision looks at (business scope, chat id, media).
- Non-ASCII white space and digits: stripping and numerals are over ASCII.
- Customer-facing wording beyond the numbered lines, and the manager link: a reply is its meaning.
- IEEE rounding of scores and metrics, and the rounding of the written report.
- build_query_text, the Jina client's retry loop, dataset validation and the report writer: one reading of the body settles them.
- The scheduler's filter of non-semantic field names: fields are an enumerated type. A task's changed fields are kept as a set, not as a sorted list.
- CatalogSession.Session.PatchProduct: of two reasons for an inconsistent state it does not say which applied, as the code reports both alike.
- WhatsAppWorker.Step: a claim may take any eligible job, so that rows locked by others are covered; the order is stated by WhatsAppFacade.Worker.ClaimOne and FencedQueue.SelectionIsExact.
